/** The part of the HTTP framework the handlers see: status codes, error
    values, responses, and the decimal rendering used in error messages. */
module Http {
  import opened Json
  import opened Results

  type StatusCode = c: nat | 100 <= c <= 599 witness 200

  const OK: StatusCode := 200
  const BAD_REQUEST: StatusCode := 400
  const NOT_FOUND: StatusCode := 404

  /** An error carrying the status the client receives and a message. */
  datatype HttpError = HttpError(status: StatusCode, message: string)

  /** A response; `body == Some(v)` is a JSON body (content type
      application/json) holding `v`, `None` an empty body. */
  datatype Response = Response(status: StatusCode, body: Option<Value>)

  /** The status the client receives, whether the handler returned a
      response or an error. */
  function StatusOf(r: Result<Response, HttpError>): StatusCode {
    match r
    case Ok(resp) => resp.status
    case Err(e) => e.status
  }

  /** The error both `get` handlers give for a missing record:
      "<typ> with id <id> not found". */
  function NotFoundError(typ: string, id: nat): (e: HttpError)
    ensures e.status == NOT_FOUND
    ensures |typ| <= |e.message| && e.message[..|typ|] == typ
  {
    HttpError(NOT_FOUND, typ + " with id " + Decimal(id) + " not found")
  }

  /** The decimal digit for `d`. */
  function Digit(d: nat): (c: char)
    requires d < 10
    ensures '0' <= c <= '9' && c as int - '0' as int == d
  {
    (('0' as int) + d) as char
  }

  /** `n` written in base 10 without leading zeros, as `format!("{}", n)` does. */
  function Decimal(n: nat): (s: string)
    ensures 1 <= |s|
    ensures forall i :: 0 <= i < |s| ==> '0' <= s[i] <= '9'
    ensures 1 < |s| ==> s[0] != '0'
    decreases n
  {
    if n < 10 then [Digit(n)] else Decimal(n / 10) + [Digit(n % 10)]
  }

  /** The number a string of decimal digits denotes. */
  function DecimalValue(s: string): nat
    requires forall i :: 0 <= i < |s| ==> '0' <= s[i] <= '9'
    decreases |s|
  {
    if s == [] then 0
    else 10 * DecimalValue(s[..|s| - 1]) + (s[|s| - 1] as int - '0' as int)
  }

  /** Rendering an id in an error message loses nothing: the id can be read back. */
  lemma {:induction false} DecimalRoundTrip(n: nat)
    ensures DecimalValue(Decimal(n)) == n
    decreases n
  {
    if n >= 10 {
      DecimalRoundTrip(n / 10);
      var s := Decimal(n);
      assert s[..|s| - 1] == Decimal(n / 10);
    }
  }

  /** Distinct ids give distinct renderings. */
  lemma DecimalInjective(a: nat, b: nat)
    requires Decimal(a) == Decimal(b)
    ensures a == b
  {
    DecimalRoundTrip(a);
    DecimalRoundTrip(b);
  }

  /** Distinct ids in one collection give distinct not-found messages. */
  lemma NotFoundMessageInjective(typ: string, a: nat, b: nat)
    requires NotFoundError(typ, a).message == NotFoundError(typ, b).message
    ensures a == b
  {
    var prefix := typ + " with id ";
    var ma, mb := NotFoundError(typ, a).message, NotFoundError(typ, b).message;
    assert ma[|prefix|..] == Decimal(a) + " not found";
    assert mb[|prefix|..] == Decimal(b) + " not found";
    assert |Decimal(a)| == |Decimal(b)|;
    assert Decimal(a) == ma[|prefix|..][..|Decimal(a)|];
    assert Decimal(b) == mb[|prefix|..][..|Decimal(b)|];
    DecimalInjective(a, b);
  }
}
