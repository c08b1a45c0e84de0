/** How one callback PUT ends, as far as the handler can tell: delivered, or
    a thrown error. The HTTPS exchange itself is not modelled; its result is
    supplied as an `HttpReply`. */
module SendResponse {
  import opened Js

  /** What came back for one PUT of the response body. */
  datatype HttpReply =
    | Response(statusCode: Option<int>)   // `end` was reached; the status may be missing
    | TransportError(error: Thrown)       // an `error` event on the request or the response
    | ClosedPrematurely                   // `close` without a preceding `end`

  const UnexpectedStatus: string := "unexpected status code"
  const PrematureClose: string := "the response was closed prematurely"

  /** The status codes that count as delivered. */
  predicate Accepted(status: int) {
    200 <= status < 300
  }

  /** The decimal digits of a natural number, most significant first, with
      no leading zero: 0 is written `0`. */
  function Decimal(n: nat): (s: string)
    ensures |s| >= 1
    ensures forall i :: 0 <= i < |s| ==> '0' <= s[i] <= '9'
    ensures DigitsValue(s) == n
    ensures s[0] == '0' <==> n == 0
    ensures n == 0 ==> s == "0"
    decreases n
  {
    if n < 10 then [DigitChar(n)]
    else
      var high := Decimal(n / 10);
      var s := high + [DigitChar(n % 10)];
      DigitsValueSnoc(high, DigitChar(n % 10));
      assert s[0] == high[0];
      s
  }

  function DigitChar(d: nat): (c: char)
    requires d < 10
    ensures '0' <= c <= '9' && c as int - '0' as int == d
  {
    ('0' as int + d) as char
  }

  /** The number a string of decimal digits denotes. */
  function DigitsValue(s: string): nat
    requires forall i :: 0 <= i < |s| ==> '0' <= s[i] <= '9'
    decreases |s|
  {
    if |s| == 0 then 0
    else 10 * DigitsValue(s[..|s| - 1]) + (s[|s| - 1] as int - '0' as int)
  }

  lemma DigitsValueSnoc(s: string, c: char)
    requires forall i :: 0 <= i < |s| ==> '0' <= s[i] <= '9'
    requires '0' <= c <= '9'
    ensures DigitsValue(s + [c]) == 10 * DigitsValue(s) + (c as int - '0' as int)
  {
    assert (s + [c])[..|s|] == s;
  }

  /** `${n}` for an integer status code. */
  function IntString(n: int): string {
    if n < 0 then "-" + Decimal(-n) else Decimal(n)
  }

  /** The error `sendResponse` throws for a reply, or `None` when the reply
      is delivered: only a completed response with a 2xx status is; a
      missing status reads as 0. */
  function Outcome(reply: HttpReply): (r: Option<Thrown>)
    ensures r.None? <==> reply.Response? && Accepted(reply.statusCode.GetOr(0))
    ensures reply.Response? && r.Some? ==>
              var code := reply.statusCode.GetOr(0);
              r.value == StatusError(code, "sendResponse (" + IntString(code) + "): " + UnexpectedStatus)
    ensures reply.TransportError? ==> r == Some(reply.error)
    ensures reply.ClosedPrematurely? ==> r == Some(Error(PrematureClose))
  {
    match reply
    case Response(code) =>
      var status := code.GetOr(0);
      if status < 200 || status >= 300 then
        Some(StatusError(status, "sendResponse (" + IntString(status) + "): " + UnexpectedStatus))
      else
        None
    case TransportError(e) => Some(e)
    case ClosedPrematurely => Some(Error(PrematureClose))
  }

  /** A 500 reply is rejected with an error carrying status code 500. */
  lemma Status500Rejected()
    ensures var r := Outcome(Response(Some(500)));
            r.Some? && r.value.StatusError? && r.value.statusCode == 500
  {
  }
}
