/**
  The admission refusal from the scheduler to the HTTP client: milliseconds become whole
  seconds, the seconds travel inside a status message, and the gateway parses them back
  into a Retry-After header.
 */
module RetryAfter {
  import opened Wrappers

  const INT64_MAX: int := 0x7FFF_FFFF_FFFF_FFFF
  const INT64_MIN: int := -INT64_MAX - 1
  const DEFAULT_RETRY_SEC: int := 5

  type Int64 = n: int | INT64_MIN <= n <= INT64_MAX

  function Truncate(x: real): int {
    if x >= 0.0 then x.Floor else -(-x).Floor
  }

  /** Go's conversion of a float to an integer drops the fraction; outside 64 bits the result is up to the platform. */
  function ToInt64(x: real, outOfRange: Int64): Int64 {
    var t := Truncate(x);
    if INT64_MIN <= t <= INT64_MAX then t else outOfRange
  }

  datatype AdmissionError = AdmissionError(retryAfterSec: Int64, message: string)

  function NewAdmissionError(retryAfterMs: real, reason: string, outOfRange: Int64): AdmissionError {
    var sec := ToInt64(retryAfterMs / 1000.0, outOfRange);
    AdmissionError(if sec < 1 then 1 else sec, "admission rejected: " + reason)
  }

  datatype PickError = Admission(err: AdmissionError) | Plain(message: string)

  datatype Status = ResourceExhausted(message: string) | Unknown(message: string)

  const ADMISSION_PREFIX := "admission:"

  function MapPickError(e: PickError): Status {
    match e
    case Admission(err) => ResourceExhausted(ADMISSION_PREFIX + Itoa(err.retryAfterSec) + ":" + err.message)
    case Plain(message) => Unknown(message)
  }

  // ----- Decimal integers -----

  function Digit(d: nat): char
    requires d < 10
  {
    '0' + d as char
  }

  predicate IsDigit(c: char) {
    '0' <= c <= '9'
  }

  function DigitValue(c: char): nat
    requires IsDigit(c)
  {
    (c - '0') as nat
  }

  function Digits(n: nat): (s: string)
    ensures s != "" && forall c <- s :: IsDigit(c)
  {
    if n < 10 then [Digit(n)] else Digits(n / 10) + [Digit(n % 10)]
  }

  function Itoa(n: int): string {
    if n < 0 then "-" + Digits(-n) else Digits(n)
  }

  function DigitsValue(s: string): nat
    requires forall c <- s :: IsDigit(c)
  {
    if s == "" then 0 else 10 * DigitsValue(s[..|s| - 1]) + DigitValue(s[|s| - 1])
  }

  /** An optional sign, at least one digit, and a value that fits in 64 bits. */
  function Atoi(s: string): Option<int> {
    var signed := s != "" && s[0] in "+-";
    var body := if signed then s[1..] else s;
    if body == "" || exists c <- body :: !IsDigit(c) then None
    else
      var magnitude: int := DigitsValue(body);
      var v := if signed && s[0] == '-' then -magnitude else magnitude;
      if INT64_MIN <= v <= INT64_MAX then Some(v) else None
  }

  lemma {:induction false} DigitsRoundTrip(n: nat)
    ensures DigitsValue(Digits(n)) == n
  {
    if n >= 10 {
      DigitsRoundTrip(n / 10);
      var s := Digits(n / 10);
      assert (s + [Digit(n % 10)])[..|s|] == s;
    } else {
      assert DigitsValue([Digit(n)][..0]) == 0;
    }
  }

  lemma AtoiItoa(n: int)
    requires INT64_MIN <= n <= INT64_MAX
    ensures Atoi(Itoa(n)) == Some(n)
  {
    if n < 0 {
      DigitsRoundTrip(-n);
      hide Digits, DigitsValue;
      assert Itoa(n)[1..] == Digits(-n);
    } else {
      DigitsRoundTrip(n);
      hide Digits, DigitsValue;
      assert IsDigit(Itoa(n)[0]);
    }
  }

  // ----- Splitting -----

  function IndexOf(s: string, c: char): (i: nat)
    ensures i <= |s| && c !in s[..i] && (i < |s| ==> s[i] == c)
  {
    if s == "" || s[0] == c then 0
    else
      var i := IndexOf(s[1..], c);
      assert s[..1 + i] == [s[0]] + s[1..][..i];
      1 + i
  }

  /** At most n pieces around the first separators; the last piece keeps any others. */
  function SplitN(s: string, sep: char, n: nat): (parts: seq<string>)
    requires n > 0
    ensures 1 <= |parts| <= n
    decreases n
  {
    var i := IndexOf(s, sep);
    if n == 1 || i == |s| then [s] else [s[..i]] + SplitN(s[i + 1..], sep, n - 1)
  }

  lemma {:induction false} IndexUnique(a: string, c: char, b: string)
    requires c !in a
    ensures IndexOf(a + [c] + b, c) == |a|
  {
    if a != "" {
      IndexUnique(a[1..], c, b);
      assert (a + [c] + b)[1..] == a[1..] + [c] + b;
    }
  }

  lemma SplitAtFirst(a: string, sep: char, b: string, n: nat)
    requires sep !in a && n > 1
    ensures SplitN(a + [sep] + b, sep, n) == [a] + SplitN(b, sep, n - 1)
  {
    var s := a + [sep] + b;
    IndexUnique(a, sep, b);
    assert s[..|a|] == a && s[|a| + 1..] == b;
  }

  // ----- The HTTP side -----

  datatype Response = Response(code: int, retryAfter: Option<string>, body: string)

  function RetrySeconds(message: string): int {
    if ADMISSION_PREFIX <= message then
      var parts := SplitN(message, ':', 3);
      if |parts| >= 2 && Atoi(parts[1]).Some? then Atoi(parts[1]).value else DEFAULT_RETRY_SEC
    else DEFAULT_RETRY_SEC
  }

  method WriteHTTPError(st: Status) returns (r: Response)
    ensures st.ResourceExhausted? ==> r == Response(503, Some(Itoa(RetrySeconds(st.message))), st.message)
    ensures st.Unknown? ==> r == Response(500, None, st.message)
  {
    if st.ResourceExhausted? {
      var retry := DEFAULT_RETRY_SEC;
      if ADMISSION_PREFIX <= st.message {
        var parts := SplitN(st.message, ':', 3);
        if |parts| >= 2 {
          var v := Atoi(parts[1]);
          if v.Some? {
            retry := v.value;
          }
        }
      }
      return Response(503, Some(Itoa(retry)), st.message);
    }
    return Response(500, None, st.message);
  }

  /** The delay a refused client reads. */
  function Told(err: AdmissionError): int {
    RetrySeconds(MapPickError(Admission(err)).message)
  }

  /** A delay-seconds value: one or more digits (section 10.2.3 of RFC 9110). */
  predicate IsDelaySeconds(s: string) {
    s != "" && forall c <- s :: IsDigit(c)
  }

  lemma PositiveItoa(n: int)
    requires n >= 0
    ensures IsDelaySeconds(Itoa(n)) && ':' !in Itoa(n)
  {
  }

  /** The gateway recovers the seconds from the status message even when the text after them has colons. */
  lemma ParseAdmission(err: AdmissionError)
    requires err.retryAfterSec >= 0
    ensures Told(err) == err.retryAfterSec
  {
    PositiveItoa(err.retryAfterSec);
    AtoiItoa(err.retryAfterSec);
    hide Itoa, Atoi, SplitN;
    var n := Itoa(err.retryAfterSec);
    var message := MapPickError(Admission(err)).message;
    assert message == "admission" + [':'] + (n + [':'] + err.message);
    assert ':' !in "admission";
    SplitAtFirst("admission", ':', n + [':'] + err.message, 3);
    SplitAtFirst(n, ':', err.message, 2);
    assert SplitN(message, ':', 3)[1] == n;
  }

  /**
    Main result: for every delay the client is told exactly max(1, whole seconds), whatever the
    reason text contains.
   */
  lemma RetryAfterRoundTrip(retryAfterMs: real, reason: string, outOfRange: Int64)
    ensures var sec := ToInt64(retryAfterMs / 1000.0, outOfRange);
            var told := Told(NewAdmissionError(retryAfterMs, reason, outOfRange));
            told == (if sec < 1 then 1 else sec) && IsDelaySeconds(Itoa(told))
  {
    var err := NewAdmissionError(retryAfterMs, reason, outOfRange);
    ParseAdmission(err);
    hide Itoa;
    assert IsDelaySeconds(Itoa(err.retryAfterSec)) by { PositiveItoa(err.retryAfterSec); }
  }

  /**
    The delay is honest, never overstated and understated by less than a second, exactly when
    it is at least one second and its seconds fit 64 bits.
   */
  lemma RetryAfterHonest(retryAfterMs: real, reason: string, outOfRange: Int64)
    ensures var sec := NewAdmissionError(retryAfterMs, reason, outOfRange).retryAfterSec as real;
            1000.0 * sec <= retryAfterMs < 1000.0 * (sec + 1.0)
            <==> retryAfterMs >= 1000.0 && Truncate(retryAfterMs / 1000.0) <= INT64_MAX
  {
    var q := retryAfterMs / 1000.0;
    if retryAfterMs >= 1000.0 {
      assert q >= 1.0 && q.Floor as real <= q < q.Floor as real + 1.0;
      assert Truncate(q) == q.Floor >= 1;
    }
  }
}
