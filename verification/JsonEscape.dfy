/** The orchestrator's hand-written JSON string escaping, against a parser for JSON string bodies. */
module JsonEscape {
  /** Replace every occurrence of one character by a string. */
  function ReplaceAll(s: string, c: char, r: string): string {
    if s == "" then "" else (if s[0] == c then r else [s[0]]) + ReplaceAll(s[1..], c, r)
  }

  /** Backslashes first, then quotes, then newlines. */
  function EscapeJSON(s: string): string {
    ReplaceAll(ReplaceAll(ReplaceAll(s, '\\', "\\\\"), '\"', "\\\""), '\n', "\\n")
  }

  function EscapeChar(c: char): string {
    if c == '\\' then "\\\\"
    else if c == '\"' then "\\\""
    else if c == '\n' then "\\n"
    else [c]
  }

  function EscapeEach(s: string): string {
    if s == "" then "" else EscapeChar(s[0]) + EscapeEach(s[1..])
  }

  lemma {:induction false} ReplaceConcat(a: string, b: string, c: char, r: string)
    ensures ReplaceAll(a + b, c, r) == ReplaceAll(a, c, r) + ReplaceAll(b, c, r)
  {
    if a == "" {
      assert a + b == b;
    } else {
      assert (a + b)[1..] == a[1..] + b;
      ReplaceConcat(a[1..], b, c, r);
    }
  }

  lemma ReplaceOne(x: char, c: char, r: string)
    ensures ReplaceAll([x], c, r) == if x == c then r else [x]
  {
    assert [x][1..] == "";
  }

  lemma ReplacePair(x: char, y: char, c: char, r: string)
    ensures ReplaceAll([x, y], c, r) == (if x == c then r else [x]) + (if y == c then r else [y])
  {
    assert [x, y][1..] == [y];
    ReplaceOne(y, c, r);
  }

  /** On one character the three passes do what the escape table says: no pass disturbs another's output. */
  lemma PassesOnOneChar(x: char)
    ensures EscapeJSON([x]) == EscapeChar(x)
  {
    ReplaceOne(x, '\\', "\\\\");
    ReplaceOne(x, '\"', "\\\"");
    ReplaceOne(x, '\n', "\\n");
    ReplacePair('\\', '\\', '\"', "\\\"");
    ReplacePair('\\', '\\', '\n', "\\n");
    ReplacePair('\\', '\"', '\n', "\\n");
    hide ReplaceAll;
    assert ['\\'] + ['\\'] == ['\\', '\\'] && ['\\'] + ['\"'] == ['\\', '\"'];
  }

  /** The three sequential passes equal a single escape of every character. */
  lemma {:induction false} PassesAreOneMap(s: string)
    ensures EscapeJSON(s) == EscapeEach(s)
  {
    if s != "" {
      var head, tail := [s[0]], s[1..];
      assert s == head + tail;
      ReplaceConcat(head, tail, '\\', "\\\\");
      var h1, t1 := ReplaceAll(head, '\\', "\\\\"), ReplaceAll(tail, '\\', "\\\\");
      ReplaceConcat(h1, t1, '\"', "\\\"");
      ReplaceConcat(ReplaceAll(h1, '\"', "\\\""), ReplaceAll(t1, '\"', "\\\""), '\n', "\\n");
      hide ReplaceAll;
      PassesOnOneChar(s[0]);
      PassesAreOneMap(tail);
    }
  }

  // ----- Reading a JSON string body -----

  datatype Parsed = Malformed | Body(value: string, rest: string)

  function Prepend(c: char, p: Parsed): Parsed {
    match p
    case Malformed => Malformed
    case Body(value, rest) => Body([c] + value, rest)
  }

  predicate IsHex(c: char) {
    '0' <= c <= '9' || 'a' <= c <= 'f' || 'A' <= c <= 'F'
  }

  function HexValue(c: char): (v: nat)
    requires IsHex(c)
    ensures v < 16
  {
    if '0' <= c <= '9' then c as int - '0' as int
    else if 'a' <= c <= 'f' then 10 + c as int - 'a' as int
    else 10 + c as int - 'A' as int
  }

  /** The character of a \u escape; surrogates have none. */
  function CodeUnit(h3: char, h2: char, h1: char, h0: char): (r: string)
    ensures |r| <= 1
  {
    if !(IsHex(h3) && IsHex(h2) && IsHex(h1) && IsHex(h0)) then ""
    else
      var code := 0x1000 * HexValue(h3) + 0x100 * HexValue(h2) + 0x10 * HexValue(h1) + HexValue(h0);
      if 0xD800 <= code < 0xE000 then "" else [code as char]
  }

  /** The character a two-character escape stands for. */
  function SimpleEscape(c: char): (r: string)
    ensures |r| <= 1
  {
    if c == '\"' || c == '\\' || c == '/' then [c]
    else if c == 'b' then "\U{0008}"
    else if c == 'f' then "\U{000C}"
    else if c == 'n' then "\n"
    else if c == 'r' then "\r"
    else if c == 't' then "\t"
    else ""
  }

  function PrependIf(c: string, p: Parsed): Parsed
    requires |c| <= 1
  {
    if c == "" then Malformed else Prepend(c[0], p)
  }

  /**
    The characters after an opening quote up to its closing quote (section 7 of RFC 8259):
    control characters must be escaped, and only the listed escapes exist. Surrogate
    escapes are refused.
   */
  function ParseBody(s: string): Parsed
    decreases |s|
  {
    if s == "" then Malformed
    else if s[0] == '\"' then Body("", s[1..])
    else if s[0] < ' ' then Malformed
    else if s[0] != '\\' then Prepend(s[0], ParseBody(s[1..]))
    else if |s| < 2 then Malformed
    else if s[1] != 'u' then PrependIf(SimpleEscape(s[1]), ParseBody(s[2..]))
    else if |s| < 6 then Malformed
    else PrependIf(CodeUnit(s[2], s[3], s[4], s[5]), ParseBody(s[6..]))
  }

  predicate IsEscapable(c: char) {
    c >= ' ' || c == '\n'
  }

  /** No control character other than newline. */
  predicate Escapable(s: string) {
    forall i :: 0 <= i < |s| ==> IsEscapable(s[i])
  }

  /** The parser undoes the escape of one character, and refuses a bare control character. */
  lemma ParseOne(c: char, tail: string)
    ensures ParseBody(EscapeChar(c) + tail) == if IsEscapable(c) then Prepend(c, ParseBody(tail)) else Malformed
  {
    var all := EscapeChar(c) + tail;
    if c == '\\' || c == '\"' || c == '\n' {
      assert all[2..] == tail;
    } else {
      assert all[1..] == tail;
    }
  }

  /** Escaped text, then a closing quote and whatever follows: the parser stops at that quote with the original text. */
  lemma {:induction false} ParseEscaped(s: string, closing: string)
    requires closing != "" && closing[0] == '\"'
    ensures ParseBody(EscapeEach(s) + closing) == if Escapable(s) then Body(s, closing[1..]) else Malformed
  {
    if s == "" {
      assert EscapeEach(s) + closing == closing;
    } else {
      hide ParseBody, EscapeChar, Escapable;
      ParseEscaped(s[1..], closing);
      ParseOne(s[0], EscapeEach(s[1..]) + closing);
      Associate(EscapeChar(s[0]), EscapeEach(s[1..]), closing);
      EscapableSplit(s);
      assert [s[0]] + s[1..] == s;
    }
  }

  lemma Associate(a: string, b: string, c: string)
    ensures (a + b) + c == a + (b + c)
  {
  }

  lemma EscapableSplit(s: string)
    requires s != ""
    ensures Escapable(s) <==> IsEscapable(s[0]) && Escapable(s[1..])
  {
    if IsEscapable(s[0]) && Escapable(s[1..]) {
      forall i | 0 <= i < |s| ensures IsEscapable(s[i]) {
        assert i > 0 ==> s[i] == s[1..][i - 1];
      }
    }
    if Escapable(s) {
      forall i | 0 <= i < |s[1..]| ensures IsEscapable(s[1..][i]) {
        assert s[1..][i] == s[i + 1];
      }
    }
  }

  const PAYLOAD_HEAD := "{\"model_id\":\"demo-model\",\"prompt\":\""
  const PAYLOAD_TAIL := ",\"tier\":\"small\"}"

  function Payload(prompt: string): string {
    PAYLOAD_HEAD + EscapeJSON(prompt) + "\"" + PAYLOAD_TAIL
  }

  /**
    Main result: the prompt read back from the request is the prompt sent, with the tier field
    intact behind it, exactly when the prompt is escapable.
   */
  lemma PromptRoundTrip(prompt: string)
    ensures ParseBody(Payload(prompt)[|PAYLOAD_HEAD|..]) == Body(prompt, PAYLOAD_TAIL) <==> Escapable(prompt)
    ensures !Escapable(prompt) ==> ParseBody(Payload(prompt)[|PAYLOAD_HEAD|..]).Malformed?
  {
    PassesAreOneMap(prompt);
    var closing := "\"" + PAYLOAD_TAIL;
    ParseEscaped(prompt, closing);
    hide ParseBody, EscapeJSON, EscapeEach, Escapable;
    assert Payload(prompt)[|PAYLOAD_HEAD|..] == EscapeJSON(prompt) + closing;
    assert closing[1..] == PAYLOAD_TAIL;
  }
}
