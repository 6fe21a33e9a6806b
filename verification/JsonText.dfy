/** JSON string literals as `json.dumps(text, ensure_ascii=False)` writes them (RFC 8259, section 7). */
module JsonText {

  function HexLower(d: nat): char
    requires d < 16
  {
    "0123456789abcdef"[d]
  }

  const BACKSPACE := '\U{8}'
  const FORM_FEED := '\U{c}'

  /** One character of a string literal. */
  function Escape(c: char): string {
    if c == '"' then "\\\""
    else if c == '\\' then "\\\\"
    else if c == '\n' then "\\n"
    else if c == '\r' then "\\r"
    else if c == '\t' then "\\t"
    else if c == FORM_FEED then "\\f"
    else if c == BACKSPACE then "\\b"
    else if c < ' ' then "\\u00" + [HexLower(c as int / 16), HexLower(c as int % 16)]
    else [c]
  }

  function EscapeAll(s: string): string {
    if s == "" then "" else Escape(s[0]) + EscapeAll(s[1..])
  }

  function Quote(s: string): string { "\"" + EscapeAll(s) + "\"" }

  function HexValue(c: char): int {
    if '0' <= c <= '9' then c as int - '0' as int else c as int - 'a' as int + 10
  }

  /** The character a literal's text starts with, undoing `Escape`. */
  function FirstChar(text: string): int {
    if |text| == 0 || text[0] != '\\' then (if text == "" then 0 else text[0] as int)
    else if |text| < 2 then 0
    else if text[1] == 'n' then '\n' as int
    else if text[1] == 'r' then '\r' as int
    else if text[1] == 't' then '\t' as int
    else if text[1] == 'f' then FORM_FEED as int
    else if text[1] == 'b' then BACKSPACE as int
    else if text[1] == 'u' && |text| >= 6 then 16 * HexValue(text[4]) + HexValue(text[5])
    else text[1] as int
  }

  lemma HexRoundTrip(d: nat)
    requires d < 16
    ensures HexValue(HexLower(d)) == d
  {
  }

  lemma FirstCharOfEscape(c: char, rest: string)
    ensures FirstChar(Escape(c) + rest) == c as int
    ensures Escape(c) != "" && Escape(c)[0] != '"'
    ensures forall x <- Escape(c) :: x >= ' '
  {
    var text := Escape(c) + rest;
    if c < ' ' && |Escape(c)| == 6 {
      HexRoundTrip(c as int / 16);
      HexRoundTrip(c as int % 16);
      assert text[4] == HexLower(c as int / 16) && text[5] == HexLower(c as int % 16);
    }
  }

  /** Each character's escape is recognised whatever follows. */
  lemma EscapeDelimited(c: char, d: char, x: string, y: string)
    requires Escape(c) + x == Escape(d) + y
    ensures c == d && x == y
  {
    FirstCharOfEscape(c, x);
    FirstCharOfEscape(d, y);
    assert c as int == d as int;
    assert (Escape(c) + x)[|Escape(c)|..] == x && (Escape(d) + y)[|Escape(c)|..] == y;
  }

  /** The body of a literal with its closing quote and whatever follows. */
  function Body(s: string, rest: string): string { EscapeAll(s) + "\"" + rest }

  lemma BodyUnfold(s: string, rest: string)
    ensures s == "" ==> Body(s, rest) == "\"" + rest
    ensures s != "" ==> Body(s, rest) == Escape(s[0]) + Body(s[1..], rest)
    ensures Body(s, rest) != "" && (Body(s, rest)[0] == '"' <==> s == "")
  {
    if s == "" {
      assert Body(s, rest) == "\"" + rest;
    } else {
      var first, more := Escape(s[0]), EscapeAll(s[1..]);
      assert (first + more) + "\"" + rest == first + (more + "\"" + rest);
      FirstCharOfEscape(s[0], Body(s[1..], rest));
      assert (first + Body(s[1..], rest))[0] == first[0];
    }
  }

  /** The body of a literal ends at its first unescaped quote. */
  lemma {:induction false} BodyDelimited(s: string, t: string, x: string, y: string)
    requires Body(s, x) == Body(t, y)
    ensures s == t && x == y
  {
    BodyUnfold(s, x);
    BodyUnfold(t, y);
    if s == "" {
      assert ("\"" + x)[1..] == x && ("\"" + y)[1..] == y;
    } else {
      EscapeDelimited(s[0], t[0], Body(s[1..], x), Body(t[1..], y));
      BodyDelimited(s[1..], t[1..], x, y);
      assert s == [s[0]] + s[1..] && t == [t[0]] + t[1..];
    }
  }

  /** A literal is read back whatever follows it. */
  lemma QuoteDelimited(s: string, t: string, x: string, y: string)
    requires Quote(s) + x == Quote(t) + y
    ensures s == t && x == y
  {
    assert (Quote(s) + x)[1..] == Body(s, x) && (Quote(t) + y)[1..] == Body(t, y);
    BodyDelimited(s, t, x, y);
  }

  lemma QuoteInjective(s: string, t: string)
    requires Quote(s) == Quote(t)
    ensures s == t
  {
    assert Quote(s) + "" == Quote(s) && Quote(t) + "" == Quote(t);
    QuoteDelimited(s, t, "", "");
  }
}
