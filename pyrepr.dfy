/** The literal form the whitespace field is written in: what
    `gap.__repr__().strip("'")` yields for the characters that occur between
    tokens. Backslash, tab, newline and carriage return get their two-character
    escapes, the other ASCII and Latin-1 control characters (and the soft
    hyphen and non-breaking space, which Python does not count as printable)
    become `\xhh` with lower-case hex digits, and everything else stays as it
    is. `Unescape` reads the literal back; EscapeRoundTrip shows that no gap
    is lost in the rendering. */
module PyRepr {

  function HexChar(d: nat): (c: char)
    requires d < 16
  {
    if d < 10 then ('0' as int + d) as char else ('a' as int + d - 10) as char
  }

  predicate IsHexChar(c: char) {
    ('0' <= c <= '9') || ('a' <= c <= 'f')
  }

  function HexValue(c: char): (d: nat)
    requires IsHexChar(c)
    ensures d < 16
  {
    if '0' <= c <= '9' then c as int - '0' as int else c as int - 'a' as int + 10
  }

  /** Characters that Python's `repr` writes as `\xhh`. */
  predicate HexEscaped(c: char) {
    (c < ' ' && c != '\t' && c != '\n' && c != '\r') || ('\U{7F}' <= c <= '\U{A0}') || c == '\U{AD}'
  }

  function EscapeChar(c: char): (r: string)
    ensures 1 <= |r| <= 4
  {
    if c == '\\' then "\\\\"
    else if c == '\t' then "\\t"
    else if c == '\n' then "\\n"
    else if c == '\r' then "\\r"
    else if HexEscaped(c) then "\\x" + [HexChar(c as int / 16), HexChar(c as int % 16)]
    else [c]
  }

  /** The repr body of a string, without the surrounding quotes. */
  function Escape(s: string): (r: string)
    ensures |s| <= |r| <= 4 * |s|
  {
    if |s| == 0 then "" else EscapeChar(s[0]) + Escape(s[1..])
  }

  /** Reads an escaped literal back into the characters it stands for. A
      backslash that starts no known escape is kept as it is. */
  function Unescape(s: string): string
    decreases |s|
  {
    if |s| == 0 then ""
    else if s[0] == '\\' && |s| >= 2 && s[1] in "\\tnr" then
      [if s[1] == '\\' then '\\' else if s[1] == 't' then '\t' else if s[1] == 'n' then '\n' else '\r']
      + Unescape(s[2..])
    else if s[0] == '\\' && |s| >= 4 && s[1] == 'x' && IsHexChar(s[2]) && IsHexChar(s[3]) then
      [(HexValue(s[2]) * 16 + HexValue(s[3])) as char] + Unescape(s[4..])
    else [s[0]] + Unescape(s[1..])
  }

  lemma HexCharValue(d: nat)
    requires d < 16
    ensures IsHexChar(HexChar(d)) && HexValue(HexChar(d)) == d
  {
  }

  /** Unescaping the escape of one character, followed by anything, gives
      that character back followed by the unescape of the rest. */
  lemma UnescapeStep(c: char, rest: string)
    ensures Unescape(EscapeChar(c) + rest) == [c] + Unescape(rest)
  {
    var e := EscapeChar(c) + rest;
    if c == '\\' || c == '\t' || c == '\n' || c == '\r' {
      assert e[2..] == rest;
    } else if HexEscaped(c) {
      HexCharValue(c as int / 16);
      HexCharValue(c as int % 16);
      assert e[4..] == rest;
    } else {
      assert e[1..] == rest;
    }
  }

  /** No information is lost in the literal: `Unescape(Escape(s)) == s`. */
  lemma {:induction false} EscapeRoundTrip(s: string)
    ensures Unescape(Escape(s)) == s
  {
    if |s| > 0 {
      UnescapeStep(s[0], Escape(s[1..]));
      EscapeRoundTrip(s[1..]);
      assert s == [s[0]] + s[1..];
    }
  }

  /** The escaped literal holds neither raw tabs nor raw newlines, so a
      row that carries it stays one line with its own field boundaries. */
  lemma {:induction false} EscapeHasNoTabOrNewline(s: string)
    ensures '\t' !in Escape(s) && '\n' !in Escape(s)
  {
    if |s| > 0 {
      EscapeHasNoTabOrNewline(s[1..]);
      assert '\t' !in EscapeChar(s[0]) && '\n' !in EscapeChar(s[0]) by {
        if HexEscaped(s[0]) && !(s[0] == '\\' || s[0] == '\t' || s[0] == '\n' || s[0] == '\r') {
          var h := "\\x" + [HexChar(s[0] as int / 16), HexChar(s[0] as int % 16)];
          assert forall i :: 0 <= i < 4 ==> h[i] != '\t' && h[i] != '\n';
        }
      }
    }
  }
}
