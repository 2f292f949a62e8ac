/**
  Escaping for double-quoted YAML scalars, and reading such a scalar back out of
  the text it stands in (YAML 1.2.2, sections 5.1, 5.4, 5.7 and 7.3.1, for the three
  escapes used).
 */
module YamlEscape {
  import opened Wrappers

  /** Replaces every occurrence of one character. */
  function Replace(s: string, c: char, sub: string): string {
    if s == "" then "" else (if s[0] == c then sub else [s[0]]) + Replace(s[1..], c, sub)
  }

  /** Backslash first, then quote, then newline. */
  function YamlEscape(s: string): string {
    Replace(Replace(Replace(s, '\\', "\\\\"), '"', "\\\""), '\n', "\\n")
  }

  function EscapeChar(c: char): string {
    if c == '\\' then "\\\\" else if c == '"' then "\\\"" else if c == '\n' then "\\n" else [c]
  }

  /** The one-pass design. */
  function EscapeEach(s: string): string {
    if s == "" then "" else EscapeChar(s[0]) + EscapeEach(s[1..])
  }

  /** A character that stands for itself in a double-quoted scalar: a tab, or anything from space up (nb-json). */
  predicate StandsForItself(c: char) {
    c == '\t' || c >= ' '
  }

  /**
    Reads a double-quoted scalar from just after its opening quote: the value, and
    what follows the closing quote. A line break (LF or CR), any other control
    character but tab, and an unknown escape are refused.
   */
  function ReadScalar(t: string): Option<(string, string)> {
    if t == "" || !StandsForItself(t[0]) then None
    else if t[0] == '"' then Some(("", t[1..]))
    else if t[0] != '\\' then Prepend(t[0], ReadScalar(t[1..]))
    else if |t| == 1 then None
    else if t[1] == '\\' then Prepend('\\', ReadScalar(t[2..]))
    else if t[1] == '"' then Prepend('"', ReadScalar(t[2..]))
    else if t[1] == 'n' then Prepend('\n', ReadScalar(t[2..]))
    else None
  }

  function Prepend(c: char, r: Option<(string, string)>): Option<(string, string)> {
    match r
    case None => None
    case Some((v, rest)) => Some(([c] + v, rest))
  }

  lemma {:induction false} ReplaceConcat(a: string, b: string, c: char, sub: string)
    ensures Replace(a + b, c, sub) == Replace(a, c, sub) + Replace(b, c, sub)
  {
    if a == "" {
      assert a + b == b;
    } else {
      assert (a + b)[1..] == a[1..] + b;
      ReplaceConcat(a[1..], b, c, sub);
    }
  }

  lemma EscapeOneChar(c: char)
    ensures YamlEscape([c]) == EscapeChar(c)
  {
    forall s: string, d: char, sub: string | |s| == 1
      ensures Replace(s, d, sub) == if s[0] == d then sub else s
    {
      assert Replace(s[1..], d, sub) == "";
    }
    if c == '\\' {
      ReplaceConcat("\\", "\\", '"', "\\\"");
      ReplaceConcat("\\", "\\", '\n', "\\n");
      assert "\\" + "\\" == "\\\\";
    } else if c == '"' {
      ReplaceConcat("\\", "\"", '\n', "\\n");
      assert "\\" + "\"" == "\\\"";
    }
  }

  /** The three passes do not disturb each other: together they are one map over the characters. */
  lemma {:induction false} ThreePassesAreOneMap(s: string)
    ensures YamlEscape(s) == EscapeEach(s)
  {
    if s != "" {
      var a, b := [s[0]], s[1..];
      assert s == a + b;
      ReplaceConcat(a, b, '\\', "\\\\");
      ReplaceConcat(Replace(a, '\\', "\\\\"), Replace(b, '\\', "\\\\"), '"', "\\\"");
      ReplaceConcat(Replace(Replace(a, '\\', "\\\\"), '"', "\\\""), Replace(Replace(b, '\\', "\\\\"), '"', "\\\""), '\n', "\\n");
      EscapeOneChar(s[0]);
      ThreePassesAreOneMap(b);
    }
  }

  /** Escaped text holds no raw line feed. */
  lemma {:induction false} NoRawLineFeed(s: string)
    ensures '\n' !in EscapeEach(s)
  {
    if s != "" {
      NoRawLineFeed(s[1..]);
    }
  }

  /** The texts the three escapes are enough for: those without control characters other than LF and tab. */
  predicate Writable(s: string) {
    forall i :: 0 <= i < |s| ==> s[i] == '\n' || StandsForItself(s[i])
  }

  /** Reading one escaped character and then the rest. */
  lemma OneCharReadsBack(c: char, tail: string)
    ensures ReadScalar(EscapeChar(c) + tail) ==
            if c == '\n' || StandsForItself(c) then Prepend(c, ReadScalar(tail)) else None
  {
    var t := EscapeChar(c) + tail;
    assert t[|EscapeChar(c)|..] == tail;
  }

  lemma {:induction false} EachReadsBackIff(s: string, rest: string)
    ensures ReadScalar(EscapeEach(s) + "\"" + rest) == if Writable(s) then Some((s, rest)) else None
  {
    if s == "" {
      assert (EscapeEach(s) + "\"" + rest)[1..] == rest;
    } else {
      EachReadsBackIff(s[1..], rest);
      var tail := EscapeEach(s[1..]) + "\"" + rest;
      OneCharReadsBack(s[0], tail);
      assert EscapeEach(s) + "\"" + rest == EscapeChar(s[0]) + tail;
      assert s == [s[0]] + s[1..];
      assert Writable(s) <==> (s[0] == '\n' || StandsForItself(s[0])) && Writable(s[1..]) by {
        forall i | 0 < i < |s| ensures s[i] == s[1..][i - 1] {
        }
      }
    }
  }

  /**
    Whatever follows, the scalar ends at the closing quote the program wrote and reads
    back as the original exactly if the text has no control character but LF and tab;
    any other text makes it unreadable.
   */
  lemma EscapedScalarReadsBackIff(s: string, rest: string)
    ensures ReadScalar(YamlEscape(s) + "\"" + rest) == Some((s, rest)) <==> Writable(s)
    ensures !Writable(s) ==> ReadScalar(YamlEscape(s) + "\"" + rest) == None
    ensures '\n' !in YamlEscape(s)
  {
    ThreePassesAreOneMap(s);
    EachReadsBackIff(s, rest);
    NoRawLineFeed(s);
  }

  /** A carriage return is such a character: it is a line break to YAML, and passes the escape unchanged. */
  lemma CarriageReturnIsLost(rest: string)
    ensures YamlEscape("a\rb") == "a\rb"
    ensures ReadScalar(YamlEscape("a\rb") + "\"" + rest) == None
  {
    ThreePassesAreOneMap("a\rb");
    assert "a\rb"[1..] == "\rb" && "\rb"[1..] == "b" && "b"[1..] == "";
    assert EscapeEach("a\rb") == EscapeChar('a') + (EscapeChar('\r') + (EscapeChar('b') + ""));
    assert "a\rb"[1] == '\r' && !StandsForItself('\r');
    EscapedScalarReadsBackIff("a\rb", rest);
  }

  /** The order of the passes matters: with quotes first, the backslashes they add are escaped again. */
  lemma QuoteFirstWouldBreak()
    ensures var wrong := Replace(Replace("\"", '"', "\\\""), '\\', "\\\\");
            ReadScalar(wrong + "\"") != Some(("\"", ""))
  {
  }
}
