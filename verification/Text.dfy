/** String helpers shared by the validators: trimming, 64-bit integer text and job names. */
module Text {
  import opened Wrappers

  predicate IsSpace(c: char) {
    c == ' ' || c == '\t' || c == '\n' || c == '\r' || c == '\U{000B}' || c == '\U{000C}'
  }

  predicate IsDigit(c: char) {
    '0' <= c <= '9'
  }

  function TrimStart(s: string): (r: string)
    ensures |r| <= |s|
    ensures s != "" && !IsSpace(s[0]) ==> r == s
    ensures r != "" ==> !IsSpace(r[0])
  {
    if s != "" && IsSpace(s[0]) then TrimStart(s[1..]) else s
  }

  function TrimEnd(s: string): (r: string)
    ensures r <= s
    ensures s != "" && !IsSpace(s[0]) ==> r != ""
  {
    if s != "" && IsSpace(s[|s| - 1]) then TrimEnd(s[..|s| - 1]) else s
  }

  function Trim(s: string): (r: string)
    ensures s != "" && !IsSpace(s[0]) ==> r != "" && r[0] == s[0]
  {
    TrimEnd(TrimStart(s))
  }

  const I64_MIN: int := -0x8000_0000_0000_0000
  const I64_MAX: int := 0x7FFF_FFFF_FFFF_FFFF

  predicate AllDigits(s: string) {
    forall i :: 0 <= i < |s| ==> IsDigit(s[i])
  }

  function Digits(s: string): nat
    requires AllDigits(s)
  {
    if s == "" then 0 else Digits(s[..|s| - 1]) * 10 + (s[|s| - 1] as int - '0' as int)
  }

  /** Signed decimal text as a 64-bit integer: an optional sign, at least one digit, in range. */
  function ParseI64(s: string): Option<int> {
    var negative := s != "" && s[0] == '-';
    var body := if s != "" && (s[0] == '-' || s[0] == '+') then s[1..] else s;
    if body == "" || !AllDigits(body) then None
    else
      var n := if negative then -(Digits(body) as int) else Digits(body);
      if I64_MIN <= n <= I64_MAX then Some(n) else None
  }

  /** A job name is lower-case alphanumeric with hyphens, not starting with a hyphen. */
  predicate ValidJobName(name: string) {
    name != "" && name[0] != '-'
    && forall i :: 0 <= i < |name| ==> 'a' <= name[i] <= 'z' || IsDigit(name[i]) || name[i] == '-'
  }

  /** Text that neither starts nor ends in white space is left alone. */
  lemma TrimIdentity(s: string)
    requires s == "" || (!IsSpace(s[0]) && !IsSpace(s[|s| - 1]))
    ensures Trim(s) == s
  {
  }

  /** Integer text never contains white space, so trimming accepts everything the strict reader does. */
  lemma ParseI64Trimmed(s: string)
    requires ParseI64(s).Some?
    ensures Trim(s) == s
  {
  }

  // ---------------------------------------------- what these functions come to

  predicate AllSpace(s: string) {
    forall i :: 0 <= i < |s| ==> s[i] in {' ', '\t', '\n', '\r', '\U{000B}', '\U{000C}'}
  }

  lemma {:induction false} TrimStartCuts(s: string) returns (left: string)
    ensures AllSpace(left) && s == left + TrimStart(s)
  {
    left := "";
    if s != "" && IsSpace(s[0]) {
      var rest := TrimStartCuts(s[1..]);
      left := [s[0]] + rest;
      assert s == [s[0]] + s[1..];
    }
  }

  lemma {:induction false} TrimEndCuts(s: string) returns (right: string)
    ensures AllSpace(right) && s == TrimEnd(s) + right
    ensures TrimEnd(s) != "" ==> !IsSpace(TrimEnd(s)[|TrimEnd(s)| - 1])
  {
    right := "";
    if s != "" && IsSpace(s[|s| - 1]) {
      var rest := TrimEndCuts(s[..|s| - 1]);
      right := rest + [s[|s| - 1]];
      assert s == s[..|s| - 1] + [s[|s| - 1]];
    }
  }

  /** Trimming takes off white space at both ends, all of it, and nothing else. */
  lemma TrimCutsSpace(s: string) returns (left: string, right: string)
    ensures AllSpace(left) && AllSpace(right) && s == left + Trim(s) + right
    ensures Trim(s) != "" ==> !AllSpace(Trim(s)[..1]) && !AllSpace(Trim(s)[|Trim(s)| - 1..])
  {
    left := TrimStartCuts(s);
    right := TrimEndCuts(TrimStart(s));
    var t := Trim(s);
    if t != "" {
      assert TrimStart(s)[0] == t[0];
      assert t[..1][0] == t[0] && t[|t| - 1..][0] == t[|t| - 1];
    }
  }

  /** The decimal text of a number. */
  function Decimal(n: int): string
    decreases if n < 0 then 1 - n else n
  {
    if n < 0 then "-" + Decimal(-n)
    else if n < 10 then [('0' as int + n) as char]
    else Decimal(n / 10) + [('0' as int + n % 10) as char]
  }

  lemma {:induction false} DecimalDigits(n: nat)
    ensures Decimal(n) != "" && AllDigits(Decimal(n)) && Digits(Decimal(n)) == n
  {
    if n < 10 {
      assert Decimal(n)[..0] == "";
    } else {
      DecimalDigits(n / 10);
      var d := Decimal(n);
      assert d[..|d| - 1] == Decimal(n / 10);
    }
  }

  /** Digits read as their number, within the range, and behind a minus sign as its negative. */
  lemma DigitsRead(body: string)
    requires body != "" && AllDigits(body)
    ensures ParseI64(body) == if Digits(body) <= I64_MAX then Some(Digits(body)) else None
    ensures ParseI64("-" + body) == if Digits(body) <= -I64_MIN then Some(-(Digits(body) as int)) else None
  {
    assert IsDigit(body[0]);
    assert ("-" + body)[1..] == body;
  }

  /** Every 64-bit number reads back from its decimal text. */
  lemma DecimalReads(n: int)
    ensures ParseI64(Decimal(n)) == if -0x8000_0000_0000_0000 <= n <= 0x7FFF_FFFF_FFFF_FFFF then Some(n) else None
  {
    var m := if n < 0 then -n else n;
    DecimalDigits(m);
    DigitsRead(Decimal(m));
  }

  predicate LowerOrDigit(c: char) {
    'a' <= c <= 'z' || '0' <= c <= '9'
  }

  /** A job name is a lower-case letter or digit, then any number of those and hyphens. */
  lemma JobNameIff(first: char, rest: string)
    ensures !ValidJobName("")
    ensures ValidJobName([first] + rest) <==> LowerOrDigit(first) && forall c :: c in rest ==> c == '-' || LowerOrDigit(c)
  {
    var name := [first] + rest;
    if ValidJobName(name) {
      assert name[0] == first;
      forall c | c in rest ensures c == '-' || LowerOrDigit(c) {
        var i :| 0 <= i < |rest| && rest[i] == c;
        assert name[i + 1] == c;
      }
    }
    if LowerOrDigit(first) && forall c :: c in rest ==> c == '-' || LowerOrDigit(c) {
      forall i | 0 <= i < |name| ensures 'a' <= name[i] <= 'z' || IsDigit(name[i]) || name[i] == '-' {
        assert i > 0 ==> name[i] == rest[i - 1] && rest[i - 1] in rest;
      }
    }
  }
}
