/**
  Lock TTL text. One crate validates it when a spec is written, another reads it
  when a run starts; the two readers are written differently.
 */
module LockTtl {
  import opened Wrappers
  import opened Text

  /** Seconds. */
  type Duration = int

  const MINUTE: Duration := 60
  const HOUR: Duration := 3600
  const DEFAULT_TTL: Duration := 30 * MINUTE
  const IMMEDIATE_DEFAULT_LOCK_TTL := "6h"

  /** The longest duration the clock library holds, either way: 2^63 - 1 milliseconds. */
  const MAX_DURATION: Duration := 0x7FFF_FFFF_FFFF_FFFF / 1000

  predicate Fits(d: Duration) {
    -MAX_DURATION <= d <= MAX_DURATION
  }

  /** What reading a TTL comes to; a number too long for a duration panics. */
  datatype Reading = Length(d: Duration) | Invalid | Panics

  function Times(n: Option<int>, unit: Duration): Reading {
    if n.None? then Invalid else if Fits(n.value * unit) then Length(n.value * unit) else Panics
  }

  /** The run-time reader: strip the unit, trim, parse. */
  function ParseLockTtl(s: string): Reading {
    if s == "" then Invalid
    else if s[|s| - 1] == 'm' then Times(ParseI64(Trim(s[..|s| - 1])), MINUTE)
    else if s[|s| - 1] == 'h' then Times(ParseI64(Trim(s[..|s| - 1])), HOUR)
    else Invalid
  }

  /** The write-time validator: split off the last character, parse without trimming. */
  predicate ValidateLockTtl(s: string) {
    s != "" && s[|s| - 1] in {'m', 'h'} && ParseI64(s[..|s| - 1]).Some?
  }

  /** The TTL a run applies for the stored column; None when reading it panics. */
  function EffectiveTtl(stored: Option<string>): Option<Duration> {
    match ParseLockTtl(stored.GetOr("30m"))
    case Length(d) => Some(d)
    case Invalid => Some(DEFAULT_TTL)
    case Panics => None
  }

  /** With no text, or text that is no TTL, half an hour. */
  lemma DefaultIsHalfAnHour(s: string)
    ensures EffectiveTtl(None) == Some(1800)
    ensures ParseLockTtl(s).Invalid? ==> EffectiveTtl(Some(s)) == Some(1800)
  {
    DecimalReads(30);
    assert Decimal(30) == "30" && "30m"[..2] == "30";
    TrimIdentity("30");
  }

  /** Minutes and hours, for every number; the longest length is that of the largest count of milliseconds. */
  lemma MinutesAndHours(n: int)
    requires I64_MIN <= n <= I64_MAX
    ensures EffectiveTtl(Some(Decimal(n) + "m")) ==
            if -9223372036854775 <= n * 60 <= 9223372036854775 then Some(n * 60) else None
    ensures EffectiveTtl(Some(Decimal(n) + "h")) ==
            if -9223372036854775 <= n * 3600 <= 9223372036854775 then Some(n * 3600) else None
    ensures ValidateLockTtl(Decimal(n) + "m") && ValidateLockTtl(Decimal(n) + "h")
  {
    DecimalReads(n);
    ParseI64Trimmed(Decimal(n));
    assert (Decimal(n) + "m")[..|Decimal(n)|] == Decimal(n) && (Decimal(n) + "h")[..|Decimal(n)|] == Decimal(n);
  }

  /** What is refused: nothing, no number, no unit, another unit. */
  lemma RefusedTtls(s: string)
    ensures !ValidateLockTtl("") && !ValidateLockTtl("m") && !ValidateLockTtl("5") && !ValidateLockTtl("5s")
    ensures ValidateLockTtl(s) ==> s[|s| - 1] == 'm' || s[|s| - 1] == 'h'
  {
    assert "m"[..0] == "" && "5s"[1] == 's';
  }

  /** The length a validated text spells out, read without trimming. */
  function SpelledTtl(s: string): Duration
    requires ValidateLockTtl(s)
  {
    ParseI64(s[..|s| - 1]).value * (if s[|s| - 1] == 'm' then MINUTE else HOUR)
  }

  /**
    Text that passed the validator is applied as spelled exactly if the length fits a
    duration, and panics otherwise; the 30-minute fallback is never used for it.
   */
  lemma ValidatedTtlIsApplied(s: string)
    requires ValidateLockTtl(s)
    ensures EffectiveTtl(Some(s)) == if Fits(SpelledTtl(s)) then Some(SpelledTtl(s)) else None
  {
    ParseI64Trimmed(s[..|s| - 1]);
  }

  function Pow10(k: nat): nat {
    if k == 0 then 1 else 10 * Pow10(k - 1)
  }

  lemma {:induction false} DigitsBounds(s: string)
    requires AllDigits(s) && s != "" && s[0] != '0'
    ensures Pow10(|s| - 1) <= Digits(s) < Pow10(|s|)
  {
    if |s| > 1 {
      DigitsBounds(s[..|s| - 1]);
    } else {
      assert s[..0] == "";
    }
  }

  /** The validator does accept lengths that do not fit: every number of 14 to 18 digits, in hours. */
  lemma ValidatorAdmitsTooLong(digits: string)
    requires AllDigits(digits) && 14 <= |digits| <= 18 && digits[0] != '0'
    ensures ValidateLockTtl(digits + "h") && EffectiveTtl(Some(digits + "h")) == None
  {
    var s := digits + "h";
    assert s[..|s| - 1] == digits;
    DigitsBounds(digits);
    PowersOfTen(|digits|);
    ValidatedTtlIsApplied(s);
  }

  lemma PowersOfTen(k: nat)
    requires 14 <= k <= 18
    ensures Pow10(k - 1) * HOUR > MAX_DURATION && Pow10(k) <= I64_MAX
  {
    assert Pow10(13) == 10_000_000_000_000;
    assert Pow10(14) == 10 * Pow10(13) && Pow10(15) == 10 * Pow10(14) && Pow10(16) == 10 * Pow10(15);
    assert Pow10(17) == 10 * Pow10(16) && Pow10(18) == 10 * Pow10(17);
  }

  /** The reader accepts more than the validator: the difference is exactly the padded numbers, such as " 5m". */
  lemma ReaderAcceptsPaddedNumbers(s: string)
    requires !ParseLockTtl(s).Invalid?
    ensures ValidateLockTtl(s) <==> Trim(s[..|s| - 1]) == s[..|s| - 1]
    ensures ParseLockTtl(" 5m") == Length(5 * MINUTE) && !ValidateLockTtl(" 5m")
  {
    var number := s[..|s| - 1];
    if ParseI64(number).Some? {
      ParseI64Trimmed(number);
    }
    assert " 5m"[..2] == " 5";
    assert TrimStart(" 5") == "5" by { assert " 5"[1..] == "5"; }
    TrimIdentity("5");
    assert AllDigits("5");
    assert Digits("5") == 5 by { assert "5"[..0] == ""; }
    assert !AllDigits(" 5") by { assert !IsDigit(" 5"[0]); }
  }
}
