/** Strings cut at a separator, and whole numbers written out and read back. */
module ReasonText {
  import opened Wrappers

  const U64_MAX: nat := 0xFFFF_FFFF_FFFF_FFFF

  type U64 = n: nat | n <= U64_MAX

  datatype Split = Split(before: string, after: string)

  predicate StartsWith(s: string, prefix: string) {
    |s| >= |prefix| && s[..|prefix|] == prefix
  }

  function StripPrefix(s: string, prefix: string): Option<string> {
    if StartsWith(s, prefix) then Some(s[|prefix|..]) else None
  }

  /** What stands before and after the first `separator`. */
  function SplitOnce(s: string, separator: string): Option<Split> {
    if StartsWith(s, separator) then Some(Split("", s[|separator|..]))
    else if s == "" then None
    else
      match SplitOnce(s[1..], separator)
      case Some(split) => Some(Split([s[0]] + split.before, split.after))
      case None => None
  }

  lemma {:induction false} SplitJoins(s: string, separator: string)
    requires SplitOnce(s, separator).Some?
    ensures var split := SplitOnce(s, separator).value; s == split.before + separator + split.after
  {
    if !StartsWith(s, separator) {
      SplitJoins(s[1..], separator);
      assert s == [s[0]] + s[1..];
    }
  }

  /** A string is cut where the separator's first character comes first. */
  lemma {:induction false} JoinSplits(before: string, separator: string, after: string)
    requires separator != "" && separator[0] !in before
    ensures SplitOnce(before + separator + after, separator) == Some(Split(before, after))
  {
    var s := before + separator + after;
    if before == "" {
      assert s == separator + after;
    } else {
      assert s[0] == before[0];
      assert s[1..] == before[1..] + separator + after;
      JoinSplits(before[1..], separator, after);
      assert [s[0]] + before[1..] == before;
    }
  }

  lemma {:induction false} NothingToSplit(s: string, separator: string)
    requires separator != "" && separator[0] !in s
    ensures SplitOnce(s, separator).None?
  {
    if s != "" {
      NothingToSplit(s[1..], separator);
    }
  }

  // ---------------------------------------------------------------- whole numbers

  predicate IsDigit(c: char) {
    '0' <= c <= '9'
  }

  function Digit(n: nat): (c: char)
    requires n < 10
    ensures IsDigit(c) && c as int - '0' as int == n
  {
    (n + '0' as int) as char
  }

  function PrintNumber(n: nat): (s: string)
    ensures s != "" && forall c <- s :: IsDigit(c)
  {
    if n < 10 then [Digit(n)] else PrintNumber(n / 10) + [Digit(n % 10)]
  }

  function Value(digits: string): nat
    requires forall c <- digits :: IsDigit(c)
  {
    if digits == "" then 0
    else
      assert IsDigit(digits[|digits| - 1]);
      10 * Value(digits[..|digits| - 1]) + (digits[|digits| - 1] as int - '0' as int)
  }

  /** A number of 64 bits: digits, with a plus sign in front of them or not, that say no more than it holds. */
  function ParseNumber(s: string): Option<U64> {
    var digits := if StartsWith(s, "+") then s[1..] else s;
    if digits != "" && (forall c <- digits :: IsDigit(c)) && Value(digits) <= U64_MAX then Some(Value(digits)) else None
  }

  lemma {:induction false} ValueOfPrint(n: nat)
    ensures Value(PrintNumber(n)) == n
  {
    if n >= 10 {
      ValueOfPrint(n / 10);
      assert PrintNumber(n)[..|PrintNumber(n)| - 1] == PrintNumber(n / 10);
    } else {
      assert PrintNumber(n)[..0] == "";
    }
  }

  lemma NumberRoundTrip(n: U64)
    ensures ParseNumber(PrintNumber(n)) == Some(n)
  {
    ValueOfPrint(n);
    assert IsDigit(PrintNumber(n)[0]);
  }

  function Zeros(k: nat): string {
    seq(k, _ => '0')
  }

  /** A string is a number: it is printed, with any zeros in front, and a plus sign before them or not. */
  ghost predicate Spells(s: string, n: nat) {
    exists k: nat :: s == Zeros(k) + PrintNumber(n) || s == "+" + Zeros(k) + PrintNumber(n)
  }

  lemma {:induction false} ValueBehindZero(digits: string)
    requires forall c <- digits :: IsDigit(c)
    ensures Value("0" + digits) == Value(digits)
  {
    if digits == "" {
      assert "0"[..0] == "";
    } else {
      var last := |digits| - 1;
      ValueBehindZero(digits[..last]);
      assert ("0" + digits)[..last + 1] == "0" + digits[..last];
      assert IsDigit(digits[last]);
    }
  }

  lemma {:induction false} ValueBehindZeros(k: nat, digits: string)
    requires forall c <- digits :: IsDigit(c)
    ensures forall c <- Zeros(k) + digits :: IsDigit(c)
    ensures Value(Zeros(k) + digits) == Value(digits)
  {
    if k == 0 {
      assert Zeros(0) + digits == digits;
    } else {
      ValueBehindZeros(k - 1, digits);
      ValueBehindZero(Zeros(k - 1) + digits);
      assert Zeros(k) + digits == "0" + (Zeros(k - 1) + digits);
    }
  }

  lemma {:induction false} DigitsSpell(digits: string) returns (k: nat)
    requires digits != "" && forall c <- digits :: IsDigit(c)
    ensures digits == Zeros(k) + PrintNumber(Value(digits))
  {
    if digits[0] == '0' && |digits| > 1 {
      var before := DigitsSpell(digits[1..]);
      k := before + 1;
      assert digits == "0" + digits[1..];
      ValueBehindZero(digits[1..]);
      assert Zeros(k) == "0" + Zeros(before);
    } else {
      k := 0;
      PlainDigitsPrint(digits);
      assert Zeros(0) + digits == digits;
    }
  }

  /** For every string: it is read as a number exactly when it spells one that 64 bits hold, and then as that one. */
  lemma NumberIff(s: string, n: nat)
    ensures ParseNumber(s) == Some(n) <==> Spells(s, n) && n <= 18_446_744_073_709_551_615
  {
    if ParseNumber(s) == Some(n) {
      var digits := if StartsWith(s, "+") then s[1..] else s;
      var k := DigitsSpell(digits);
      if StartsWith(s, "+") {
        assert s == "+" + digits;
        assert s == "+" + Zeros(k) + PrintNumber(n);
      }
    }
    if Spells(s, n) {
      var k: nat :| s == Zeros(k) + PrintNumber(n) || s == "+" + Zeros(k) + PrintNumber(n);
      SpelledIsRead(s, k, n);
    }
  }

  lemma SpelledIsRead(s: string, k: nat, n: nat)
    requires s == Zeros(k) + PrintNumber(n) || s == "+" + Zeros(k) + PrintNumber(n)
    ensures ParseNumber(s) == if n <= U64_MAX then Some(n) else None
  {
    var digits := Zeros(k) + PrintNumber(n);
    ValueBehindZeros(k, PrintNumber(n));
    ValueOfPrint(n);
    assert IsDigit(digits[0]);
    assert "+" + Zeros(k) + PrintNumber(n) == "+" + digits && ("+" + digits)[1..] == digits;
    hide Value, PrintNumber;
  }

  /** What is read as a number is digits and a plus sign: nothing else stands in it. */
  lemma NumberHasNo(s: string, c: char)
    requires ParseNumber(s).Some? && !IsDigit(c) && c != '+'
    ensures c !in s
  {
  }

  /** A number is printed back as it stood exactly when it has no plus sign and no zero in front. */
  predicate IsPlain(s: string) {
    ParseNumber(s).Some? && s[0] != '+' && (s[0] == '0' ==> |s| == 1)
  }

  lemma OneDigitPrints(digits: string)
    requires |digits| == 1 && (forall c <- digits :: IsDigit(c))
    ensures PrintNumber(Value(digits)) == digits
    ensures digits[0] != '0' ==> Value(digits) > 0
  {
    assert digits[..0] == "" && IsDigit(digits[0]);
    assert Value(digits) == digits[0] as int - '0' as int;
    assert digits == [Digit(Value(digits))];
  }

  lemma {:induction false} PlainDigitsPrint(digits: string)
    requires digits != "" && (forall c <- digits :: IsDigit(c)) && (digits[0] == '0' ==> |digits| == 1)
    ensures PrintNumber(Value(digits)) == digits
    ensures digits[0] != '0' ==> Value(digits) > 0
  {
    var last := |digits| - 1;
    if last == 0 {
      OneDigitPrints(digits);
    } else {
      var before, value := digits[..last], Value(digits);
      PlainDigitsPrint(before);
      assert IsDigit(digits[last]);
      assert value == 10 * Value(before) + (digits[last] as int - '0' as int);
      hide Value;
      assert PrintNumber(value) == before + [Digit(value % 10)];
      assert digits == before + [digits[last]];
    }
  }

  lemma {:induction false} PrintIsPlain(n: nat)
    ensures PrintNumber(n)[0] == '0' ==> |PrintNumber(n)| == 1 && n == 0
  {
    if n >= 10 {
      PrintIsPlain(n / 10);
    }
  }

  lemma PlainIff(s: string)
    requires ParseNumber(s).Some?
    ensures PrintNumber(ParseNumber(s).value) == s <==> IsPlain(s)
  {
    var n := ParseNumber(s).value;
    if IsPlain(s) {
      assert !StartsWith(s, "+");
      PlainDigitsPrint(s);
    }
    if PrintNumber(n) == s {
      PrintIsPlain(n);
      assert IsDigit(s[0]);
    }
  }
}
