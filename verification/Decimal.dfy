/** Decimal strings: what they denote, and the digit-by-digit helpers of the Lua spend script. */
module Decimal {

  // ---------- Denotation ----------

  predicate IsDigit(c: char) {
    '0' <= c <= '9'
  }

  predicate Digits(s: string) {
    forall i | 0 <= i < |s| :: IsDigit(s[i])
  }

  /** A non-empty digit string without leading zeros: the only form `BigInt.toString` produces. */
  predicate Canonical(s: string) {
    |s| > 0 && Digits(s) && (|s| > 1 ==> s[0] != '0')
  }

  function DigitOf(c: char): (d: nat)
    requires IsDigit(c)
    ensures d < 10
  {
    c as int - '0' as int
  }

  function CharOf(d: nat): (c: char)
    requires d < 10
    ensures IsDigit(c) && DigitOf(c) == d
  {
    (d + '0' as int) as char
  }

  /** Everything but the last character. */
  function Front(s: string): string {
    if s == [] then [] else s[..|s| - 1]
  }

  function LastDigit(s: string): (d: nat)
    requires Digits(s)
    ensures d < 10
  {
    if s == [] then 0 else DigitOf(s[|s| - 1])
  }

  /** The number a digit string denotes. */
  function Value(s: string): nat
    requires Digits(s)
  {
    if s == [] then 0 else 10 * Value(Front(s)) + LastDigit(s)
  }

  lemma ValueSnoc(s: string, d: nat)
    requires Digits(s) && d < 10
    ensures Digits(s + [CharOf(d)]) && Value(s + [CharOf(d)]) == 10 * Value(s) + d
  {
    assert Front(s + [CharOf(d)]) == s;
  }

  /** The decimal form of a number. */
  function ToDecimal(n: nat): string {
    if n < 10 then [CharOf(n)] else ToDecimal(n / 10) + [CharOf(n % 10)]
  }

  function Pow10(n: nat): (p: nat)
    ensures p > 0
  {
    if n == 0 then 1 else 10 * Pow10(n - 1)
  }

  // ---------- Denotation and decimal form are inverse ----------

  lemma {:induction false} DecimalDenotes(n: nat)
    ensures Canonical(ToDecimal(n)) && Value(ToDecimal(n)) == n
    ensures n > 0 ==> ToDecimal(n)[0] != '0'
  {
    if n >= 10 {
      DecimalDenotes(n / 10);
      ValueSnoc(ToDecimal(n / 10), n % 10);
    }
  }

  lemma {:induction false} CanonicalIsDecimal(s: string)
    requires Canonical(s)
    ensures s == ToDecimal(Value(s))
  {
    var head := Front(s);
    assert s == head + [s[|s| - 1]];
    if |s| == 1 {
      assert Value(head) == 0;
      CharOfDigit(s[0]);
    } else {
      LeadingDigitPositive(head);
      CanonicalIsDecimal(head);
      CharOfDigit(s[|s| - 1]);
      DecimalSnoc(Value(head), LastDigit(s));
    }
  }

  lemma DecimalSnoc(n: nat, d: nat)
    requires n > 0 && d < 10
    ensures ToDecimal(10 * n + d) == ToDecimal(n) + [CharOf(d)]
  {
    assert (10 * n + d) / 10 == n && (10 * n + d) % 10 == d;
  }

  lemma CharOfDigit(c: char)
    requires IsDigit(c)
    ensures CharOf(DigitOf(c)) == c
  {
  }

  lemma {:induction false} LeadingDigitPositive(s: string)
    requires Digits(s) && s != [] && s[0] != '0'
    ensures Value(s) > 0
  {
    if |s| > 1 {
      LeadingDigitPositive(Front(s));
    }
  }

  lemma {:induction false} SameValueSameDigits(a: string, b: string)
    requires |a| == |b| && Digits(a) && Digits(b) && Value(a) == Value(b)
    ensures a == b
  {
    if a != [] {
      var n := |a| - 1;
      SameValueSameDigits(a[..n], b[..n]);
      CharOfDigit(a[n]);
      CharOfDigit(b[n]);
      assert a == a[..n] + [a[n]] && b == b[..n] + [b[n]];
    }
  }

  // ---------- str_gte ----------

  /** Byte order on strings of one length: the first difference decides. */
  predicate Precedes(a: string, b: string)
    requires |a| == |b|
  {
    a != [] &&
    var n := |a| - 1;
    Precedes(a[..n], b[..n]) || (a[..n] == b[..n] && a[n] < b[n])
  }

  predicate StrGte(a: string, b: string) {
    if |a| != |b| then |a| > |b| else !Precedes(a, b)
  }

  lemma {:induction false} PrecedesIsLess(a: string, b: string)
    requires |a| == |b| && Digits(a) && Digits(b)
    ensures Precedes(a, b) <==> Value(a) < Value(b)
  {
    if a != [] {
      var n := |a| - 1;
      PrecedesIsLess(a[..n], b[..n]);
      if Value(a[..n]) == Value(b[..n]) {
        SameValueSameDigits(a[..n], b[..n]);
      }
    }
  }

  /** A longer string without leading zeros denotes a larger number. */
  lemma {:induction false} LongerIsGreater(a: string, b: string)
    requires Digits(a) && Digits(b) && |a| > |b| > 0 && a[0] != '0'
    ensures Value(a) > Value(b)
  {
    var a', b' := Front(a), Front(b);
    if b' == [] {
      LeadingDigitPositive(a');
    } else {
      LongerIsGreater(a', b');
    }
  }

  /** `str_gte` decides the order of the numbers. */
  lemma StrGteDecides(a: string, b: string)
    requires Canonical(a) && Canonical(b)
    ensures StrGte(a, b) <==> Value(a) >= Value(b)
  {
    if |a| == |b| {
      PrecedesIsLess(a, b);
    } else if |a| > |b| {
      LongerIsGreater(a, b);
    } else {
      LongerIsGreater(b, a);
    }
  }

  // ---------- Columns ----------

  /** The digit of `s` in column `i`, counted from the right; 0 beyond its end. */
  function Column(s: string, i: nat): (d: nat)
    requires Digits(s)
    ensures d < 10
  {
    if i < |s| then DigitOf(s[|s| - i - 1]) else 0
  }

  /** The number made of column `i` and everything to its left. */
  function HighValue(s: string, i: nat): nat
    requires Digits(s)
    decreases |s| - i
  {
    if i >= |s| then 0 else 10 * HighValue(s, i + 1) + Column(s, i)
  }

  lemma {:induction false} HighValueIsValue(s: string, i: nat)
    requires Digits(s) && i <= |s|
    ensures HighValue(s, i) == Value(s[..|s| - i])
    decreases |s| - i
  {
    if i < |s| {
      HighValueIsValue(s, i + 1);
      assert Front(s[..|s| - i]) == s[..|s| - (i + 1)];
    }
  }

  lemma WholeValue(s: string)
    requires Digits(s)
    ensures HighValue(s, 0) == Value(s)
  {
    HighValueIsValue(s, 0);
    assert s[..|s|] == s;
  }

  // ---------- str_add ----------

  /** A column sum below 20 as a digit and a carry: `sum % 10` and `sum / 10`. */
  function SplitColumn(sum: nat): (r: (nat, nat))
    requires sum < 20
  {
    if sum < 10 then (sum, 0) else (sum - 10, 1)
  }

  /** The digits of the sum from column `i` upward, given the carry into that column. */
  function HighSum(a: string, b: string, i: nat, carry: nat): (r: string)
    requires Digits(a) && Digits(b) && carry <= 1
    ensures Digits(r)
    decreases |a| + |b| - i
  {
    if i >= |a| && i >= |b| then
      if carry > 0 then [CharOf(carry)] else []
    else
      var (digit, next) := SplitColumn(Column(a, i) + Column(b, i) + carry);
      HighSum(a, b, i + 1, next) + [CharOf(digit)]
  }

  lemma {:induction false} HighSumValue(a: string, b: string, i: nat, carry: nat)
    requires Digits(a) && Digits(b) && carry <= 1
    ensures Value(HighSum(a, b, i, carry)) == HighValue(a, i) + HighValue(b, i) + carry
    decreases |a| + |b| - i
  {
    if i >= |a| && i >= |b| {
      assert HighValue(a, i) == HighValue(b, i) == 0;
      ValueSnoc([], carry);
    } else {
      HighSumValue(a, b, i + 1, SplitColumn(Column(a, i) + Column(b, i) + carry).1);
      HighSumNext(a, b, i, carry);
      HighColumn(a, i);
      HighColumn(b, i);
    }
  }

  lemma HighSumNext(a: string, b: string, i: nat, carry: nat)
    requires Digits(a) && Digits(b) && carry <= 1 && (i < |a| || i < |b|)
    ensures var (digit, next) := SplitColumn(Column(a, i) + Column(b, i) + carry);
            Value(HighSum(a, b, i, carry)) == 10 * Value(HighSum(a, b, i + 1, next)) + digit
  {
    var (digit, next) := SplitColumn(Column(a, i) + Column(b, i) + carry);
    ValueSnoc(HighSum(a, b, i + 1, next), digit);
  }

  lemma HighColumn(s: string, i: nat)
    requires Digits(s)
    ensures HighValue(s, i) == 10 * HighValue(s, i + 1) + Column(s, i)
  {
  }

  /** A non-zero digit in the top column keeps the sum free of leading zeros. */
  lemma {:induction false} HighSumLeading(a: string, b: string, n: nat, i: nat, carry: nat)
    requires Digits(a) && Digits(b) && carry <= 1 && |a| <= n && |b| <= n && i < n
    requires Column(a, n - 1) + Column(b, n - 1) > 0
    ensures var r := HighSum(a, b, i, carry); r != [] && r[0] != '0'
    decreases n - i
  {
    if i + 1 < n {
      HighSumLeading(a, b, n, i + 1, SplitColumn(Column(a, i) + Column(b, i) + carry).1);
    }
  }

  lemma TopColumn(s: string)
    requires Canonical(s) && (|s| > 1 || s != "0")
    ensures Column(s, |s| - 1) > 0
  {
    if |s| == 1 {
      CharOfDigit(s[0]);
    }
  }

  lemma SumIsCanonical(a: string, b: string)
    requires Canonical(a) && Canonical(b)
    ensures Canonical(HighSum(a, b, 0, 0))
  {
    if a == b == "0" {
      assert Column(a, 0) == 0;
    } else {
      var n := if |a| >= |b| then |a| else |b|;
      if |a| == n && a != "0" {
        TopColumn(a);
      } else {
        TopColumn(b);
      }
      HighSumLeading(a, b, n, 0, 0);
    }
  }

  lemma SumIsDecimal(a: string, b: string)
    requires Canonical(a) && Canonical(b)
    ensures HighSum(a, b, 0, 0) == ToDecimal(Value(a) + Value(b))
  {
    SumDenotes(a, b);
    SumIsCanonical(a, b);
    CanonicalIsDecimal(HighSum(a, b, 0, 0));
  }

  lemma SumDenotes(a: string, b: string)
    requires Digits(a) && Digits(b)
    ensures Value(HighSum(a, b, 0, 0)) == Value(a) + Value(b)
  {
    HighSumValue(a, b, 0, 0);
    WholeValue(a);
    WholeValue(b);
  }

  /** Digits and carry after the first `i` columns. */
  function LowSum(a: string, b: string, i: nat): (r: (string, nat))
    requires Digits(a) && Digits(b)
    ensures r.1 <= 1
  {
    if i == 0 then
      ([], 0)
    else
      var (done, carry) := LowSum(a, b, i - 1);
      var (digit, next) := SplitColumn(Column(a, i - 1) + Column(b, i - 1) + carry);
      ([CharOf(digit)] + done, next)
  }

  /** The columns done so far and the columns still to come make up the whole sum. */
  lemma {:induction false} SumSplits(a: string, b: string, i: nat)
    requires Digits(a) && Digits(b) && (i <= |a| || i <= |b|)
    ensures HighSum(a, b, 0, 0) == HighSum(a, b, i, LowSum(a, b, i).1) + LowSum(a, b, i).0
  {
    if i > 0 {
      SumSplits(a, b, i - 1);
    }
  }

  /** `r` denotes the sum, and is its decimal form when `a` and `b` have no leading zeros. */
  ghost predicate IsSum(r: string, a: string, b: string)
    requires Digits(a) && Digits(b)
  {
    && Digits(r) && Value(r) == Value(a) + Value(b)
    && (Canonical(a) && Canonical(b) ==> r == ToDecimal(Value(a) + Value(b)))
  }

  lemma LowSumComplete(a: string, b: string, n: nat)
    requires Digits(a) && Digits(b) && n == (if |a| >= |b| then |a| else |b|)
    ensures var (done, carry) := LowSum(a, b, n);
            IsSum(if carry > 0 then [CharOf(carry)] + done else done, a, b)
  {
    var (done, carry) := LowSum(a, b, n);
    SumSplits(a, b, n);
    assert HighSum(a, b, 0, 0) == if carry > 0 then [CharOf(carry)] + done else done;
    SumDenotes(a, b);
    if Canonical(a) && Canonical(b) {
      SumIsDecimal(a, b);
    }
  }

  method StrAdd(a: string, b: string) returns (r: string)
    requires Digits(a) && Digits(b)
    ensures IsSum(r, a, b)
  {
    var result: string := [];
    var carry: nat := 0;
    var maxlen := if |a| >= |b| then |a| else |b|;
    for i := 0 to maxlen
      invariant (result, carry) == LowSum(a, b, i)
    {
      var sum := Column(a, i) + Column(b, i) + carry;
      carry := sum / 10;
      result := [CharOf(sum % 10)] + result;
    }
    LowSumComplete(a, b, maxlen);
    if carry > 0 {
      result := [CharOf(carry)] + result;
    }
    return result;
  }

  // ---------- str_sub ----------

  /** A column difference as a digit and a borrow. */
  function BorrowColumn(diff: int): (r: (nat, nat))
    requires -10 <= diff < 10
  {
    if diff < 0 then (diff + 10, 1) else (diff, 0)
  }

  /** The digits of the difference from column `i` of `a` upward, given the borrow, and the borrow left over. */
  function HighDifference(a: string, b: string, i: nat, borrow: nat): (r: (string, nat))
    requires Digits(a) && Digits(b) && borrow <= 1 && i <= |a|
    ensures Digits(r.0) && |r.0| == |a| - i && r.1 <= 1
    decreases |a| - i
  {
    if i == |a| then
      ([], borrow)
    else
      var (digit, next) := BorrowColumn(Column(a, i) - Column(b, i) - borrow);
      var (upper, left) := HighDifference(a, b, i + 1, next);
      (upper + [CharOf(digit)], left)
  }

  lemma {:induction false} HighDifferenceValue(a: string, b: string, i: nat, borrow: nat)
    requires Digits(a) && Digits(b) && borrow <= 1 && i <= |a| && |b| <= |a|
    ensures var (r, left) := HighDifference(a, b, i, borrow);
            Value(r) == HighValue(a, i) - HighValue(b, i) - borrow + if left == 1 then Pow10(|a| - i) else 0
    decreases |a| - i
  {
    if i < |a| {
      var (digit, next) := BorrowColumn(Column(a, i) - Column(b, i) - borrow);
      HighDifferenceValue(a, b, i + 1, next);
      ValueSnoc(HighDifference(a, b, i + 1, next).0, digit);
    }
  }

  lemma {:induction false} ValueBound(s: string)
    requires Digits(s)
    ensures Value(s) < Pow10(|s|)
  {
    if s != [] {
      ValueBound(Front(s));
    }
  }

  /** `s:gsub("^0+", "")`. */
  function StripZeros(s: string): string {
    if s != [] && s[0] == '0' then StripZeros(s[1..]) else s
  }

  lemma {:induction false} ZeroInFront(s: string)
    requires Digits(s)
    ensures Value(['0'] + s) == Value(s)
  {
    var t := ['0'] + s;
    if s == [] {
      assert Front(t) == [];
    } else {
      ZeroInFront(Front(s));
      assert Front(t) == ['0'] + Front(s);
    }
  }

  lemma {:induction false} StripZerosValue(s: string)
    requires Digits(s)
    ensures Digits(StripZeros(s)) && Value(StripZeros(s)) == Value(s)
    ensures StripZeros(s) != [] ==> StripZeros(s)[0] != '0'
  {
    if s != [] && s[0] == '0' {
      StripZerosValue(s[1..]);
      assert s == ['0'] + s[1..];
      ZeroInFront(s[1..]);
    }
  }

  /**
   * What subtraction leaves: the difference, and when `a` is too small the complement to the next power of ten,
   * which is how the unused last borrow shows.
   */
  function Difference(a: string, b: string): (d: int)
    requires Digits(a) && Digits(b)
  {
    var d := Value(a) - Value(b);
    if d >= 0 then d else d + Pow10(|a|)
  }

  lemma DifferenceDigits(a: string, b: string)
    requires Digits(a) && Digits(b) && |b| <= |a|
    ensures var (digits, left) := HighDifference(a, b, 0, 0);
            Value(digits) == Difference(a, b) && (left == 0 <==> Value(a) >= Value(b))
  {
    HighDifferenceValue(a, b, 0, 0);
    WholeValue(a);
    WholeValue(b);
    ValueBound(HighDifference(a, b, 0, 0).0);
  }

  lemma StrippedIsDecimal(s: string)
    requires Digits(s)
    ensures (if StripZeros(s) == "" then "0" else StripZeros(s)) == ToDecimal(Value(s))
  {
    StripZerosValue(s);
    if StripZeros(s) != "" {
      CanonicalIsDecimal(StripZeros(s));
    }
  }

  /** Digits and borrow after the first `i` columns. */
  function LowDifference(a: string, b: string, i: nat): (r: (string, nat))
    requires Digits(a) && Digits(b)
    ensures Digits(r.0) && r.1 <= 1
  {
    if i == 0 then
      ([], 0)
    else
      var (done, borrow) := LowDifference(a, b, i - 1);
      var (digit, next) := BorrowColumn(Column(a, i - 1) - Column(b, i - 1) - borrow);
      ([CharOf(digit)] + done, next)
  }

  lemma {:induction false} DifferenceSplits(a: string, b: string, i: nat)
    requires Digits(a) && Digits(b) && i <= |a|
    ensures var rest := HighDifference(a, b, i, LowDifference(a, b, i).1);
            && HighDifference(a, b, 0, 0).0 == rest.0 + LowDifference(a, b, i).0
            && HighDifference(a, b, 0, 0).1 == rest.1
  {
    if i > 0 {
      DifferenceSplits(a, b, i - 1);
    }
  }

  lemma NoColumnsLeft(a: string, b: string, borrow: nat)
    requires Digits(a) && Digits(b) && borrow <= 1
    ensures HighDifference(a, b, |a|, borrow) == ([], borrow)
  {
  }

  lemma LowDifferenceComplete(a: string, b: string)
    requires Digits(a) && Digits(b) && |b| <= |a|
    ensures Value(LowDifference(a, b, |a|).0) == Difference(a, b)
    ensures LowDifference(a, b, |a|).1 == 0 <==> Value(a) >= Value(b)
  {
    var (low, borrow) := LowDifference(a, b, |a|);
    DifferenceSplits(a, b, |a|);
    NoColumnsLeft(a, b, borrow);
    assert [] + low == low;
    DifferenceDigits(a, b);
  }

  method StrSub(a: string, b: string) returns (r: string)
    requires Digits(a) && Digits(b) && |b| <= |a|
    ensures Difference(a, b) >= 0
    ensures r == ToDecimal(Difference(a, b))
  {
    var result: string := [];
    var borrow: nat := 0;
    for i := 0 to |a|
      invariant (result, borrow) == LowDifference(a, b, i)
    {
      var diff := Column(a, i) - Column(b, i) - borrow;
      if diff < 0 {
        diff := diff + 10;
        borrow := 1;
      } else {
        borrow := 0;
      }
      result := [CharOf(diff)] + result;
    }
    LowDifferenceComplete(a, b);
    StrippedIsDecimal(result);
    r := StripZeros(result);
    if r == "" {
      r := "0";
    }
  }

  /**
   * On numbers in order `str_sub` is exact and ends without a borrow; on numbers out of order it never is: its loop
   * ends with a borrow that the script drops.
   */
  lemma SubtractExact(a: string, b: string)
    requires Canonical(a) && Canonical(b)
    ensures Value(a) >= Value(b) ==> |b| <= |a|
    ensures |b| <= |a| ==>
              && (LowDifference(a, b, |a|).1 == 0 <==> Value(a) >= Value(b))
              && (Difference(a, b) == Value(a) - Value(b) <==> Value(a) >= Value(b))
  {
    if |b| > |a| {
      LongerIsGreater(b, a);
    } else {
      LowDifferenceComplete(a, b);
    }
  }
}
