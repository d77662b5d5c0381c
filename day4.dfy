/** Day 4 (src/days/day_4.rs): the password rules, each checked by one
    pass over the decimal digits, and the number of passwords in the
    puzzle's range. */
module Day4 {
  import opened Util

  const LowerLimit: nat := 134564
  const UpperLimit: nat := 585159

  /** Some digit equals the one before it. */
  ghost predicate HasAdjacentPair(ds: seq<nat>) {
    exists i :: 0 < i < |ds| && ds[i - 1] == ds[i]
  }

  /** Digits `p` and `p + 1` are equal and form a whole run: the digits on
      either side (where there are any) differ from them. */
  predicate IsolatedPair(ds: seq<nat>, p: nat) {
    && p + 1 < |ds|
    && ds[p] == ds[p + 1]
    && (p == 0 || ds[p - 1] != ds[p])
    && (p + 2 == |ds| || ds[p + 2] != ds[p])
  }

  /** Some maximal run of equal digits has length exactly two. */
  ghost predicate HasIsolatedPair(ds: seq<nat>) {
    exists p :: IsolatedPair(ds, p)
  }

  predicate NonDecreasing(ds: seq<nat>) {
    forall i :: 0 < i < |ds| ==> ds[i - 1] <= ds[i]
  }

  /** A run of exactly two equal digits is in particular a pair of equal
      adjacent digits. */
  lemma IsolatedPairIsAdjacentPair(ds: seq<nat>)
    requires HasIsolatedPair(ds)
    ensures HasAdjacentPair(ds)
  {
    var p :| IsolatedPair(ds, p);
    assert ds[p + 1 - 1] == ds[p + 1];
  }

  /** `matching_adjacent_digits`: walks the digits remembering the last
      one. The first digit is indexed unconditionally, so 0 (no digits)
      is outside the domain. */
  method MatchingAdjacentDigits(num: nat) returns (b: bool)
    requires num > 0
    ensures b == HasAdjacentPair(Digits(num))
  {
    var digits := DecimalDigits(num);
    var last := digits[0];
    for i := 1 to |digits|
      invariant last == digits[i - 1]
      invariant forall k :: 0 < k < i ==> digits[k - 1] != digits[k]
    {
      if digits[i] == last {
        return true;
      }
      last := digits[i];
    }
    return false;
  }

  /** `exactly_two_matching_adjacent_digits`: counts the length of the
      current run and succeeds when a run of two ends, or when the last
      run has length two. */
  method ExactlyTwoMatchingAdjacentDigits(num: nat) returns (b: bool)
    requires num > 0
    ensures b == HasIsolatedPair(Digits(num))
  {
    var digits := DecimalDigits(num);
    var last := digits[0];
    var count := 1;
    for i := 1 to |digits|
      invariant 1 <= count <= i && last == digits[i - 1]
      invariant forall k :: i - count <= k < i ==> digits[k] == last
      invariant i - count == 0 || digits[i - count - 1] != last
      invariant forall p: nat :: p + 2 <= i - count ==> !IsolatedPair(digits, p)
    {
      if digits[i] == last {
        count := count + 1;
      } else {
        if count == 2 {
          assert IsolatedPair(digits, i - 2);
          return true;
        }
        NoPairInsideRun(digits, i - count, i);
        count := 1;
      }
      last := digits[i];
    }
    if count == 2 {
      assert IsolatedPair(digits, |digits| - 2);
      return true;
    }
    NoPairInsideRun(digits, |digits| - count, |digits|);
    return false;
  }

  /** Inside a maximal run of equal digits whose length is not two, and at
      the digit just before it, no isolated pair starts. */
  lemma NoPairInsideRun(ds: seq<nat>, start: nat, end: nat)
    requires start < end <= |ds| && end - start != 2
    requires forall k :: start <= k < end ==> ds[k] == ds[start]
    requires start == 0 || ds[start - 1] != ds[start]
    requires end == |ds| || ds[end] != ds[start]
    ensures forall p: nat :: start <= p + 1 < end + 1 ==> !IsolatedPair(ds, p)
  {
    forall p: nat | start <= p + 1 < end + 1
      ensures !IsolatedPair(ds, p)
    {
      if p + 1 == start {
      } else if p + 1 < end && p > start {
        assert ds[p - 1] == ds[p];
      } else if p + 2 < end {
        assert ds[p + 2] == ds[p];
      }
    }
  }

  /** `digits_do_not_decrease`: fails at the first digit below its
      predecessor. */
  method DigitsDoNotDecrease(num: nat) returns (b: bool)
    requires num > 0
    ensures b == NonDecreasing(Digits(num))
  {
    var digits := DecimalDigits(num);
    var last := digits[0];
    for i := 1 to |digits|
      invariant last == digits[i - 1]
      invariant forall k :: 0 < k < i ==> digits[k - 1] <= digits[k]
    {
      if digits[i] < last {
        return false;
      }
      last := digits[i];
    }
    return true;
  }

  /** The part-2 password rule. */
  ghost predicate Meets(num: nat) {
    HasIsolatedPair(Digits(num)) && NonDecreasing(Digits(num))
  }

  /** `meets_criteria`: the run rule first; the order rule is only checked
      when it holds. */
  method MeetsCriteria(num: nat) returns (b: bool)
    requires num > 0
    ensures b == Meets(num)
  {
    b := ExactlyTwoMatchingAdjacentDigits(num);
    if b {
      b := DigitsDoNotDecrease(num);
    }
  }

  lemma DigitsExample()
    ensures Digits(112233) == [1, 1, 2, 2, 3, 3]
  {
    assert Digits(1) == [1];
    assert Digits(11) == [1, 1];
    assert Digits(112) == [1, 1, 2];
    assert Digits(1122) == [1, 1, 2, 2];
    assert Digits(11223) == [1, 1, 2, 2, 3];
  }

  lemma MeetsFirstExample()
    ensures Meets(112233)
  {
    var ds: seq<nat> := [1, 1, 2, 2, 3, 3];
    assert IsolatedPair(ds, 0) && NonDecreasing(ds);
    DigitsExample();
  }

  lemma SecondExampleDigits()
    ensures Digits(111122) == [1, 1, 1, 1, 2, 2]
  {
    assert Digits(1) == [1];
    assert Digits(11) == [1, 1];
    assert Digits(111) == [1, 1, 1];
    assert Digits(1111) == [1, 1, 1, 1];
    assert Digits(11112) == [1, 1, 1, 1, 2];
  }

  lemma MeetsSecondExample()
    ensures Meets(111122)
  {
    var ds: seq<nat> := [1, 1, 1, 1, 2, 2];
    assert IsolatedPair(ds, 4) && NonDecreasing(ds);
    SecondExampleDigits();
  }

  /** A run of three is not a run of two. */
  lemma FailsExample()
    ensures !Meets(123444)
  {
    assert Digits(1) == [1];
    assert Digits(12) == [1, 2];
    assert Digits(123) == [1, 2, 3];
    assert Digits(1234) == [1, 2, 3, 4];
    assert Digits(12344) == [1, 2, 3, 4, 4];
    var ds := Digits(123444);
    assert ds == [1, 2, 3, 4, 4, 4];
    NoPairInsideRun(ds, 3, 6);
  }

  /** How many numbers in `lo..=hi` satisfy `P`. */
  ghost function CountIn(P: nat -> bool, lo: nat, hi: nat): nat
    decreases hi + 1 - lo
  {
    if lo > hi then 0 else (if P(lo) then 1 else 0) + CountIn(P, lo + 1, hi)
  }

  /** The numbers in `lo..=hi` satisfying `P`. */
  ghost function InRange(P: nat -> bool, lo: nat, hi: nat): set<nat> {
    set n: nat | lo <= n <= hi && P(n)
  }

  /** The range split after its first number. */
  lemma InRangeFirst(P: nat -> bool, lo: nat, hi: nat)
    requires lo <= hi
    ensures lo !in InRange(P, lo + 1, hi)
    ensures InRange(P, lo, hi) == (if P(lo) then {lo} else {}) + InRange(P, lo + 1, hi)
  {
  }

  /** The count is the size of the set of numbers in the range satisfying
      `P`. */
  lemma {:induction false} CountIsCardinality(P: nat -> bool, lo: nat, hi: nat)
    ensures CountIn(P, lo, hi) == |InRange(P, lo, hi)|
    decreases hi + 1 - lo
  {
    if lo > hi {
      assert InRange(P, lo, hi) == {};
    } else {
      CountIsCardinality(P, lo + 1, hi);
      InRangeFirst(P, lo, hi);
    }
  }

  /** The password count is the number of passwords in the puzzle range. */
  lemma PasswordCountIsCardinality()
    ensures CountIn(Meets, LowerLimit, UpperLimit) == |set n: nat | LowerLimit <= n <= UpperLimit && Meets(n)|
  {
    var P: nat -> bool := Meets;
    CountIsCardinality(P, LowerLimit, UpperLimit);
    assert InRange(P, LowerLimit, UpperLimit) == (set n: nat | LowerLimit <= n <= UpperLimit && Meets(n));
  }

  /** `possible_passwords_count`: the filter/count over the puzzle range. */
  method PossiblePasswordsCount() returns (count: nat)
    ensures count == CountIn(Meets, LowerLimit, UpperLimit)
  {
    count := 0;
    var num := LowerLimit;
    while num <= UpperLimit
      invariant LowerLimit <= num <= UpperLimit + 1
      invariant CountIn(Meets, LowerLimit, UpperLimit) == count + CountIn(Meets, num, UpperLimit)
      decreases UpperLimit + 1 - num
    {
      var ok := MeetsCriteria(num);
      if ok {
        count := count + 1;
      }
      num := num + 1;
    }
  }
}
