/** Small shared definitions: an optional value, facts about sequences of
    node ids, and the decimal rendering of a natural number. */
module Util {

  datatype Option<+T> = None | Some(value: T)

  /** The empty sequence is neutral for concatenation. */
  lemma EmptyNeutral<T>(a: seq<T>)
    ensures [] + a == a && a + [] == a
  {
  }

  /** No id occurs twice. */
  ghost predicate Distinct(s: seq<nat>) {
    forall i, j :: 0 <= i < j < |s| ==> s[i] != s[j]
  }

  /** Every id lies in the half-open interval (lo, hi]. */
  ghost predicate Within(s: seq<nat>, lo: int, hi: int) {
    forall i :: 0 <= i < |s| ==> lo < s[i] <= hi
  }

  /** Ids strictly increase from left to right. */
  ghost predicate Increasing(s: seq<nat>) {
    forall i, j :: 0 <= i < j < |s| ==> s[i] < s[j]
  }

  /** The sequence lo+1, lo+2, ..., lo+count. */
  function Iota(lo: nat, count: nat): (s: seq<nat>)
    ensures |s| == count
    ensures forall i :: 0 <= i < count ==> s[i] == lo + 1 + i
    decreases count
  {
    if count == 0 then [] else Iota(lo, count - 1) + [lo + count]
  }

  lemma IotaSplit(lo: nat, a: nat, b: nat)
    ensures Iota(lo, a + b) == Iota(lo, a) + Iota(lo + a, b)
  {
    var s, t := Iota(lo, a), Iota(lo + a, b);
    assert forall i :: 0 <= i < a + b ==> (s + t)[i] == lo + 1 + i by {
      forall i | 0 <= i < a + b ensures (s + t)[i] == lo + 1 + i {
        if i < a { assert (s + t)[i] == s[i]; } else { assert (s + t)[i] == t[i - a]; }
      }
    }
  }

  lemma DistinctAppend(a: seq<nat>, b: seq<nat>, lo: int, mid: int, hi: int)
    requires lo <= mid <= hi
    requires Distinct(a) && Within(a, lo, mid)
    requires Distinct(b) && Within(b, mid, hi)
    ensures Distinct(a + b) && Within(a + b, lo, hi)
  {
    forall i | 0 <= i < |a + b| ensures lo < (a + b)[i] <= hi {
      if i < |a| { assert (a + b)[i] == a[i]; } else { assert (a + b)[i] == b[i - |a|]; }
    }
    forall i, j | 0 <= i < j < |a + b| ensures (a + b)[i] != (a + b)[j] {
      if j < |a| {
      } else if i >= |a| {
        assert (a + b)[i] == b[i - |a|] && (a + b)[j] == b[j - |a|];
      } else {
        assert (a + b)[i] == a[i] && (a + b)[j] == b[j - |a|];
      }
    }
  }

  lemma IncreasingAppend(a: seq<nat>, b: seq<nat>, lo: int, mid: int, hi: int)
    requires lo <= mid <= hi
    requires Increasing(a) && Within(a, lo, mid)
    requires Increasing(b) && Within(b, mid, hi)
    ensures Increasing(a + b) && Within(a + b, lo, hi)
  {
    forall i | 0 <= i < |a + b| ensures lo < (a + b)[i] <= hi {
      if i < |a| { assert (a + b)[i] == a[i]; } else { assert (a + b)[i] == b[i - |a|]; }
    }
    forall i, j | 0 <= i < j < |a + b| ensures (a + b)[i] < (a + b)[j] {
      if j < |a| {
      } else if i >= |a| {
        assert (a + b)[i] == b[i - |a|] && (a + b)[j] == b[j - |a|];
      } else {
        assert (a + b)[i] == a[i] && (a + b)[j] == b[j - |a|];
      }
    }
  }

  lemma DistinctSnoc(a: seq<nat>, x: nat, lo: int, hi: int)
    requires Distinct(a) && Within(a, x, hi) && lo < x <= hi
    ensures Distinct(a + [x]) && Within(a + [x], lo, hi)
  {
    assert forall i :: 0 <= i < |a| ==> (a + [x])[i] == a[i];
  }

  /** The ids a sequence holds. */
  ghost function Elems(s: seq<nat>): set<nat>
  {
    set x | x in s
  }

  lemma ElemsAppend(a: seq<nat>, b: seq<nat>)
    ensures Elems(a + b) == Elems(a) + Elems(b)
  {
  }

  /** In a sequence without repeats every id occurs at most once. */
  lemma {:induction false} DistinctCount(s: seq<nat>, x: nat)
    requires Distinct(s)
    ensures multiset(s)[x] <= 1
    decreases |s|
  {
    if s != [] {
      var init, last := s[..|s| - 1], s[|s| - 1];
      assert s == init + [last];
      assert Distinct(init);
      DistinctCount(init, x);
      if x == last {
        assert x !in init;
      }
    }
  }

  /** Python's str() of a non-negative int: decimal digits, most significant first. */
  function DecimalString(n: nat): (s: string)
    ensures |s| > 0
    ensures forall i :: 0 <= i < |s| ==> '0' <= s[i] <= '9'
    decreases n
  {
    if n < 10 then [(48 + n) as char] else DecimalString(n / 10) + [(48 + n % 10) as char]
  }

  /** The number a string of decimal digits denotes. */
  function DecimalValue(s: string): nat
    requires forall i :: 0 <= i < |s| ==> '0' <= s[i] <= '9'
    decreases |s|
  {
    if s == [] then 0 else DecimalValue(s[..|s| - 1]) * 10 + (s[|s| - 1] as int - 48)
  }

  /** Reading the digits back gives the number: the rendering loses nothing. */
  lemma {:induction false} DecimalRoundTrip(n: nat)
    ensures DecimalValue(DecimalString(n)) == n
    decreases n
  {
    if n >= 10 {
      DecimalRoundTrip(n / 10);
      var s := DecimalString(n);
      assert s[..|s| - 1] == DecimalString(n / 10);
    }
  }

  /** Distinct numbers have distinct decimal renderings. */
  lemma DecimalInjective(i: nat, j: nat)
    requires DecimalString(i) == DecimalString(j)
    ensures i == j
  {
    DecimalRoundTrip(i);
    DecimalRoundTrip(j);
  }
}
