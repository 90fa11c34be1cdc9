/**
 A stable sort by a comparison, and why the result does not depend on how the
 sorting is done.
 */
module Sorting {
  /** A strict weak order: what a comparison function must be for a sort to have
      a defined result. */
  ghost predicate IsOrder<T(!new)>(less: (T, T) -> bool) {
    && (forall x :: !less(x, x))
    && (forall x, y, z :: less(x, y) && less(y, z) ==> less(x, z))
    && (forall x, y, z :: less(x, z) ==> less(x, y) || less(y, z))
  }

  function Insert<T>(x: T, s: seq<T>, less: (T, T) -> bool): (r: seq<T>)
    ensures |r| == |s| + 1
  {
    if s == [] || !less(s[0], x) then [x] + s else [s[0]] + Insert(x, s[1..], less)
  }

  function Sort<T>(s: seq<T>, less: (T, T) -> bool): (r: seq<T>)
    ensures |r| == |s|
  {
    if s == [] then [] else Insert(s[0], Sort(s[1..], less), less)
  }

  ghost predicate IsSorted<T>(s: seq<T>, less: (T, T) -> bool) {
    forall i, j :: 0 <= i < j < |s| ==> !less(s[j], s[i])
  }

  /** No two elements tie. */
  ghost predicate IsUntied<T>(s: seq<T>, less: (T, T) -> bool) {
    forall i, j :: 0 <= i < j < |s| ==> less(s[i], s[j]) || less(s[j], s[i])
  }

  lemma {:induction false} InsertKeeps<T>(x: T, s: seq<T>, less: (T, T) -> bool)
    ensures multiset(Insert(x, s, less)) == multiset{x} + multiset(s)
  {
    if s == [] || !less(s[0], x) {
    } else {
      InsertKeeps(x, s[1..], less);
      HeadAndRest(s);
    }
  }

  lemma InsertedAmong<T>(x: T, s: seq<T>, less: (T, T) -> bool, j: nat)
    requires j <= |s|
    ensures Insert(x, s, less)[j] == x || Insert(x, s, less)[j] in s
  {
    hide Insert;
    InsertKeeps(x, s, less);
    assert Insert(x, s, less)[j] in multiset(Insert(x, s, less));
  }

  lemma {:induction false} InsertSorted<T(!new)>(x: T, s: seq<T>, less: (T, T) -> bool)
    requires IsOrder(less) && IsSorted(s, less)
    ensures IsSorted(Insert(x, s, less), less)
  {
    if s == [] || !less(s[0], x) {
    } else {
      InsertSorted(x, s[1..], less);
      var rest := Insert(x, s[1..], less);
      forall j: nat | j < |rest| ensures !less(rest[j], s[0]) {
        InsertedAmong(x, s[1..], less, j);
        assert less(s[0], x) && !less(x, s[0]);
      }
    }
  }

  lemma {:induction false} SortKeeps<T>(s: seq<T>, less: (T, T) -> bool)
    ensures multiset(Sort(s, less)) == multiset(s)
  {
    if s == [] {
    } else {
      SortKeeps(s[1..], less);
      InsertKeeps(s[0], Sort(s[1..], less), less);
      HeadAndRest(s);
    }
  }

  lemma {:induction false} SortSorts<T(!new)>(s: seq<T>, less: (T, T) -> bool)
    requires IsOrder(less)
    ensures IsSorted(Sort(s, less), less)
  {
    if s == [] {
    } else {
      SortSorts(s[1..], less);
      InsertSorted(s[0], Sort(s[1..], less), less);
    }
  }

  ghost predicate AreDifferent<T>(s: seq<T>) {
    forall i, j :: 0 <= i < j < |s| ==> s[i] != s[j]
  }

  lemma HeadAndRest<T>(s: seq<T>)
    requires s != []
    ensures multiset(s) == multiset{s[0]} + multiset(s[1..])
  {
    assert s == [s[0]] + s[1..];
  }

  lemma TakenOut<T>(t: seq<T>, j: nat)
    requires j < |t|
    ensures multiset(t) == multiset{t[j]} + multiset(t[..j] + t[j + 1..])
  {
    assert t == t[..j] + ([t[j]] + t[j + 1..]);
  }

  lemma StaysAmong<T>(x: T, t: seq<T>, j: nat)
    requires j < |t| && x in t && x != t[j]
    ensures x in t[..j] + t[j + 1..]
  {
    var k :| 0 <= k < |t| && t[k] == x;
    if k < j {
      assert t[..j][k] == x;
    } else {
      assert t[j + 1..][k - j - 1] == x;
    }
  }

  /** What is among others is so still, its first element taken out of both. */
  lemma RestAmong<T>(s: seq<T>, t: seq<T>, j: nat)
    requires s != [] && AreDifferent(s) && j < |t| && t[j] == s[0] && forall x :: x in s ==> x in t
    ensures AreDifferent(s[1..]) && forall x :: x in s[1..] ==> x in t[..j] + t[j + 1..]
  {
    forall x | x in s[1..] ensures x in t[..j] + t[j + 1..] {
      var i :| 0 <= i < |s[1..]| && s[1..][i] == x;
      assert s[i + 1] == x && x in s;
      StaysAmong(x, t, j);
    }
  }

  /** Elements that are all different, as many as and all among others, are those
      elements. */
  lemma {:induction false} AllAmong<T>(s: seq<T>, t: seq<T>)
    requires |s| == |t| && AreDifferent(s) && forall x :: x in s ==> x in t
    ensures multiset(s) == multiset(t)
  {
    if s == [] {
    } else {
      assert s[0] in s;
      var j :| 0 <= j < |t| && t[j] == s[0];
      RestAmong(s, t, j);
      hide AreDifferent;
      AllAmong(s[1..], t[..j] + t[j + 1..]);
      HeadAndRest(s);
      TakenOut(t, j);
    }
  }

  /** Sorting leaves a sorted arrangement alone. */
  lemma {:induction false} SortedStays<T(!new)>(s: seq<T>, less: (T, T) -> bool)
    requires IsSorted(s, less)
    ensures Sort(s, less) == s
  {
    if s == [] {
    } else {
      SortedStays(s[1..], less);
      assert s == [s[0]] + s[1..];
    }
  }

  // ------------------------------------------------------------ sorting ties

  /** Neither of the two comes first. */
  predicate Ties<T>(x: T, y: T, less: (T, T) -> bool) { !less(x, y) && !less(y, x) }

  /** How many elements come before a pivot. */
  function Before<T>(s: seq<T>, pivot: T, less: (T, T) -> bool): (n: nat)
    ensures n <= |s|
  {
    if s == [] then 0 else (if less(s[0], pivot) then 1 else 0) + Before(s[1..], pivot, less)
  }

  lemma {:induction false} BeforeJoins<T>(s: seq<T>, t: seq<T>, pivot: T, less: (T, T) -> bool)
    ensures Before(s + t, pivot, less) == Before(s, pivot, less) + Before(t, pivot, less)
  {
    if s == [] {
      assert s + t == t;
    } else {
      BeforeJoins(s[1..], t, pivot, less);
      assert (s + t)[1..] == s[1..] + t;
    }
  }

  /** The count does not depend on the arrangement. */
  lemma {:induction false} BeforeRearranged<T>(s: seq<T>, t: seq<T>, pivot: T, less: (T, T) -> bool)
    requires multiset(s) == multiset(t)
    ensures Before(s, pivot, less) == Before(t, pivot, less)
    decreases |s|
  {
    assert |s| == |multiset(s)| == |multiset(t)| == |t|;
    if s == [] {
    } else {
      assert s[0] in multiset(t);
      var j :| 0 <= j < |t| && t[j] == s[0];
      var head, tail := t[..j], t[j + 1..];
      assert t == head + ([t[j]] + tail);
      WithoutOne(s, head, tail);
      BeforeRearranged(s[1..], head + tail, pivot, less);
      BeforeJoins(head, tail, pivot, less);
      BeforeJoins(head, [t[j]] + tail, pivot, less);
      assert ([t[j]] + tail)[1..] == tail;
    }
  }

  lemma WithoutOne<T>(s: seq<T>, head: seq<T>, tail: seq<T>)
    requires s != [] && multiset(s) == multiset(head + ([s[0]] + tail))
    ensures multiset(s[1..]) == multiset(head + tail)
  {
    assert s == [s[0]] + s[1..];
    assert multiset(s[1..]) == multiset(s) - multiset{s[0]};
  }

  lemma {:induction false} NoneBefore<T>(s: seq<T>, pivot: T, less: (T, T) -> bool)
    requires forall k :: 0 <= k < |s| ==> !less(s[k], pivot)
    ensures Before(s, pivot, less) == 0
  {
    if s == [] {
    } else {
      NoneBefore(s[1..], pivot, less);
    }
  }

  lemma {:induction false} AllBefore<T>(s: seq<T>, pivot: T, less: (T, T) -> bool)
    requires forall k :: 0 <= k < |s| ==> less(s[k], pivot)
    ensures Before(s, pivot, less) == |s|
  {
    if s == [] {
    } else {
      AllBefore(s[1..], pivot, less);
    }
  }

  /** In a sorted arrangement at most the elements ahead of a place come before it. */
  lemma BeforePlace<T(!new)>(t: seq<T>, i: nat, less: (T, T) -> bool)
    requires IsSorted(t, less) && i < |t| && forall x :: !less(x, x)
    ensures Before(t, t[i], less) <= i
  {
    hide Before;
    assert forall k :: 0 <= k < |t[i..]| ==> t[i..][k] == t[i + k];
    NoneBefore(t[i..], t[i], less);
    BeforeJoins(t[..i], t[i..], t[i], less);
    assert t == t[..i] + t[i..];
  }

  lemma NotAfterIsBefore<T(!new)>(x: T, y: T, pivot: T, less: (T, T) -> bool)
    requires IsOrder(less) && less(x, pivot) && !less(x, y)
    ensures less(y, pivot)
  {
  }

  lemma PlacesBefore<T(!new)>(s: seq<T>, i: nat, pivot: T, less: (T, T) -> bool)
    requires IsOrder(less) && IsSorted(s, less) && i < |s| && less(s[i], pivot)
    ensures forall k :: 0 <= k <= i ==> less(s[k], pivot)
  {
    hide IsOrder;
    forall k | 0 <= k < i ensures less(s[k], pivot) {
      NotAfterIsBefore(s[i], s[k], pivot, less);
    }
  }

  /** If a place comes before a pivot, so do all the places ahead of it. */
  lemma PlaceBefore<T(!new)>(s: seq<T>, i: nat, pivot: T, less: (T, T) -> bool)
    requires IsOrder(less) && IsSorted(s, less) && i < |s| && less(s[i], pivot)
    ensures Before(s, pivot, less) > i
  {
    hide IsOrder, IsSorted, Before;
    var head := s[..i + 1];
    PlacesBefore(s, i, pivot, less);
    AllBefore(head, pivot, less);
    BeforeJoins(head, s[i + 1..], pivot, less);
    assert s == head + s[i + 1..];
  }

  /** Two sorted arrangements of the same elements tie place by place. */
  lemma SortedTie<T(!new)>(s: seq<T>, t: seq<T>, less: (T, T) -> bool, i: nat)
    requires IsOrder(less) && IsSorted(s, less) && IsSorted(t, less) && multiset(s) == multiset(t)
    requires i < |s|
    ensures |s| == |t| && Ties(s[i], t[i], less)
  {
    assert |s| == |multiset(s)| == |multiset(t)| == |t|;
    BeforeRearranged(s, t, s[i], less);
    BeforeRearranged(s, t, t[i], less);
    BeforePlace(s, i, less);
    BeforePlace(t, i, less);
    if less(s[i], t[i]) {
      PlaceBefore(s, i, t[i], less);
    } else if less(t[i], s[i]) {
      PlaceBefore(t, i, s[i], less);
    }
  }

  lemma TiesCarry<T(!new)>(x: T, y: T, u: T, v: T, less: (T, T) -> bool)
    requires IsOrder(less) && Ties(x, u, less) && Ties(y, v, less) && !less(y, x)
    ensures !less(v, u)
  {
    assert !less(v, x);
  }

  /** However untied elements are arranged, they sort to the same arrangement. */
  lemma SortsAgree<T(!new)>(s: seq<T>, t: seq<T>, less: (T, T) -> bool)
    requires IsOrder(less) && IsUntied(s, less) && multiset(s) == multiset(t)
    ensures Sort(s, less) == Sort(t, less)
  {
    var u, v := Sort(s, less), Sort(t, less);
    SortKeeps(s, less);
    SortKeeps(t, less);
    SortSorts(s, less);
    SortSorts(t, less);
    assert |s| == |multiset(s)| == |multiset(t)| == |t|;
    forall i: nat | i < |u| ensures u[i] == v[i] {
      SortedTie(u, v, less, i);
      assert u[i] in multiset(s) && v[i] in multiset(s);
      var a :| 0 <= a < |s| && s[a] == u[i];
      var b :| 0 <= b < |s| && s[b] == v[i];
    }
  }

  /** Exchanging two elements that tie keeps an arrangement sorted. */
  lemma ExchangeSorted<T(!new)>(s: seq<T>, k: nat, l: nat, less: (T, T) -> bool)
    requires IsOrder(less) && IsSorted(s, less) && k < |s| && l < |s| && Ties(s[k], s[l], less)
    ensures IsSorted(s[k := s[l]][l := s[k]], less)
  {
    var t := s[k := s[l]][l := s[k]];
    forall i, j | 0 <= i < j < |t| ensures !less(t[j], t[i]) {
      TiesCarry(s[i], s[j], t[i], t[j], less);
    }
  }

  lemma ExchangeKeeps<T>(s: seq<T>, k: nat, l: nat)
    requires k < |s| && l < |s| && k != l
    ensures multiset(s[k := s[l]][l := s[k]]) == multiset(s)
  {
  }
}
