/** examples/quicksort_mock.py: a quicksort over the cons lists that the
    example declares as dataclasses (`List_Nil`, `List_Cons`) and unions
    (`List = List_Nil | List_Cons[T]`). `u24` is Python's `int` there, so
    the values are unbounded integers. */
module QuicksortMock {

  datatype List = Nil | Cons(value: int, tail: List)

  /** The values of a cons list, front to back. */
  function Elems(l: List): seq<int>
  {
    match l
    case Nil => []
    case Cons(v, t) => [v] + Elems(t)
  }

  function Length(l: List): nat
  {
    match l
    case Nil => 0
    case Cons(_, t) => 1 + Length(t)
  }

  lemma {:induction false} LengthElems(l: List)
    ensures Length(l) == |Elems(l)|
  {
    match l
    case Nil =>
    case Cons(_, t) => LengthElems(t);
  }

  ghost predicate Sorted(s: seq<int>)
  {
    forall i, j :: 0 <= i < j < |s| ==> s[i] <= s[j]
  }

  // ---------------------------------------------------------------------
  // partition

  /** The `while True` loop of `partition` from the remaining list on: each
      value is pushed on the front of `left` when it is at most the pivot,
      of `right` otherwise. */
  function PartitionFrom(list: List, p: int, left: List, right: List): (List, List)
  {
    match list
    case Nil => (left, right)
    case Cons(v, t) =>
      if v <= p then PartitionFrom(t, p, Cons(v, left), right)
      else PartitionFrom(t, p, left, Cons(v, right))
  }

  /** `partition(list, p)`. */
  method Partition(list: List, p: int) returns (left: List, right: List)
    ensures (left, right) == PartitionFrom(list, p, Nil, Nil)
  {
    left, right := Nil, Nil;
    var rest := list;
    while true
      invariant PartitionFrom(rest, p, left, right) == PartitionFrom(list, p, Nil, Nil)
      decreases Length(rest)
    {
      match rest {
        case Nil =>
          return;
        case Cons(v, t) =>
          if v <= p {
            left := Cons(v, left);
          } else {
            right := Cons(v, right);
          }
          rest := t;
      }
    }
  }

  /** Every value the loop sends left is at most the pivot: if the left
      side started so, it ends so. */
  lemma {:induction false} PartitionLeft(list: List, p: int, left: List, right: List)
    requires forall i :: 0 <= i < |Elems(left)| ==> Elems(left)[i] <= p
    ensures var l := PartitionFrom(list, p, left, right).0;
      forall i :: 0 <= i < |Elems(l)| ==> Elems(l)[i] <= p
  {
    match list
    case Nil =>
    case Cons(v, t) =>
      if v <= p {
        assert Elems(Cons(v, left)) == [v] + Elems(left);
        PartitionLeft(t, p, Cons(v, left), right);
        assert PartitionFrom(list, p, left, right) == PartitionFrom(t, p, Cons(v, left), right);
      } else {
        PartitionLeft(t, p, left, Cons(v, right));
        assert PartitionFrom(list, p, left, right) == PartitionFrom(t, p, left, Cons(v, right));
      }
  }

  /** Every value the loop sends right is above the pivot. */
  lemma {:induction false} PartitionRight(list: List, p: int, left: List, right: List)
    requires forall i :: 0 <= i < |Elems(right)| ==> Elems(right)[i] > p
    ensures var r := PartitionFrom(list, p, left, right).1;
      forall i :: 0 <= i < |Elems(r)| ==> Elems(r)[i] > p
  {
    match list
    case Nil =>
    case Cons(v, t) =>
      if v <= p {
        PartitionRight(t, p, Cons(v, left), right);
        assert PartitionFrom(list, p, left, right) == PartitionFrom(t, p, Cons(v, left), right);
      } else {
        assert Elems(Cons(v, right)) == [v] + Elems(right);
        PartitionRight(t, p, left, Cons(v, right));
        assert PartitionFrom(list, p, left, right) == PartitionFrom(t, p, left, Cons(v, right));
      }
  }

  /** The two sides end up with exactly the values they started with and
      those of the list. */
  lemma {:induction false} PartitionValues(list: List, p: int, left: List, right: List)
    ensures var (l, r) := PartitionFrom(list, p, left, right);
      multiset(Elems(l)) + multiset(Elems(r))
        == multiset(Elems(left)) + multiset(Elems(right)) + multiset(Elems(list))
  {
    match list
    case Nil =>
    case Cons(v, t) =>
      assert multiset(Elems(list)) == multiset{v} + multiset(Elems(t));
      if v <= p {
        assert multiset(Elems(Cons(v, left))) == multiset{v} + multiset(Elems(left));
        PartitionValues(t, p, Cons(v, left), right);
      } else {
        assert multiset(Elems(Cons(v, right))) == multiset{v} + multiset(Elems(right));
        PartitionValues(t, p, left, Cons(v, right));
      }
  }

  /** `partition(list, p)`: the left part holds the values at most p, the
      right part the values above p, and between them exactly the values of
      the list. */
  lemma PartitionSpec(list: List, p: int)
    ensures var (l, r) := PartitionFrom(list, p, Nil, Nil);
      && (forall i :: 0 <= i < |Elems(l)| ==> Elems(l)[i] <= p)
      && (forall i :: 0 <= i < |Elems(r)| ==> Elems(r)[i] > p)
      && multiset(Elems(l)) + multiset(Elems(r)) == multiset(Elems(list))
      && Length(l) + Length(r) == Length(list)
  {
    PartitionLeft(list, p, Nil, Nil);
    PartitionRight(list, p, Nil, Nil);
    PartitionValues(list, p, Nil, Nil);
    var (l, r) := PartitionFrom(list, p, Nil, Nil);
    LengthElems(l);
    LengthElems(r);
    LengthElems(list);
    assert |Elems(l)| + |Elems(r)| == |Elems(list)| by {
      assert |multiset(Elems(l)) + multiset(Elems(r))| == |multiset(Elems(list))|;
    }
  }

  // ---------------------------------------------------------------------
  // concat and mock_sort

  /** `concat(xs1, xs2)`: the values of the first list followed by those
      of the second. */
  function Concat(xs1: List, xs2: List): (r: List)
    ensures Elems(r) == Elems(xs1) + Elems(xs2)
  {
    match xs1
    case Nil => xs2
    case Cons(v, t) => Cons(v, Concat(t, xs2))
  }

  /** `mock_sort(list)`: the head is the pivot, the tail is partitioned
      around it and both parts sorted, which are shorter than the list. */
  function MockSort(list: List): List
    decreases Length(list)
  {
    match list
    case Nil => Nil
    case Cons(v, t) =>
      var (left, right) := PartitionFrom(t, v, Nil, Nil);
      PartitionSpec(t, v);
      Concat(MockSort(left), Cons(v, MockSort(right)))
  }

  /** `mock_sort` returns its input's values in ascending order: sorted,
      and a permutation of the input. */
  lemma {:induction false} MockSortSpec(list: List)
    ensures Sorted(Elems(MockSort(list)))
    ensures multiset(Elems(MockSort(list))) == multiset(Elems(list))
    decreases Length(list)
  {
    match list
    case Nil =>
    case Cons(v, t) =>
      var (left, right) := PartitionFrom(t, v, Nil, Nil);
      PartitionSpec(t, v);
      MockSortSpec(left);
      MockSortSpec(right);
      MockSortUnfold(list);
      assert Elems(list) == [v] + Elems(t);
      AroundPivot(Elems(MockSort(left)), Elems(left), v, Elems(MockSort(right)), Elems(right));
  }

  /** The values `mock_sort` returns for a non-empty list. */
  lemma MockSortUnfold(list: List)
    requires list.Cons?
    ensures var (left, right) := PartitionFrom(list.tail, list.value, Nil, Nil);
      Elems(MockSort(list)) == Elems(MockSort(left)) + [list.value] + Elems(MockSort(right))
  {
  }

  /** The pivot between a sorted permutation of the values at most it and a
      sorted permutation of the values above it. */
  lemma AroundPivot(sl: seq<int>, l: seq<int>, v: int, sr: seq<int>, r: seq<int>)
    requires Sorted(sl) && multiset(sl) == multiset(l) && forall i :: 0 <= i < |l| ==> l[i] <= v
    requires Sorted(sr) && multiset(sr) == multiset(r) && forall i :: 0 <= i < |r| ==> r[i] > v
    ensures Sorted(sl + [v] + sr)
    ensures multiset(sl + [v] + sr) == multiset(l) + multiset{v} + multiset(r)
  {
    BoundByMultiset(sl, l, v, true);
    BoundByMultiset(sr, r, v, false);
    SortedAround(sl, v, sr);
  }

  /** Values bounded by the pivot stay bounded after a permutation. */
  lemma BoundByMultiset(s: seq<int>, t: seq<int>, p: int, below: bool)
    requires multiset(s) == multiset(t)
    requires below ==> forall i :: 0 <= i < |t| ==> t[i] <= p
    requires !below ==> forall i :: 0 <= i < |t| ==> t[i] > p
    ensures below ==> forall i :: 0 <= i < |s| ==> s[i] <= p
    ensures !below ==> forall i :: 0 <= i < |s| ==> s[i] > p
  {
    forall i | 0 <= i < |s|
      ensures if below then s[i] <= p else s[i] > p
    {
      assert s[i] in multiset(s);
      assert s[i] in t;
    }
  }

  /** A sorted part at most the pivot, the pivot, and a sorted part above
      it make a sorted sequence. */
  lemma SortedAround(l: seq<int>, v: int, r: seq<int>)
    requires Sorted(l) && Sorted(r)
    requires forall i :: 0 <= i < |l| ==> l[i] <= v
    requires forall i :: 0 <= i < |r| ==> r[i] > v
    ensures Sorted(l + [v] + r)
  {
    var s := l + [v] + r;
    forall i, j | 0 <= i < j < |s|
      ensures s[i] <= s[j]
    {
      if j < |l| {
      } else if j == |l| {
        assert s[i] == l[i];
      } else if i < |l| {
        assert s[i] == l[i] && s[j] == r[j - |l| - 1];
      } else if i == |l| {
        assert s[j] == r[j - |l| - 1];
      } else {
        assert s[i] == r[i - |l| - 1] && s[j] == r[j - |l| - 1];
      }
    }
  }
}
