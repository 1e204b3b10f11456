/** examples/quicksort.py: the conversions between Python lists and the
    cons lists of examples/quicksort_mock.py, the random input, and the
    driver that sorts it with `mock_sort`. `u24(x)` is `int(x)` there, the
    identity on integers. */
module Quicksort {
  import opened QuicksortMock
  import Support

  /** The cons list of a sequence, in the same order. */
  function OfSeq(xs: seq<int>): List
  {
    if |xs| == 0 then Nil else Cons(xs[0], OfSeq(xs[1..]))
  }

  /** A sequence's cons list holds its values. */
  lemma {:induction false} ElemsOfSeq(xs: seq<int>)
    ensures Elems(OfSeq(xs)) == xs
    decreases |xs|
  {
    if |xs| > 0 {
      ElemsOfSeq(xs[1..]);
    }
  }

  /** A cons list is the cons list of its values. */
  lemma {:induction false} OfSeqOfElems(l: List)
    ensures OfSeq(Elems(l)) == l
  {
    match l
    case Nil =>
    case Cons(v, t) =>
      OfSeqOfElems(t);
      assert ([v] + Elems(t))[1..] == Elems(t);
  }

  /** The default `max_value` of `gen_list`. */
  const MAX_VALUE_DEFAULT: int := 0xff_ffff

  /** The error `random.randint(0, max_value)` raises on an empty range; its
      exact message depends on the Python version. */
  const RANDINT_ERR := "ValueError: empty range for randrange()"

  /** The number of iterations of `range(n)`. */
  function RangeLength(n: int): nat
  {
    if n > 0 then n else 0
  }

  /** `gen_list(n, max_value)`. `random.randint(0, max_value)` is not
      modelled: the results of its calls are the parameter `draws`, one per
      iteration of `range(n)`, each in [0, max_value] as `randint` promises
      whenever that range is not empty. A negative or zero n gives the
      empty list; a positive n with a negative `max_value` raises at the
      first draw. */
  method GenList(n: int, maxValue: int, draws: seq<int>) returns (r: Support.Result<seq<int>>)
    requires |draws| == RangeLength(n)
    requires forall i :: 0 <= i < |draws| && maxValue >= 0 ==> 0 <= draws[i] <= maxValue
    ensures r.Ok? <==> n <= 0 || maxValue >= 0
    ensures r.Err? ==> r.error == Support.Raise(RANDINT_ERR)
    ensures r.Ok? ==> |r.value| == RangeLength(n) && r.value == draws
    ensures r.Ok? ==> forall i :: 0 <= i < |r.value| ==> 0 <= r.value[i] <= maxValue
  {
    var result: seq<int> := [];
    var i := 0;
    while i < n
      invariant 0 <= i <= RangeLength(n)
      invariant result == draws[..i]
      invariant i > 0 ==> maxValue >= 0
    {
      if maxValue < 0 {
        return Support.Err(Support.Raise(RANDINT_ERR));
      }
      result := result + [draws[i]];
      i := i + 1;
    }
    assert draws[..i] == draws;
    return Support.Ok(result);
  }

  /** `gen_list(n)` with the default `max_value`: never raises, and every
      value is a `u24`. */
  method GenListDefault(n: int, draws: seq<int>) returns (r: Support.Result<seq<int>>)
    requires |draws| == RangeLength(n)
    requires forall i :: 0 <= i < |draws| ==> 0 <= draws[i] <= MAX_VALUE_DEFAULT
    ensures r.Ok? && r.value == draws && |r.value| == RangeLength(n)
    ensures forall i :: 0 <= i < |r.value| ==> 0 <= r.value[i] < 0x100_0000
  {
    r := GenList(n, MAX_VALUE_DEFAULT, draws);
  }

  /** `to_cons_list(xs)`: built from the last index down. */
  method ToConsList(xs: seq<int>) returns (result: List)
    ensures Elems(result) == xs
    ensures result == OfSeq(xs)
  {
    result := Nil;
    var hi := |xs|;
    if hi == 0 {
      return;
    }
    while hi > 0
      invariant 0 <= hi <= |xs| && Elems(result) == xs[hi..]
    {
      hi := hi - 1;
      result := Cons(xs[hi], result);
      assert xs[hi..] == [xs[hi]] + xs[hi + 1..];
    }
    OfSeqOfElems(result);
  }

  /** `from_cons_list(xs)`: the values up to the `List_Nil`, in order. */
  method FromConsList(xs: List) returns (result: seq<int>)
    ensures result == Elems(xs)
    ensures OfSeq(result) == xs
  {
    result := [];
    var rest := xs;
    while true
      invariant result + Elems(rest) == Elems(xs)
      decreases Length(rest)
    {
      match rest {
        case Nil =>
          OfSeqOfElems(xs);
          return;
        case Cons(v, t) =>
          result := result + [v];
          rest := t;
      }
    }
  }

  /** What `main` prints as the mocked result: the data sorted by
      `mock_sort`, ascending and a permutation of the data, as `sorted(data)`
      is. */
  method MockedSorted(data: seq<int>) returns (arr: seq<int>)
    ensures Sorted(arr) && multiset(arr) == multiset(data)
  {
    var consList := ToConsList(data);
    var mocked := MockSort(consList);
    MockSortSpec(consList);
    arr := FromConsList(mocked);
  }

  /** Converting to a cons list and back gives the list it started from. */
  method RoundTrip(xs: seq<int>) returns (ys: seq<int>)
    ensures ys == xs
  {
    var l := ToConsList(xs);
    ys := FromConsList(l);
  }
}
