/** `IndexMap`, the insertion-ordered dictionary the crate and the Bend
    library use for ADTs, constructors and definitions, modelled as a
    sequence of entries whose keys are distinct. Order matters: it decides
    which constructor `find_in_ctrs` finds first and which slot a
    constructor gets in `Book::new`. */
module IndexMaps {
  import opened Support

  type Entries<K, V> = seq<(K, V)>

  function Keys<K, V>(m: Entries<K, V>): (ks: seq<K>)
    ensures |ks| == |m| && forall i :: 0 <= i < |m| ==> ks[i] == m[i].0
  {
    seq(|m|, i requires 0 <= i < |m| => m[i].0)
  }

  ghost predicate DistinctKeys<K, V>(m: Entries<K, V>)
  {
    forall i, j :: 0 <= i < j < |m| ==> m[i].0 != m[j].0
  }

  /** The position of `k`. */
  function IndexOf<K(==), V>(m: Entries<K, V>, k: K): (i: nat)
    requires k in Keys(m)
    ensures i < |m| && m[i].0 == k
    ensures forall j :: 0 <= j < i ==> m[j].0 != k
  {
    if m[0].0 == k then 0
    else
      assert Keys(m[1..]) == Keys(m)[1..];
      1 + IndexOf(m[1..], k)
  }

  /** `map.get(k)`. */
  function Get<K(==), V>(m: Entries<K, V>, k: K): (r: Option<V>)
    ensures r.None? <==> k !in Keys(m)
    ensures DistinctKeys(m) ==> forall i :: 0 <= i < |m| && m[i].0 == k ==> r == Some(m[i].1)
  {
    if k in Keys(m) then Some(m[IndexOf(m, k)].1) else None
  }

  /** `map.insert(k, v)`: an existing key keeps its position and gets the new
      value, a new key is appended. */
  function Insert<K(==), V>(m: Entries<K, V>, k: K, v: V): Entries<K, V>
  {
    if k in Keys(m) then m[IndexOf(m, k) := (k, v)] else m + [(k, v)]
  }

  /** `map.swap_remove(k)`: the last entry moves into the hole. */
  function SwapRemove<K(==), V>(m: Entries<K, V>, k: K): (Option<V>, Entries<K, V>)
  {
    if k !in Keys(m) then (None, m)
    else
      var i, last := IndexOf(m, k), |m| - 1;
      if i == last then (Some(m[i].1), m[..last])
      else (Some(m[i].1), m[..last][i := m[last]])
  }

  /** `map.shift_remove(k)`: the entries after the hole move up one place. */
  function ShiftRemove<K(==), V>(m: Entries<K, V>, k: K): Entries<K, V>
  {
    if k !in Keys(m) then m
    else
      var i := IndexOf(m, k);
      m[..i] + m[i + 1..]
  }

  lemma InsertSpec<K, V>(m: Entries<K, V>, k: K, v: V)
    requires DistinctKeys(m)
    ensures DistinctKeys(Insert(m, k, v))
    ensures Get(Insert(m, k, v), k) == Some(v)
    ensures forall k' :: k' != k ==> Get(Insert(m, k, v), k') == Get(m, k')
    ensures k in Keys(m) ==> Keys(Insert(m, k, v)) == Keys(m)
    ensures k !in Keys(m) ==> Keys(Insert(m, k, v)) == Keys(m) + [k]
  {
    var m' := Insert(m, k, v);
    assert m'[if k in Keys(m) then IndexOf(m, k) else |m|] == (k, v);
    forall k' | k' != k
      ensures Get(m', k') == Get(m, k')
    {
      if k' in Keys(m) {
        var i := IndexOf(m, k');
        assert m'[i] == m[i];
      } else {
        assert k' !in Keys(m');
      }
    }
  }

  /** After inserting a key, looking it up gives the inserted value. */
  lemma InsertGetSame<K, V>(m: Entries<K, V>, k: K, v: V)
    ensures Get(Insert(m, k, v), k) == Some(v)
  {
    var m' := Insert(m, k, v);
    if k in Keys(m) {
      assert m'[IndexOf(m, k)] == (k, v);
      assert IndexOf(m', k) == IndexOf(m, k) by {
        var i := IndexOf(m, k);
        assert forall j :: 0 <= j < i ==> m'[j] == m[j];
        assert IndexOf(m', k) <= i;
      }
    } else {
      assert m'[|m|] == (k, v);
      assert forall j :: 0 <= j < |m| ==> m'[j].0 != k;
    }
  }

  /** Inserting one key leaves every other key's lookup alone. */
  lemma InsertGetOther<K, V>(m: Entries<K, V>, k: K, v: V, k': K)
    requires k' != k
    ensures Get(Insert(m, k, v), k') == Get(m, k')
  {
    var m' := Insert(m, k, v);
    if k' in Keys(m) {
      var i := IndexOf(m, k');
      assert m'[i] == m[i];
      assert k' in Keys(m');
    } else {
      assert k' !in Keys(m');
    }
  }

  lemma SwapRemoveSpec<K, V>(m: Entries<K, V>, k: K)
    requires DistinctKeys(m)
    ensures SwapRemove(m, k).0 == Get(m, k)
    ensures DistinctKeys(SwapRemove(m, k).1)
    ensures k !in Keys(SwapRemove(m, k).1)
    ensures forall k' :: k' != k ==> Get(SwapRemove(m, k).1, k') == Get(m, k')
    ensures multiset(SwapRemove(m, k).1) + (if k in Keys(m) then multiset{m[IndexOf(m, k)]} else multiset{}) == multiset(m)
  {
    if k in Keys(m) {
      var i := IndexOf(m, k);
      SwapRemoveShape(m, i);
      SwapRemoveOthers(m, k);
      SwapRemoveMultiset(m, i);
    }
  }

  /** The entries left by `swap_remove` at position i: position i holds the
      former last entry, the others stay. */
  lemma SwapRemoveShape<K, V>(m: Entries<K, V>, i: nat)
    requires DistinctKeys(m) && i < |m|
    ensures var m' := if i == |m| - 1 then m[..|m| - 1] else m[..|m| - 1][i := m[|m| - 1]];
      && |m'| == |m| - 1
      && (forall j :: 0 <= j < |m'| && j != i ==> m'[j] == m[j])
      && (i < |m'| ==> m'[i] == m[|m| - 1])
      && DistinctKeys(m')
      && m[i].0 !in Keys(m')
  {
  }

  lemma SwapRemoveOthers<K, V>(m: Entries<K, V>, k: K)
    requires DistinctKeys(m) && k in Keys(m)
    ensures forall k' :: k' != k ==> Get(SwapRemove(m, k).1, k') == Get(m, k')
  {
    var i, last := IndexOf(m, k), |m| - 1;
    var m' := SwapRemove(m, k).1;
    SwapRemoveShape(m, i);
    forall k' | k' != k
      ensures Get(m', k') == Get(m, k')
    {
      if k' in Keys(m) {
        var j := IndexOf(m, k');
        if j == last {
          assert m'[i] == m[j];
        } else {
          assert m'[j] == m[j];
        }
      } else {
        assert k' !in Keys(m');
      }
    }
  }

  lemma SwapRemoveMultiset<K, V>(m: Entries<K, V>, i: nat)
    requires i < |m|
    ensures var m' := if i == |m| - 1 then m[..|m| - 1] else m[..|m| - 1][i := m[|m| - 1]];
      multiset(m') + multiset{m[i]} == multiset(m)
  {
    var last := |m| - 1;
    if i == last {
      assert m == m[..last] + [m[i]];
    } else {
      assert m == m[..i] + [m[i]] + m[i + 1..last] + [m[last]];
      assert m[..last][i := m[last]] == m[..i] + [m[last]] + m[i + 1..last];
    }
  }

  lemma ShiftRemoveSpec<K, V>(m: Entries<K, V>, k: K)
    requires DistinctKeys(m)
    ensures DistinctKeys(ShiftRemove(m, k))
    ensures k !in Keys(ShiftRemove(m, k))
    ensures forall k' :: k' != k ==> Get(ShiftRemove(m, k), k') == Get(m, k')
    ensures k in Keys(m) ==> Keys(ShiftRemove(m, k)) == Keys(m)[..IndexOf(m, k)] + Keys(m)[IndexOf(m, k) + 1..]
  {
    if k in Keys(m) {
      var i := IndexOf(m, k);
      var m' := ShiftRemove(m, k);
      DropAt(m, i);
      forall k' | k' != k
        ensures Get(m', k') == Get(m, k')
      {
        ShiftRemoveOther(m, k, k');
      }
    }
  }

  lemma ShiftRemoveOther<K, V>(m: Entries<K, V>, k: K, k': K)
    requires DistinctKeys(m) && k in Keys(m) && k' != k
    ensures Get(ShiftRemove(m, k), k') == Get(m, k')
  {
    var i := IndexOf(m, k);
    var m' := m[..i] + m[i + 1..];
    assert ShiftRemove(m, k) == m';
    DropAt(m, i);
    if k' in Keys(m) {
      var j := IndexOf(m, k');
      var j' := if j < i then j else j - 1;
      assert m'[j'] == m[j];
      assert Keys(m')[j'] == k';
    } else {
      forall x | 0 <= x < |m'|
        ensures m'[x].0 != k'
      {
        var y := if x < i then x else x + 1;
        assert m'[x] == m[y];
        assert Keys(m)[y] == m[y].0;
      }
    }
  }

  lemma DropAt<K, V>(m: Entries<K, V>, i: nat)
    requires DistinctKeys(m) && i < |m|
    ensures var m' := m[..i] + m[i + 1..];
      && |m'| == |m| - 1
      && (forall j :: 0 <= j < i ==> m'[j] == m[j])
      && (forall j :: i <= j < |m'| ==> m'[j] == m[j + 1])
      && DistinctKeys(m')
      && m[i].0 !in Keys(m')
      && Keys(m') == Keys(m)[..i] + Keys(m)[i + 1..]
  {
  }

  /** Appending entries leaves the lookups of the keys already present
      alone; the other keys are looked up in the appended entries. */
  lemma GetAppend<K, V>(m: Entries<K, V>, n: Entries<K, V>, k: K)
    ensures Get(m + n, k) == if k in Keys(m) then Get(m, k) else Get(n, k)
  {
    if k in Keys(m) {
      GetAppendLeft(m, n, k);
    } else if k in Keys(n) {
      GetAppendRight(m, n, k);
    } else {
      GetAppendNeither(m, n, k);
    }
  }

  lemma GetAppendLeft<K, V>(m: Entries<K, V>, n: Entries<K, V>, k: K)
    requires k in Keys(m)
    ensures Get(m + n, k) == Get(m, k)
  {
    var mn := m + n;
    var i := IndexOf(m, k);
    assert mn[i] == m[i];
    assert Keys(mn)[i] == k;
    var j := IndexOf(mn, k);
    assert j <= i;
    assert mn[j] == m[j];
  }

  lemma GetAppendRight<K, V>(m: Entries<K, V>, n: Entries<K, V>, k: K)
    requires k !in Keys(m) && k in Keys(n)
    ensures Get(m + n, k) == Get(n, k)
  {
    var mn := m + n;
    var i := IndexOf(n, k);
    assert mn[|m| + i] == n[i];
    assert Keys(mn)[|m| + i] == k;
    var j := IndexOf(mn, k);
    assert forall x :: 0 <= x < |m| ==> mn[x] == m[x];
    assert j >= |m|;
    assert mn[j] == n[j - |m|];
    assert j - |m| <= i;
  }

  lemma GetAppendNeither<K, V>(m: Entries<K, V>, n: Entries<K, V>, k: K)
    requires k !in Keys(m) && k !in Keys(n)
    ensures Get(m + n, k) == None
  {
    var mn := m + n;
    forall x | 0 <= x < |mn|
      ensures mn[x].0 != k
    {
      if x < |m| {
        assert mn[x] == m[x];
        assert Keys(m)[x] == m[x].0;
      } else {
        assert mn[x] == n[x - |m|];
        assert Keys(n)[x - |m|] == n[x - |m|].0;
      }
    }
  }

  /** Two `swap_remove`s in a row: both keys are gone, every other lookup
      stays. */
  lemma SwapRemoveTwice<K, V>(m: Entries<K, V>, a: K, b: K)
    requires DistinctKeys(m)
    ensures var m2 := SwapRemove(SwapRemove(m, a).1, b).1;
      && DistinctKeys(m2) && a !in Keys(m2) && b !in Keys(m2)
      && forall c :: c != a && c != b ==> Get(m2, c) == Get(m, c)
  {
    var m1 := SwapRemove(m, a).1;
    SwapRemoveSpec(m, a);
    SwapRemoveSpec(m1, b);
    var m2 := SwapRemove(m1, b).1;
    if a != b {
      assert Get(m2, a) == Get(m1, a);
    }
  }

  /** `swap_remove` of one key, seen from another key. */
  lemma SwapRemoveKeeps<K, V>(m: Entries<K, V>, k: K, c: K)
    requires DistinctKeys(m) && c != k
    ensures SwapRemove(m, k).0 == Get(m, k)
    ensures DistinctKeys(SwapRemove(m, k).1) && Get(SwapRemove(m, k).1, c) == Get(m, c)
  {
    SwapRemoveSpec(m, k);
  }
}
