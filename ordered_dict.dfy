/** Python's insertion-ordered `dict`, as far as the server uses it: lookup, `in`,
    assignment `d[k] = v` (which keeps an existing key in its original position),
    `len` and iteration over keys and values. */
module OrderedDict {
  import opened Wrappers

  /** The first position of `k` in `ks`. */
  function FirstIndex<K(==)>(ks: seq<K>, k: K): (r: Option<nat>)
    ensures r.Some? ==> r.value < |ks| && ks[r.value] == k
    ensures r.Some? ==> forall j :: 0 <= j < r.value ==> ks[j] != k
    ensures r.None? <==> k !in ks
  {
    if ks == [] then None
    else if ks[0] == k then Some(0)
    else
      match FirstIndex(ks[1..], k)
      case None => None
      case Some(i) => Some(i + 1)
  }

  /** Adding an element at the back does not move the first position of anything already present. */
  lemma {:induction false} FirstIndexSnoc<K>(ks: seq<K>, x: K, k: K)
    requires k in ks || k != x
    ensures FirstIndex(ks + [x], k) == FirstIndex(ks, k)
  {
    if ks != [] && ks[0] != k {
      assert (ks + [x])[1..] == ks[1..] + [x];
      FirstIndexSnoc(ks[1..], x, k);
    }
  }

  lemma FirstIndexNew<K>(ks: seq<K>, x: K)
    requires x !in ks
    ensures FirstIndex(ks + [x], x) == Some(|ks|)
  {
    var r := FirstIndex(ks + [x], x);
    assert (ks + [x])[|ks|] == x;
  }

  datatype Dict<K(==,!new), V> = Dict(entries: seq<(K, V)>) {

    function Keys(): (ks: seq<K>)
      ensures |ks| == |entries|
    {
      seq(|entries|, i requires 0 <= i < |entries| => entries[i].0)
    }

    /** `list(d.values())`. */
    function Values(): (vs: seq<V>)
      ensures |vs| == |entries|
    {
      seq(|entries|, i requires 0 <= i < |entries| => entries[i].1)
    }

    /** `k in d`. */
    predicate HasKey(k: K) {
      k in Keys()
    }

    /** No key occurs twice: every key has exactly one entry. */
    predicate Distinct() {
      forall i, j :: 0 <= i < j < |entries| ==> entries[i].0 != entries[j].0
    }

    function IndexOf(k: K): (r: Option<nat>)
      ensures r.Some? ==> r.value < |entries| && entries[r.value].0 == k
      ensures r.None? <==> !HasKey(k)
    {
      FirstIndex(Keys(), k)
    }

    /** `d.get(k)`: the value stored under `k`, or `None` when `k` is absent. */
    function Get(k: K): (r: Option<V>)
      ensures r.Some? <==> HasKey(k)
    {
      match IndexOf(k)
      case None => None
      case Some(i) => Some(entries[i].1)
    }

    /** `d[k] = v`: an existing key keeps its position and gets the new value; a new key goes last. */
    function Put(k: K, v: V): (d: Dict<K, V>)
      ensures d.Keys() == if HasKey(k) then Keys() else Keys() + [k]
      ensures d.Get(k) == Some(v)
      ensures forall k' :: k' != k ==> d.Get(k') == Get(k')
      ensures Distinct() ==> d.Distinct()
    {
      match IndexOf(k)
      case Some(i) =>
        var d := Dict(entries[i := (k, v)]);
        assert d.Keys() == Keys();
        d
      case None =>
        var d := Dict(entries + [(k, v)]);
        assert d.Keys() == Keys() + [k];
        forall k' | k' != k ensures d.Get(k') == Get(k') {
          FirstIndexSnoc(Keys(), k, k');
        }
        FirstIndexNew(Keys(), k);
        assert forall i :: 0 <= i < |entries| ==> entries[i].0 == Keys()[i];
        d
    }
  }

  /** In a dict without repeated keys, the key at position `i` maps to the value at position `i`:
      this is what makes `d.values()` line up with `d.keys()`. */
  lemma GetAt<K(!new), V>(d: Dict<K, V>, i: nat)
    requires d.Distinct() && i < |d.entries|
    ensures d.Get(d.Keys()[i]) == Some(d.Values()[i])
  {
    var ks := d.Keys();
    var r := FirstIndex(ks, ks[i]);
    assert ks[i] in ks;
  }

  /** The keys of a sequence of assignments, in order (with repetitions). */
  function Names<K, V>(kvs: seq<(K, V)>): (ks: seq<K>)
    ensures |ks| == |kvs|
  {
    seq(|kvs|, i requires 0 <= i < |kvs| => kvs[i].0)
  }

  /** The keys of all assignments are those of all but the last, then the last one's. */
  lemma NamesSnoc<K, V>(kvs: seq<(K, V)>)
    requires kvs != []
    ensures Names(kvs) == Names(kvs[..|kvs| - 1]) + [kvs[|kvs| - 1].0]
  {
  }

  /** An empty dict after `d[k] = v` for every pair of `kvs`, in order. */
  function PutAll<K(==,!new), V>(kvs: seq<(K, V)>): Dict<K, V> {
    if kvs == [] then Dict([])
    else PutAll(kvs[..|kvs| - 1]).Put(kvs[|kvs| - 1].0, kvs[|kvs| - 1].1)
  }

  /** One more assignment is one more `d[k] = v` on the dict built so far. */
  lemma PutAllSnoc<K(!new), V>(kvs: seq<(K, V)>, k: K, v: V)
    ensures PutAll(kvs + [(k, v)]) == PutAll(kvs).Put(k, v)
  {
    assert (kvs + [(k, v)])[..|kvs|] == kvs;
  }

  /** The value of the last assignment to `k`. */
  function LastValue<K(==), V>(kvs: seq<(K, V)>, k: K): V
    requires k in Names(kvs)
  {
    var n := |kvs| - 1;
    if kvs[n].0 == k then kvs[n].1
    else
      assert Names(kvs) == Names(kvs[..n]) + [kvs[n].0];
      LastValue(kvs[..n], k)
  }

  /** `a` is assigned for the first time before `b` is. */
  predicate AssignedBefore<K(==)>(names: seq<K>, a: K, b: K) {
    var i, j := FirstIndex(names, a), FirstIndex(names, b);
    i.Some? && j.Some? && i.value < j.value
  }

  /** After a sequence of assignments the dict holds every assigned key, and each exactly once. */
  lemma {:induction false} PutAllKeys<K(!new), V>(kvs: seq<(K, V)>)
    ensures PutAll(kvs).Distinct()
    ensures forall k :: PutAll(kvs).HasKey(k) <==> k in Names(kvs)
  {
    if kvs != [] {
      var n := |kvs| - 1;
      var prev := kvs[..n];
      PutAllKeys(prev);
      var d0 := PutAll(prev);
      var d := d0.Put(kvs[n].0, kvs[n].1);
      assert Names(kvs) == Names(prev) + [kvs[n].0];
      forall k' ensures d.HasKey(k') <==> k' in Names(kvs) {
        assert d.HasKey(k') <==> k' in d.Keys();
        assert d0.HasKey(k') <==> k' in d0.Keys();
      }
    }
  }

  /** ... each holding the value of its last assignment. */
  lemma {:induction false} PutAllGet<K(!new), V>(kvs: seq<(K, V)>, k: K)
    requires k in Names(kvs)
    ensures PutAll(kvs).Get(k) == Some(LastValue(kvs, k))
  {
    var n := |kvs| - 1;
    var prev := kvs[..n];
    assert Names(kvs) == Names(prev) + [kvs[n].0];
    if kvs[n].0 != k {
      PutAllGet(prev, k);
    }
  }

  lemma PutAllValues<K(!new), V>(kvs: seq<(K, V)>)
    ensures forall k :: k in Names(kvs) ==> PutAll(kvs).Get(k) == Some(LastValue(kvs, k))
  {
    forall k | k in Names(kvs) ensures PutAll(kvs).Get(k) == Some(LastValue(kvs, k)) {
      PutAllGet(kvs, k);
    }
  }

  /** A key already present before the last assignment keeps its position, and its first
      assignment is where it was. */
  lemma KeptPosition<K(!new), V>(kvs: seq<(K, V)>, x: nat)
    requires kvs != [] && x < |PutAll(kvs[..|kvs| - 1]).Keys()|
    ensures var ks0 := PutAll(kvs[..|kvs| - 1]).Keys();
      && x < |PutAll(kvs).Keys()| && PutAll(kvs).Keys()[x] == ks0[x]
      && ks0[x] in Names(kvs[..|kvs| - 1])
      && FirstIndex(Names(kvs), ks0[x]) == FirstIndex(Names(kvs[..|kvs| - 1]), ks0[x])
  {
    var prev := kvs[..|kvs| - 1];
    var ks0 := PutAll(prev).Keys();
    NamesSnoc(kvs);
    assert ks0[x] in Names(prev) by {
      PutAllKeys(prev);
      assert PutAll(prev).HasKey(ks0[x]);
    }
    FirstIndexSnoc(Names(prev), kvs[|kvs| - 1].0, ks0[x]);
  }

  /** ... and the keys stand in the order of each key's first assignment. */
  lemma {:induction false} PutAllOrderAt<K(!new), V>(kvs: seq<(K, V)>, i: nat, j: nat)
    requires i < j < |PutAll(kvs).Keys()|
    ensures AssignedBefore(Names(kvs), PutAll(kvs).Keys()[i], PutAll(kvs).Keys()[j])
  {
    var n := |kvs| - 1;
    var prev := kvs[..n];
    var k := kvs[n].0;
    var ks0, ks := PutAll(prev).Keys(), PutAll(kvs).Keys();
    assert ks == if PutAll(prev).HasKey(k) then ks0 else ks0 + [k];
    KeptPosition(kvs, i);
    if j < |ks0| {
      KeptPosition(kvs, j);
      PutAllOrderAt(prev, i, j);
    } else {
      assert ks[j] == k && k !in Names(prev) by { PutAllKeys(prev); }
      NamesSnoc(kvs);
      FirstIndexNew(Names(prev), k);
      assert FirstIndex(Names(prev), ks0[i]).Some?;
    }
  }

  lemma PutAllOrder<K(!new), V>(kvs: seq<(K, V)>)
    ensures var ks := PutAll(kvs).Keys();
      forall i, j :: 0 <= i < j < |ks| ==> AssignedBefore(Names(kvs), ks[i], ks[j])
  {
    forall i: nat, j: nat | i < j < |PutAll(kvs).Keys()|
      ensures AssignedBefore(Names(kvs), PutAll(kvs).Keys()[i], PutAll(kvs).Keys()[j])
    {
      PutAllOrderAt(kvs, i, j);
    }
  }

  /** Listing the dict built by the assignments `kvs` gives each assigned key once, in the order of
      its first assignment, beside the value of its last assignment. */
  lemma PutAllListing<K(!new), V>(kvs: seq<(K, V)>)
    ensures var d := PutAll(kvs);
      && d.Distinct()
      && (forall k :: k in d.Keys() <==> k in Names(kvs))
      && (forall i :: 0 <= i < |d.entries| ==> d.Values()[i] == LastValue(kvs, d.Keys()[i]))
      && (forall i, j :: 0 <= i < j < |d.entries| ==> AssignedBefore(Names(kvs), d.Keys()[i], d.Keys()[j]))
  {
    var d := PutAll(kvs);
    PutAllKeys(kvs);
    PutAllValues(kvs);
    PutAllOrder(kvs);
    forall i | 0 <= i < |d.entries| ensures d.Values()[i] == LastValue(kvs, d.Keys()[i]) {
      GetAt(d, i);
    }
  }
}
