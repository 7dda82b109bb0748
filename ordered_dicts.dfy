/**
 * A Python `dict` kept as its items in insertion order, which is the order
 * iterating over it visits them. Assigning to a key already present keeps
 * its place and replaces its value; a new key goes last. The text
 * processor's `searchspace` is built this way from three dicts, and the
 * order decides which pattern is tried first.
 */
module OrderedDicts {
  import opened Wrappers

  predicate UniqueKeys<K(==), V>(d: seq<(K, V)>)
  {
    forall i, j :: 0 <= i < j < |d| ==> d[i].0 != d[j].0
  }

  /** The place of `k`, if it is a key. */
  function KeyIndex<K(==), V>(d: seq<(K, V)>, k: K): (r: Option<nat>)
    ensures r.Some? ==> r.value < |d| && d[r.value].0 == k && forall j :: 0 <= j < r.value ==> d[j].0 != k
    ensures r.None? ==> forall j :: 0 <= j < |d| ==> d[j].0 != k
  {
    if d == [] then None
    else if d[0].0 == k then Some(0)
    else match KeyIndex(d[1..], k)
      case None => None
      case Some(i) => Some(i + 1)
  }

  /** `d[k]`, `None` standing for `KeyError`. */
  function Lookup<K(==), V>(d: seq<(K, V)>, k: K): Option<V>
  {
    match KeyIndex(d, k)
    case None => None
    case Some(i) => Some(d[i].1)
  }

  /** `d[k] = v`. */
  function Put<K(==), V>(d: seq<(K, V)>, k: K, v: V): seq<(K, V)>
  {
    match KeyIndex(d, k)
    case Some(i) => d[i := (k, v)]
    case None => d + [(k, v)]
  }

  /** `{**d, **more}`, or `d.update(more)`. */
  function PutAll<K(==), V>(d: seq<(K, V)>, more: seq<(K, V)>): seq<(K, V)>
  {
    if more == [] then d
    else
      var (k, v) := more[|more| - 1];
      Put(PutAll(d, more[..|more| - 1]), k, v)
  }

  /** The value the last item with key `k` carries, if any. */
  function LastValue<K(==), V>(more: seq<(K, V)>, k: K): (r: Option<V>)
    ensures r.None? <==> forall j :: 0 <= j < |more| ==> more[j].0 != k
    ensures r.Some? ==> exists j :: 0 <= j < |more| && more[j] == (k, r.value)
  {
    if more == [] then None
    else if more[|more| - 1].0 == k then Some(more[|more| - 1].1)
    else LastValue(more[..|more| - 1], k)
  }

  /** After `d[k] = v`, `k` maps to `v`, every other key to what it did, the
   *  keys already there keep their places, and no key appears twice. */
  lemma PutSpec<K, V>(d: seq<(K, V)>, k: K, v: V)
    requires UniqueKeys(d)
    ensures var r := Put(d, k, v);
      && UniqueKeys(r)
      && Lookup(r, k) == Some(v)
      && (forall k' :: k' != k ==> Lookup(r, k') == Lookup(d, k'))
      && |d| <= |r| && (forall i :: 0 <= i < |d| ==> r[i].0 == d[i].0)
      && |r| == (if KeyIndex(d, k).Some? then |d| else |d| + 1)
  {
    var r := Put(d, k, v);
    match KeyIndex(d, k)
    case Some(i) =>
      assert r == d[i := (k, v)];
      assert forall j :: 0 <= j < |d| ==> r[j].0 == d[j].0;
      assert UniqueKeys(r);
      UniqueLookup(r, k);
      forall k' | k' != k ensures Lookup(r, k') == Lookup(d, k') {
        UniqueLookup(d, k');
        UniqueLookup(r, k');
        if j :| 0 <= j < |d| && d[j].0 == k' {
          assert r[j] == d[j];
        }
      }
    case None =>
      assert r == d + [(k, v)];
      assert UniqueKeys(r);
      UniqueLookup(r, k);
      assert r[|d|] == (k, v);
      forall k' | k' != k ensures Lookup(r, k') == Lookup(d, k') {
        UniqueLookup(d, k');
        UniqueLookup(r, k');
        if j :| 0 <= j < |d| && d[j].0 == k' {
          assert r[j] == d[j];
        }
      }
  }

  /** With unique keys, `Lookup` finds the one item that has the key. */
  lemma UniqueLookup<K, V>(d: seq<(K, V)>, k: K)
    requires UniqueKeys(d)
    ensures forall i :: 0 <= i < |d| && d[i].0 == k ==> Lookup(d, k) == Some(d[i].1)
    ensures (forall i :: 0 <= i < |d| ==> d[i].0 != k) ==> Lookup(d, k).None?
  {
  }

  /** After `d.update(more)`, each key of `more` maps to its last value
   *  there, every other key to what it did in `d`, the keys of `d` keep
   *  their places, and no key appears twice. */
  lemma {:induction false} PutAllSpec<K, V>(d: seq<(K, V)>, more: seq<(K, V)>)
    requires UniqueKeys(d)
    ensures var r := PutAll(d, more);
      && UniqueKeys(r)
      && (forall k :: Lookup(r, k) == if LastValue(more, k).Some? then LastValue(more, k) else Lookup(d, k))
      && |d| <= |r| && (forall i :: 0 <= i < |d| ==> r[i].0 == d[i].0)
  {
    if more != [] {
      var front := more[..|more| - 1];
      var (k, v) := more[|more| - 1];
      PutAllSpec(d, front);
      PutSpec(PutAll(d, front), k, v);
    }
  }

  /** `PutAllSpec` at one key. */
  lemma PutAllAt<K, V>(d: seq<(K, V)>, more: seq<(K, V)>, k: K)
    requires UniqueKeys(d)
    ensures UniqueKeys(PutAll(d, more))
    ensures Lookup(PutAll(d, more), k) == if LastValue(more, k).Some? then LastValue(more, k) else Lookup(d, k)
  {
    PutAllSpec(d, more);
  }

  /** An item whose key `more` does not have stays as it is, in its place. */
  lemma PutAllKeeps<K, V>(d: seq<(K, V)>, more: seq<(K, V)>, i: nat)
    requires UniqueKeys(d) && i < |d| && LastValue(more, d[i].0).None?
    ensures i < |PutAll(d, more)| && PutAll(d, more)[i] == d[i]
  {
    PutAllSpec(d, more);
    UniqueLookup(d, d[i].0);
    UniqueLookup(PutAll(d, more), d[i].0);
  }

  /** Items none of which carries `v` give no key the value `v`. */
  lemma NoLastValue<K, V>(more: seq<(K, V)>, k: K, v: V)
    requires forall j :: 0 <= j < |more| ==> more[j].1 != v
    ensures LastValue(more, k) != Some(v)
  {
  }

  /** `d.update(more)` keeps the keys unique and loses no item. */
  lemma PutAllGrows<K, V>(d: seq<(K, V)>, more: seq<(K, V)>)
    requires UniqueKeys(d)
    ensures UniqueKeys(PutAll(d, more)) && |d| <= |PutAll(d, more)|
  {
    PutAllSpec(d, more);
  }

  /** With unique keys, the place of an item's key is that item's place. */
  lemma UniqueIndex<K, V>(d: seq<(K, V)>, i: nat)
    requires UniqueKeys(d) && i < |d|
    ensures KeyIndex(d, d[i].0) == Some(i)
  {
  }

  /** The keys already there keep their places. */
  lemma PutAllPlace<K, V>(d: seq<(K, V)>, more: seq<(K, V)>, i: nat)
    requires UniqueKeys(d) && i < |d|
    ensures i < |PutAll(d, more)| && PutAll(d, more)[i].0 == d[i].0
  {
    PutAllSpec(d, more);
  }
}
