/**
 * JavaScript objects and maps with string keys, as their entries in
 * insertion order: reading a key, listing keys and values, and setting a
 * key, which keeps an existing key in place and appends a new one.
 */
module Records {
  import opened Wrappers

  /** The entries of a JavaScript object with string keys, in insertion order. */
  type Record<V> = seq<(string, V)>

  predicate DistinctKeys<V>(r: Record<V>) {
    forall i, j :: 0 <= i < j < |r| ==> r[i].0 != r[j].0
  }

  /** The position of key `k`, if it is present. */
  function KeyIndex<V>(r: Record<V>, k: string): (i: Option<nat>)
    ensures i.Some? ==> i.value < |r| && r[i.value].0 == k
    ensures i.None? ==> forall j :: 0 <= j < |r| ==> r[j].0 != k
  {
    if r == [] then None
    else if r[|r| - 1].0 == k then Some(|r| - 1)
    else KeyIndex(r[..|r| - 1], k)
  }

  /** `Object.keys(r)`. */
  function Keys<V>(r: Record<V>): (ks: seq<string>)
    ensures |ks| == |r| && forall i :: 0 <= i < |r| ==> ks[i] == r[i].0
  {
    seq(|r|, i requires 0 <= i < |r| => r[i].0)
  }

  /** The keys as a set. */
  function KeySet<V>(r: Record<V>): set<string> {
    set i | 0 <= i < |r| :: r[i].0
  }

  /** With distinct keys there are as many keys as entries. */
  lemma {:induction false} KeySetSize<V>(r: Record<V>)
    requires DistinctKeys(r)
    ensures |KeySet(r)| == |r|
  {
    if r != [] {
      var init := r[..|r| - 1];
      KeySetSize(init);
      assert KeySet(r) == KeySet(init) + {r[|r| - 1].0} by {
        forall k | k in KeySet(r) ensures k in KeySet(init) + {r[|r| - 1].0} {
          var i :| 0 <= i < |r| && r[i].0 == k;
          if i < |r| - 1 {
            assert init[i].0 == k;
          }
        }
      }
      assert r[|r| - 1].0 !in KeySet(init);
    }
  }

  function Values<V>(r: Record<V>): (vs: seq<V>)
    ensures |vs| == |r| && forall i :: 0 <= i < |r| ==> vs[i] == r[i].1
  {
    seq(|r|, i requires 0 <= i < |r| => r[i].1)
  }

  /** `obj[k] = v`: an existing key keeps its position, a new one goes last. */
  function SetKey<V>(r: Record<V>, k: string, v: V): (r': Record<V>)
    requires DistinctKeys(r)
    ensures DistinctKeys(r')
    ensures forall x :: x in Keys(r') <==> x in Keys(r) || x == k
    ensures KeyIndex(r', k).Some? && r'[KeyIndex(r', k).value].1 == v
    ensures |r| <= |r'| <= |r| + 1
    ensures forall j :: 0 <= j < |r| && r[j].0 != k ==> r'[j] == r[j]
  {
    match KeyIndex(r, k)
    case Some(i) =>
      var r' := r[i := (k, v)];
      assert Keys(r') == Keys(r);
      r'
    case None =>
      var r' := r + [(k, v)];
      assert Keys(r') == Keys(r) + [k];
      r'
  }

  /** `r.get(k)`, with a missing key read as `None`. */
  function Get<V>(r: Record<V>, k: string): Option<V>
  {
    match KeyIndex(r, k)
    case Some(i) => Some(r[i].1)
    case None => None
  }

  /** Reading a key after setting one. */
  lemma GetSetKey<V>(r: Record<V>, k: string, v: V, k': string)
    requires DistinctKeys(r)
    ensures Get(SetKey(r, k, v), k') == if k' == k then Some(v) else Get(r, k')
  {
    var r' := SetKey(r, k, v);
    if k' != k {
      match KeyIndex(r, k')
      case Some(i) =>
        assert r'[i] == r[i];
        KeyIndexUnique(r', k', i);
      case None =>
    } else {
      KeyIndexUnique(r', k, KeyIndex(r', k).value);
    }
  }

  /** With distinct keys, the entry at a key's position is the one `KeyIndex` finds. */
  lemma KeyIndexUnique<V>(r: Record<V>, k: string, i: nat)
    requires DistinctKeys(r) && i < |r| && r[i].0 == k
    ensures KeyIndex(r, k) == Some(i)
  {
  }

  /** Each entry holds the value `Get` reads for its key. */
  lemma GetAt<V>(r: Record<V>, i: nat)
    requires DistinctKeys(r) && i < |r|
    ensures Get(r, r[i].0) == Some(r[i].1)
  {
    KeyIndexUnique(r, r[i].0, i);
  }
}
