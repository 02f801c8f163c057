/**
  The recursive filter applied to the payload before it is sent: every null
  value and every array that is (or becomes) empty is removed, at any depth,
  and everything else stays under its original key and in its original
  order. false, 0 and "" are not removed.
 */
module Pruning {
  import opened Options
  import opened Values

  /** $value !== null && (!is_array($value) || !empty($value)) */
  predicate Kept(w: Value) {
    w != Null && (w.Arr? ==> w.entries != [])
  }

  /** $array_filter_recursive($array). */
  function Prune(v: Value): (r: Value)
    requires v.Arr?
    ensures r.Arr? && |r.entries| <= |v.entries|
    decreases v, 1
  {
    Arr(PruneFrom(v, 0))
  }

  /** One value of the foreach: an array is filtered first, a scalar is
      looked at as it is. */
  function PruneValue(x: Value): Value
    decreases x, 2
  {
    if x.Arr? then Prune(x) else x
  }

  /** The foreach from position i on. */
  function PruneFrom(v: Value, i: nat): (r: seq<Entry>)
    requires v.Arr? && i <= |v.entries|
    ensures |r| <= |v.entries| - i
    decreases v, 0, |v.entries| - i
  {
    if i == |v.entries| then []
    else
      var e := v.entries[i];
      var w := PruneValue(e.val);
      (if Kept(w) then [Entry(e.key, w)] else []) + PruneFrom(v, i + 1)
  }

  /** No null and no empty array anywhere below v. */
  predicate Clean(v: Value)
    decreases v
  {
    v.Arr? ==> forall i :: 0 <= i < |v.entries| ==>
                 Kept(v.entries[i].val) && Clean(v.entries[i].val)
  }

  // ---------------------------------------------------------------------
  // Nothing null or empty is left

  lemma {:induction false} PruneIsClean(v: Value)
    requires v.Arr?
    ensures Clean(Prune(v))
    decreases v, 1
  {
    PruneFromIsClean(v, 0);
  }

  lemma {:induction false} PruneValueIsClean(x: Value)
    ensures Clean(PruneValue(x))
    decreases x, 2
  {
    if x.Arr? {
      PruneIsClean(x);
    }
  }

  lemma {:induction false} PruneFromIsClean(v: Value, i: nat)
    requires v.Arr? && i <= |v.entries|
    ensures forall j :: 0 <= j < |PruneFrom(v, i)| ==>
              Kept(PruneFrom(v, i)[j].val) && Clean(PruneFrom(v, i)[j].val)
    decreases v, 0, |v.entries| - i
  {
    if i < |v.entries| {
      PruneValueIsClean(v.entries[i].val);
      PruneFromIsClean(v, i + 1);
    }
  }

  // ---------------------------------------------------------------------
  // A clean array is left alone, hence pruning is idempotent

  lemma {:induction false} PruneClean(v: Value)
    requires v.Arr? && Clean(v)
    ensures Prune(v) == v
    decreases v, 1
  {
    PruneFromClean(v, 0);
  }

  lemma {:induction false} PruneValueClean(x: Value)
    requires Clean(x)
    ensures PruneValue(x) == x
    decreases x, 2
  {
    if x.Arr? {
      PruneClean(x);
    }
  }

  lemma {:induction false} PruneFromClean(v: Value, i: nat)
    requires v.Arr? && Clean(v) && i <= |v.entries|
    ensures PruneFrom(v, i) == v.entries[i..]
    decreases v, 0, |v.entries| - i
  {
    if i < |v.entries| {
      var e := v.entries[i];
      PruneValueClean(e.val);
      PruneFromClean(v, i + 1);
      assert v.entries[i..] == [e] + v.entries[i + 1..];
    }
  }

  lemma PruneIdempotent(v: Value)
    requires v.Arr?
    ensures Prune(Prune(v)) == Prune(v)
  {
    PruneIsClean(v);
    PruneClean(Prune(v));
  }

  // ---------------------------------------------------------------------
  // Key by key: what survives under each key

  /** Every key of the result is a key of the input. */
  lemma {:induction false} PruneFromKeys(v: Value, i: nat, k: Key)
    requires v.Arr? && i <= |v.entries|
    requires forall j :: i <= j < |v.entries| ==> v.entries[j].key != k
    ensures Get(PruneFrom(v, i), k) == None
    decreases |v.entries| - i
  {
    if i < |v.entries| {
      PruneFromKeys(v, i + 1, k);
      var rest := PruneFrom(v, i + 1);
      var w := PruneValue(v.entries[i].val);
      if Kept(w) {
        var r := [Entry(v.entries[i].key, w)] + rest;
        assert r[1..] == rest;
      } else {
        assert PruneFrom(v, i) == rest;
      }
    }
  }

  /** k is the key of at most one entry. */
  predicate AtMostOnce(es: seq<Entry>, k: Key) {
    forall a, b :: 0 <= a < b < |es| && es[a].key == k ==> es[b].key != k
  }

  /** When k is the key of at most one entry, the value under k after
      pruning is the pruned value under k before, if that is kept, and
      nothing otherwise. */
  lemma {:induction false} PruneFromGet(v: Value, i: nat, k: Key)
    requires v.Arr? && i <= |v.entries| && AtMostOnce(v.entries, k)
    ensures Get(PruneFrom(v, i), k) == match Get(v.entries[i..], k)
      case None => None
      case Some(x) => if Kept(PruneValue(x)) then Some(PruneValue(x)) else None
    decreases |v.entries| - i
  {
    if i < |v.entries| {
      var e := v.entries[i];
      var w := PruneValue(e.val);
      var rest := PruneFrom(v, i + 1);
      var src := v.entries[i..];
      assert src[0] == e && src[1..] == v.entries[i + 1..];
      if e.key == k {
        if Kept(w) {
          assert PruneFrom(v, i) == [Entry(k, w)] + rest;
        } else {
          assert PruneFrom(v, i) == rest;
          PruneFromKeys(v, i + 1, k);
        }
      } else {
        PruneFromGet(v, i + 1, k);
        if Kept(w) {
          var r := [Entry(e.key, w)] + rest;
          assert r[1..] == rest;
        } else {
          assert PruneFrom(v, i) == rest;
        }
      }
    }
  }

  lemma PruneGet(v: Value, k: Key)
    requires v.Arr? && AtMostOnce(v.entries, k)
    ensures Get(Prune(v).entries, k) == match Get(v.entries, k)
      case None => None
      case Some(x) => if Kept(PruneValue(x)) then Some(PruneValue(x)) else None
  {
    PruneFromGet(v, 0, k);
    assert v.entries[0..] == v.entries;
  }

  /** In particular a non-null scalar, false, 0 and "" included, stays under
      its key. */
  lemma PruneKeepsScalar(v: Value, k: Key, x: Value)
    requires v.Arr? && AtMostOnce(v.entries, k)
    requires Get(v.entries, k) == Some(x) && !x.Arr? && x != Null
    ensures Get(Prune(v).entries, k) == Some(x)
  {
    PruneGet(v, k);
  }

  /** A null value, or an array with nothing left after its own pruning,
      disappears together with its key. */
  lemma PruneDropsEmpty(v: Value, k: Key, x: Value)
    requires v.Arr? && AtMostOnce(v.entries, k)
    requires Get(v.entries, k) == Some(x)
    requires x == Null || (x.Arr? && Prune(x).entries == [])
    ensures Get(Prune(v).entries, k) == None
  {
    PruneGet(v, k);
  }

  /** Pruning never introduces a key twice. */
  lemma {:induction false} PruneFromKeysUnique(v: Value, i: nat)
    requires v.Arr? && i <= |v.entries| && KeysUnique(v.entries)
    ensures KeysUnique(PruneFrom(v, i))
    decreases |v.entries| - i
  {
    if i < |v.entries| {
      PruneFromKeysUnique(v, i + 1);
      PruneFromKeys(v, i + 1, v.entries[i].key);
      PruneFromStepUnique(v, i);
    }
  }

  /** One step of the foreach keeps the keys apart when the current key is
      not among those kept after it. */
  lemma PruneFromStepUnique(v: Value, i: nat)
    requires v.Arr? && i < |v.entries|
    requires KeysUnique(PruneFrom(v, i + 1)) && Get(PruneFrom(v, i + 1), v.entries[i].key) == None
    ensures KeysUnique(PruneFrom(v, i))
  {
    var e := v.entries[i];
    var w := PruneValue(e.val);
    var rest := PruneFrom(v, i + 1);
    if Kept(w) {
      ConsKeysUnique(Entry(e.key, w), rest);
      assert PruneFrom(v, i) == [Entry(e.key, w)] + rest;
    } else {
      assert PruneFrom(v, i) == rest;
    }
  }

  /** An entry whose key is absent from a duplicate-free rest keeps it
      duplicate-free when put in front. */
  lemma ConsKeysUnique(e: Entry, rest: seq<Entry>)
    requires KeysUnique(rest) && Get(rest, e.key) == None
    ensures KeysUnique([e] + rest)
  {
    var r := [e] + rest;
    forall a, b | 0 <= a < b < |r| ensures r[a].key != r[b].key {
      assert r[b] == rest[b - 1];
      if a > 0 {
        assert r[a] == rest[a - 1];
      }
    }
  }

  lemma PruneKeysUnique(v: Value)
    requires v.Arr? && KeysUnique(v.entries)
    ensures KeysUnique(Prune(v).entries)
  {
    PruneFromKeysUnique(v, 0);
  }
}
