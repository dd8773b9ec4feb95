/** The dictionary merge at the heart of every `save_data`: records are put
    into a dictionary by key, in list order, so a later record replaces an
    earlier one with the same key while the key keeps the position where it
    was first inserted; the dictionary's values are then read out in key
    order. Written for any record type and any key function. */
module Merge {
  import opened Text

  /** The keys occurring in a list of records. */
  function KeySet<R, K(!new)>(key: R -> K, rs: seq<R>): set<K> {
    if rs == [] then {} else KeySet(key, rs[..|rs| - 1]) + {key(rs[|rs| - 1])}
  }

  /** No two records of the list share a key. */
  predicate DistinctKeys<R, K(==, !new)>(key: R -> K, rs: seq<R>) {
    forall i, j :: 0 <= i < j < |rs| ==> key(rs[i]) != key(rs[j])
  }

  /** The record each key is bound to after `d[key(item)] = item` for every
      item in order. */
  function LastMap<R, K(!new)>(key: R -> K, rs: seq<R>): map<K, R> {
    if rs == [] then map[]
    else LastMap(key, rs[..|rs| - 1])[key(rs[|rs| - 1]) := rs[|rs| - 1]]
  }

  /** The dictionary's key order: each key where it was first inserted. */
  function FirstKeys<R, K(==, !new)>(key: R -> K, rs: seq<R>): (ks: seq<K>)
    ensures forall k :: k in ks <==> k in LastMap(key, rs)
  {
    if rs == [] then []
    else
      var ks := FirstKeys(key, rs[..|rs| - 1]);
      var k := key(rs[|rs| - 1]);
      if k in ks then ks else ks + [k]
  }

  /** `list(d.values())` after filling the dictionary `d` from `rs`. */
  function Merged<R, K(==, !new)>(key: R -> K, rs: seq<R>): seq<R> {
    var ks := FirstKeys(key, rs);
    var m := LastMap(key, rs);
    seq(|ks|, i requires 0 <= i < |ks| => m[ks[i]])
  }

  // ---------------------------------------------------------------------
  // Key sets

  lemma {:induction false} KeySetAppend<R, K(!new)>(key: R -> K, a: seq<R>, b: seq<R>)
    ensures KeySet(key, a + b) == KeySet(key, a) + KeySet(key, b)
    decreases |b|
  {
    if b == [] {
      assert a + b == a;
    } else {
      assert (a + b)[..|a + b| - 1] == a + b[..|b| - 1];
      KeySetAppend(key, a, b[..|b| - 1]);
    }
  }

  /** A key is in the key set exactly when some record has it. */
  lemma {:induction false} KeySetMembers<R, K(!new)>(key: R -> K, rs: seq<R>)
    ensures forall i :: 0 <= i < |rs| ==> key(rs[i]) in KeySet(key, rs)
    ensures forall k :: k in KeySet(key, rs) ==> exists i :: 0 <= i < |rs| && key(rs[i]) == k
  {
    if rs != [] {
      var init := rs[..|rs| - 1];
      KeySetMembers(key, init);
      assert forall i :: 0 <= i < |init| ==> init[i] == rs[i];
    }
  }

  lemma KeySetOfMember<R, K(!new)>(key: R -> K, rs: seq<R>, k: K) returns (i: nat)
    requires k in KeySet(key, rs)
    ensures i < |rs| && key(rs[i]) == k
  {
    KeySetMembers(key, rs);
    i :| 0 <= i < |rs| && key(rs[i]) == k;
  }

  /** Lists with the same records (counted with multiplicity) have the same
      keys. */
  lemma SameRecordsSameKeys<R, K(!new)>(key: R -> K, a: seq<R>, b: seq<R>)
    requires multiset(a) == multiset(b)
    ensures KeySet(key, a) == KeySet(key, b)
  {
    KeySetMembers(key, a);
    KeySetMembers(key, b);
    forall k | k in KeySet(key, a) ensures k in KeySet(key, b) {
      var i := KeySetOfMember(key, a, k);
      assert a[i] in multiset(b);
      var j :| 0 <= j < |b| && b[j] == a[i];
    }
    forall k | k in KeySet(key, b) ensures k in KeySet(key, a) {
      var j := KeySetOfMember(key, b, k);
      assert b[j] in multiset(a);
      var i :| 0 <= i < |a| && a[i] == b[j];
    }
  }

  /** A record in front of a list without repeated keys keeps it so exactly
      when its key is new. */
  lemma DistinctCons<R, K(!new)>(key: R -> K, x: R, s: seq<R>)
    ensures DistinctKeys(key, [x] + s) <==> key(x) !in KeySet(key, s) && DistinctKeys(key, s)
  {
    var t := [x] + s;
    KeySetMembers(key, s);
    assert forall j :: 0 < j < |t| ==> t[j] == s[j - 1];
    assert t[0] == x;
    if DistinctKeys(key, t) {
      assert forall i :: 0 <= i < |s| ==> key(s[i]) != key(x) by {
        forall i | 0 <= i < |s| ensures key(s[i]) != key(x) {
          assert t[i + 1] == s[i];
          assert key(t[0]) != key(t[i + 1]);
        }
      }
      forall i, j | 0 <= i < j < |s| ensures key(s[i]) != key(s[j]) {
        assert t[i + 1] == s[i] && t[j + 1] == s[j];
        assert key(t[i + 1]) != key(t[j + 1]);
      }
    }
    if key(x) !in KeySet(key, s) && DistinctKeys(key, s) {
      forall i, j | 0 <= i < j < |t| ensures key(t[i]) != key(t[j]) {
        assert t[j] == s[j - 1];
        if i > 0 { assert t[i] == s[i - 1]; }
      }
    }
  }

  lemma DistinctInit<R, K(!new)>(key: R -> K, rs: seq<R>)
    requires rs != [] && DistinctKeys(key, rs)
    ensures DistinctKeys(key, rs[..|rs| - 1])
    ensures key(rs[|rs| - 1]) !in KeySet(key, rs[..|rs| - 1])
  {
    var init := rs[..|rs| - 1];
    assert forall i :: 0 <= i < |init| ==> init[i] == rs[i];
    KeySetMembers(key, init);
    forall k | k in KeySet(key, init) ensures k != key(rs[|rs| - 1]) {
      var i := KeySetOfMember(key, init, k);
    }
  }

  lemma {:induction false} KeySetSizeBound<R, K(!new)>(key: R -> K, rs: seq<R>)
    ensures |KeySet(key, rs)| <= |rs|
  {
    if rs != [] {
      var init := rs[..|rs| - 1];
      KeySetSizeBound(key, init);
      var a := KeySet(key, init);
      var k := key(rs[|rs| - 1]);
      if k in a { assert a + {k} == a; } else { assert |a + {k}| == |a| + 1; }
    }
  }

  /** A list has no repeated key exactly when it has as many keys as
      records. */
  lemma {:induction false} DistinctIffSize<R, K(!new)>(key: R -> K, rs: seq<R>)
    ensures DistinctKeys(key, rs) <==> |KeySet(key, rs)| == |rs|
  {
    if rs != [] {
      var init := rs[..|rs| - 1];
      var a := KeySet(key, init);
      var k := key(rs[|rs| - 1]);
      DistinctIffSize(key, init);
      KeySetSizeBound(key, init);
      DistinctSnoc(key, rs);
      if k in a { assert a + {k} == a; } else { assert |a + {k}| == |a| + 1; }
    }
  }

  lemma DistinctSnoc<R, K(!new)>(key: R -> K, rs: seq<R>)
    requires rs != []
    ensures DistinctKeys(key, rs) <==>
      DistinctKeys(key, rs[..|rs| - 1]) && key(rs[|rs| - 1]) !in KeySet(key, rs[..|rs| - 1])
  {
    var init := rs[..|rs| - 1];
    var x := rs[|rs| - 1];
    assert forall i :: 0 <= i < |init| ==> init[i] == rs[i];
    KeySetMembers(key, init);
    if DistinctKeys(key, init) && key(x) !in KeySet(key, init) {
      forall i, j | 0 <= i < j < |rs| ensures key(rs[i]) != key(rs[j]) {
        if j < |rs| - 1 {
          assert key(init[i]) != key(init[j]);
        } else {
          assert key(init[i]) in KeySet(key, init);
        }
      }
    }
    if DistinctKeys(key, rs) {
      DistinctInit(key, rs);
    }
  }

  /** Rearranging a list without repeated keys leaves none. */
  lemma PermutationDistinct<R, K(!new)>(key: R -> K, a: seq<R>, b: seq<R>)
    requires multiset(a) == multiset(b) && DistinctKeys(key, a)
    ensures DistinctKeys(key, b)
  {
    SameRecordsSameKeys(key, a, b);
    DistinctIffSize(key, a);
    DistinctIffSize(key, b);
    assert |a| == |multiset(a)| == |multiset(b)| == |b|;
  }

  /** Lists whose records have the same keys position by position have the
      same key set, and one repeats a key exactly when the other does. */
  lemma SameKeysPointwise<R, K(!new)>(key: R -> K, a: seq<R>, b: seq<R>)
    requires |a| == |b| && forall i :: 0 <= i < |a| ==> key(a[i]) == key(b[i])
    ensures KeySet(key, a) == KeySet(key, b)
    ensures DistinctKeys(key, a) <==> DistinctKeys(key, b)
  {
    KeySetMembers(key, a);
    KeySetMembers(key, b);
    forall k | k in KeySet(key, a) ensures k in KeySet(key, b) {
      var i := KeySetOfMember(key, a, k);
    }
    forall k | k in KeySet(key, b) ensures k in KeySet(key, a) {
      var i := KeySetOfMember(key, b, k);
    }
  }

  // ---------------------------------------------------------------------
  // The dictionary

  lemma {:induction false} FirstKeysDistinct<R, K(!new)>(key: R -> K, rs: seq<R>)
    ensures forall i, j :: 0 <= i < j < |FirstKeys(key, rs)| ==> FirstKeys(key, rs)[i] != FirstKeys(key, rs)[j]
  {
    if rs != [] {
      var ks := FirstKeys(key, rs[..|rs| - 1]);
      FirstKeysDistinct(key, rs[..|rs| - 1]);
      var k := key(rs[|rs| - 1]);
      if k !in ks {
        var ks' := ks + [k];
        assert FirstKeys(key, rs) == ks';
        assert forall i :: 0 <= i < |ks| ==> ks'[i] == ks[i] != k;
      }
    }
  }

  /** Every record the dictionary holds is stored under its own key and is
      one of the records put in. */
  lemma {:induction false} LastMapWellKeyed<R, K(!new)>(key: R -> K, rs: seq<R>)
    ensures forall k :: k in LastMap(key, rs) ==> key(LastMap(key, rs)[k]) == k
    ensures forall k :: k in LastMap(key, rs) ==> LastMap(key, rs)[k] in rs
  {
    if rs != [] {
      var init := rs[..|rs| - 1];
      LastMapWellKeyed(key, init);
      forall k | k in LastMap(key, init) ensures LastMap(key, init)[k] in rs {
        assert LastMap(key, init)[k] in init;
      }
    }
  }

  /** The dictionary's keys are exactly the keys of the records put in. */
  lemma {:induction false} LastMapKeys<R, K(!new)>(key: R -> K, rs: seq<R>)
    ensures LastMap(key, rs).Keys == KeySet(key, rs)
  {
    if rs != [] { LastMapKeys(key, rs[..|rs| - 1]); }
  }

  /** A record that no later record overrides is the one its key holds. */
  lemma {:induction false} LastMapAt<R, K(!new)>(key: R -> K, rs: seq<R>, i: nat)
    requires i < |rs|
    requires forall j :: i < j < |rs| ==> key(rs[j]) != key(rs[i])
    ensures key(rs[i]) in LastMap(key, rs)
    ensures LastMap(key, rs)[key(rs[i])] == rs[i]
  {
    if i < |rs| - 1 {
      var init := rs[..|rs| - 1];
      assert init[i] == rs[i];
      LastMapAt(key, init, i);
    }
  }

  /** The position of the last record with key `k`. */
  lemma {:induction false} LastIndexOfKey<R, K(!new)>(key: R -> K, rs: seq<R>, k: K) returns (i: nat)
    requires k in LastMap(key, rs)
    ensures i < |rs| && key(rs[i]) == k
    ensures forall j :: i < j < |rs| ==> key(rs[j]) != k
  {
    if key(rs[|rs| - 1]) == k {
      i := |rs| - 1;
    } else {
      var init := rs[..|rs| - 1];
      i := LastIndexOfKey(key, init, k);
      assert init[i] == rs[i];
    }
  }

  /** Filling the dictionary from `xs + ys` is filling it from `xs` and then
      overwriting with what `ys` alone gives: on every key `ys` has, its last
      record wins, whatever `xs` held. */
  lemma {:induction false} LastMapAppend<R, K(!new)>(key: R -> K, xs: seq<R>, ys: seq<R>)
    ensures LastMap(key, xs + ys) == LastMap(key, xs) + LastMap(key, ys)
    decreases |ys|
  {
    if ys == [] {
      assert xs + ys == xs;
    } else {
      var ys' := ys[..|ys| - 1];
      assert (xs + ys)[..|xs + ys| - 1] == xs + ys';
      assert (xs + ys)[|xs + ys| - 1] == ys[|ys| - 1];
      LastMapAppend(key, xs, ys');
    }
  }

  /** In a list without repeated keys every record is the one its key holds. */
  lemma LastMapOfDistinct<R, K(!new)>(key: R -> K, rs: seq<R>)
    requires DistinctKeys(key, rs)
    ensures forall i :: 0 <= i < |rs| ==> key(rs[i]) in LastMap(key, rs) && LastMap(key, rs)[key(rs[i])] == rs[i]
  {
    forall i | 0 <= i < |rs| ensures key(rs[i]) in LastMap(key, rs) && LastMap(key, rs)[key(rs[i])] == rs[i] {
      LastMapAt(key, rs, i);
    }
  }

  // ---------------------------------------------------------------------
  // What the merge promises

  lemma MergedKeys<R, K(!new)>(key: R -> K, rs: seq<R>)
    ensures var out := Merged(key, rs); var ks := FirstKeys(key, rs);
      forall i :: 0 <= i < |out| ==> key(out[i]) == ks[i]
  {
    LastMapWellKeyed(key, rs);
  }

  /** After the merge no two records share a key. */
  lemma MergedDistinct<R, K(!new)>(key: R -> K, rs: seq<R>)
    ensures DistinctKeys(key, Merged(key, rs))
  {
    FirstKeysDistinct(key, rs);
    MergedKeys(key, rs);
  }

  lemma {:induction false} DistinctSeqSize<T>(s: seq<T>)
    requires forall i, j :: 0 <= i < j < |s| ==> s[i] != s[j]
    ensures |set i | 0 <= i < |s| :: s[i]| == |s|
  {
    if s != [] {
      var init := s[..|s| - 1];
      DistinctSeqSize(init);
      var a := set i | 0 <= i < |init| :: init[i];
      var b := set i | 0 <= i < |s| :: s[i];
      assert b == a + {s[|s| - 1]};
      assert s[|s| - 1] !in a;
    }
  }

  /** The merge holds exactly as many records as there are distinct keys
      among the records put in. */
  lemma MergedSize<R, K(!new)>(key: R -> K, rs: seq<R>)
    ensures |Merged(key, rs)| == |KeySet(key, rs)|
  {
    var ks := FirstKeys(key, rs);
    FirstKeysDistinct(key, rs);
    assert forall i, j :: 0 <= i < j < |ks| ==> ks[i] != ks[j];
    DistinctSeqSize(ks);
    LastMapKeys(key, rs);
    assert (set i | 0 <= i < |ks| :: ks[i]) == KeySet(key, rs) by {
      forall k | k in KeySet(key, rs) ensures k in (set i | 0 <= i < |ks| :: ks[i]) {
        var i :| 0 <= i < |ks| && ks[i] == k;
      }
    }
  }

  /** The merge keeps what the dictionary holds: read back into a
      dictionary, it gives the same binding of keys to records. */
  lemma MergedContent<R, K(!new)>(key: R -> K, rs: seq<R>)
    ensures LastMap(key, Merged(key, rs)) == LastMap(key, rs)
  {
    var out := Merged(key, rs);
    var ks := FirstKeys(key, rs);
    var m := LastMap(key, rs);
    MergedDistinct(key, rs);
    MergedKeys(key, rs);
    LastMapOfDistinct(key, out);
    LastMapKeys(key, out);
    LastMapKeys(key, rs);
    KeySetMembers(key, out);
    forall k | k in m ensures k in LastMap(key, out) && LastMap(key, out)[k] == m[k] {
      var i :| 0 <= i < |ks| && ks[i] == k;
      assert key(out[i]) == k;
    }
    forall k | k in LastMap(key, out) ensures k in m {
      var i := KeySetOfMember(key, out, k);
    }
  }

  lemma {:induction false} FirstKeysOfDistinct<R, K(!new)>(key: R -> K, rs: seq<R>)
    requires DistinctKeys(key, rs)
    ensures FirstKeys(key, rs) == seq(|rs|, i requires 0 <= i < |rs| => key(rs[i]))
  {
    if rs != [] {
      var init := rs[..|rs| - 1];
      DistinctInit(key, rs);
      FirstKeysOfDistinct(key, init);
      LastMapKeys(key, init);
    }
  }

  /** A list without repeated keys is its own merge. */
  lemma MergedOfDistinct<R, K(!new)>(key: R -> K, rs: seq<R>)
    requires DistinctKeys(key, rs)
    ensures Merged(key, rs) == rs
  {
    FirstKeysOfDistinct(key, rs);
    LastMapOfDistinct(key, rs);
  }

  /** Every record that no later record overrides ends up in the merge... */
  lemma LastKeptInMerge<R, K(!new)>(key: R -> K, rs: seq<R>, i: nat)
    requires i < |rs|
    requires forall j :: i < j < |rs| ==> key(rs[j]) != key(rs[i])
    ensures rs[i] in Merged(key, rs)
  {
    LastMapAt(key, rs, i);
    var ks := FirstKeys(key, rs);
    var p :| 0 <= p < |ks| && ks[p] == key(rs[i]);
    assert Merged(key, rs)[p] == rs[i];
  }

  /** ...and every record of the merge is such a record. */
  lemma MergeHoldsOnlyLast<R, K(!new)>(key: R -> K, rs: seq<R>, r: R)
    requires r in Merged(key, rs)
    ensures exists i :: (0 <= i < |rs| && rs[i] == r && (forall j :: i < j < |rs| ==> key(rs[j]) != key(rs[i])))
  {
    LastMapWellKeyed(key, rs);
    var i := LastIndexOfKey(key, rs, key(r));
    LastMapAt(key, rs, i);
  }

  /** Two lists without repeated keys and with the same records give the
      same dictionary. */
  lemma SameRecordsSameMap<R, K(!new)>(key: R -> K, a: seq<R>, b: seq<R>)
    requires DistinctKeys(key, a) && DistinctKeys(key, b)
    requires multiset(a) == multiset(b)
    ensures LastMap(key, a) == LastMap(key, b)
  {
    LastMapOfDistinct(key, a);
    LastMapOfDistinct(key, b);
    LastMapKeys(key, a);
    LastMapKeys(key, b);
    SameRecordsSameKeys(key, a, b);
    forall k | k in KeySet(key, a) ensures LastMap(key, a)[k] == LastMap(key, b)[k] {
      var i := KeySetOfMember(key, a, k);
      assert a[i] in multiset(b);
      var j :| 0 <= j < |b| && b[j] == a[i];
    }
  }

  /** The loops of `save_data`: the dictionary built from the stored records,
      then updated from the new ones, and read out in key order. */
  method MergeByKey<R, K(==, !new)>(key: R -> K, stored: seq<R>, incoming: seq<R>) returns (out: seq<R>)
    ensures out == Merged(key, stored + incoming)
  {
    var keys: seq<K> := [];
    var dict: map<K, R> := map[];
    var all := stored + incoming;
    var i := 0;
    while i < |all|
      invariant 0 <= i <= |all|
      invariant keys == FirstKeys(key, all[..i])
      invariant dict == LastMap(key, all[..i])
    {
      var item := all[i];
      var k := key(item);
      assert all[..i + 1][..i] == all[..i];
      if k !in dict {
        keys := keys + [k];
      }
      dict := dict[k := item];
      i := i + 1;
    }
    assert all[..|all|] == all;
    out := seq(|keys|, p requires 0 <= p < |keys| => dict[keys[p]]);
  }

  // ---------------------------------------------------------------------
  // Keeping the last occurrence (`drop_duplicates(keep='last')`)

  /** A record stays when no later record has its key; the kept records
      keep their order. */
  function KeepLast<R, K(==, !new)>(key: R -> K, rs: seq<R>): seq<R> {
    if rs == [] then []
    else (if key(rs[0]) in KeySet(key, rs[1..]) then [] else [rs[0]]) + KeepLast(key, rs[1..])
  }

  lemma SingletonKeys<R, K(!new)>(key: R -> K, x: R)
    ensures KeySet(key, [x]) == {key(x)}
    ensures LastMap(key, [x]) == map[key(x) := x]
  {
    assert [x][..0] == [];
  }

  lemma KeepLastDropped<R, K(!new)>(key: R -> K, x: R, s: seq<R>)
    requires key(x) in KeySet(key, s)
    ensures KeySet(key, [x] + s) == KeySet(key, s)
    ensures LastMap(key, [x] + s) == LastMap(key, s)
  {
    SingletonKeys(key, x);
    KeySetAppend(key, [x], s);
    LastMapAppend(key, [x], s);
    LastMapKeys(key, s);
    assert LastMap(key, [x]) + LastMap(key, s) == LastMap(key, s);
  }

  lemma KeepLastKept<R, K(!new)>(key: R -> K, x: R, s: seq<R>, d: seq<R>)
    requires key(x) !in KeySet(key, s)
    requires DistinctKeys(key, d) && KeySet(key, d) == KeySet(key, s) && LastMap(key, d) == LastMap(key, s)
    ensures DistinctKeys(key, [x] + d)
    ensures KeySet(key, [x] + d) == KeySet(key, [x] + s)
    ensures LastMap(key, [x] + d) == LastMap(key, [x] + s)
  {
    DistinctCons(key, x, d);
    KeySetAppend(key, [x], d);
    KeySetAppend(key, [x], s);
    LastMapAppend(key, [x], d);
    LastMapAppend(key, [x], s);
  }

  /** After dropping earlier duplicates each key occurs once, every key is
      still there, each holds the record of its last occurrence, and nothing
      new appears. */
  lemma {:induction false} KeepLastSpec<R, K(!new)>(key: R -> K, rs: seq<R>)
    ensures DistinctKeys(key, KeepLast(key, rs))
    ensures KeySet(key, KeepLast(key, rs)) == KeySet(key, rs)
    ensures LastMap(key, KeepLast(key, rs)) == LastMap(key, rs)
    ensures |KeepLast(key, rs)| == |KeySet(key, rs)|
    ensures forall r :: r in KeepLast(key, rs) ==> r in rs
  {
    var d := KeepLast(key, rs);
    if rs != [] {
      var x, s := rs[0], rs[1..];
      KeepLastSpec(key, s);
      assert rs == [x] + s;
      if key(x) in KeySet(key, s) {
        assert d == KeepLast(key, s);
        KeepLastDropped(key, x, s);
      } else {
        assert d == [x] + KeepLast(key, s);
        KeepLastKept(key, x, s, KeepLast(key, s));
      }
    }
    DistinctIffSize(key, d);
  }

  /** `drop_duplicates` keeps the surviving rows in their order. */
  lemma {:induction false} KeepLastOrder<R, K(!new)>(key: R -> K, rs: seq<R>)
    ensures IsSubsequence(KeepLast(key, rs), rs)
  {
    if rs != [] {
      var x, s := rs[0], rs[1..];
      var d := KeepLast(key, s);
      KeepLastOrder(key, s);
      assert rs == [x] + s;
      if key(x) in KeySet(key, s) {
        assert KeepLast(key, rs) == d;
        SubsequenceCons(d, s, x);
      } else {
        assert KeepLast(key, rs) == [x] + d;
        assert ([x] + d)[1..] == d;
      }
    }
  }
}
