/** The part of every scraper's `main` that turns fetched products into
    saved records: the global item counter, the buffer of records not yet
    written, and when the buffer is written. */
module Session {
  import opened Wrappers
  import opened Values
  import opened Merge
  import opened Store

  /** What one product lookup gives back — the record, or nothing when the
      product is skipped or its page cannot be loaded — with the item
      counter after it. */
  datatype Fetched = Fetched(record: Option<Record>, counter: int)

  /** The counter rule the scrapers share: a record that comes back carries
      the next counter value as `Zap`, and the counter moves exactly when a
      record comes back. */
  predicate Numbers(c: int, f: Fetched) {
    if f.record.Some? then f.counter == c + 1 && Get(f.record.value, "Zap") == Int(c + 1)
    else f.counter == c
  }

  /** Records numbered `c + 1`, `c + 2`, ... in order. */
  predicate NumberedFrom(c: int, rs: seq<Record>) {
    forall i :: 0 <= i < |rs| ==> Get(rs[i], "Zap") == Int(c + i + 1)
  }

  /** One unit of work of a run: a product link and the group (`Skupina`)
      its record is filed under. */
  datatype Item<T> = Item(group: string, link: T)

  /** The records a run accepts from `items`, looked up in order with the
      counter threaded through, and the counter at the end. */
  function Accepted<T>(fetch: (Item<T>, int) -> Fetched, items: seq<Item<T>>, c: int): (seq<Record>, int) {
    if items == [] then ([], c)
    else
      var (rs, c') := Accepted(fetch, items[..|items| - 1], c);
      var f := fetch(items[|items| - 1], c');
      (rs + (if f.record.Some? then [f.record.value] else []), f.counter)
  }

  /** When every lookup follows the counter rule, the accepted records are
      numbered without gaps from the starting counter on, and the counter
      ends up advanced by exactly their number. */
  lemma {:induction false} AcceptedNumbered<T>(fetch: (Item<T>, int) -> Fetched, items: seq<Item<T>>, c: int)
    requires forall x, d :: Numbers(d, fetch(x, d))
    ensures NumberedFrom(c, Accepted(fetch, items, c).0)
    ensures Accepted(fetch, items, c).1 == c + |Accepted(fetch, items, c).0|
  {
    if items != [] {
      AcceptedNumbered(fetch, items[..|items| - 1], c);
      var (rs, c') := Accepted(fetch, items[..|items| - 1], c);
      var f := fetch(items[|items| - 1], c');
      assert Numbers(c', f);
    }
  }

  lemma AcceptedSnoc<T>(fetch: (Item<T>, int) -> Fetched, items: seq<Item<T>>, x: Item<T>, c: int)
    ensures var (rs, c') := Accepted(fetch, items, c); var f := fetch(x, c');
      Accepted(fetch, items + [x], c) == (rs + (if f.record.Some? then [f.record.value] else []), f.counter)
  {
    assert (items + [x])[..|items|] == items;
  }

  /** What the store binds once a pending list of records is written to
      it: each key to the last pending record with that key, and to the
      stored record for the other keys. */
  function Binding(rule: KeyRule, f: Files, pending: seq<Record>): map<Value, Record> {
    LastMap(KeyOf(rule), LoadPrior(f)) + LastMap(KeyOf(rule), pending)
  }

  /** Writing a batch with `save_data` makes the store bind what store and
      batch stood for together. */
  lemma SavedBinding(rule: KeyRule, b: seq<Record>, f: Files)
    ensures Binding(rule, Saved(rule, b, f), []) == Binding(rule, f, b)
  {
    if b != [] {
      SavedBinds(rule, b, f);
      BindingOfRows(rule, Saved(rule, b, f), f, b);
    } else {
      assert Saved(rule, b, f) == f;
    }
  }

  /** A store whose rows bind what `f` and `b` bind together binds that with
      nothing pending. */
  lemma BindingOfRows(rule: KeyRule, s: Files, f: Files, b: seq<Record>)
    requires LastMap(KeyOf(rule), LoadPrior(s))
      == LastMap(KeyOf(rule), LoadPrior(f)) + LastMap(KeyOf(rule), b)
    ensures Binding(rule, s, []) == Binding(rule, f, b)
  {
    var key := KeyOf(rule);
    var m := LastMap(key, LoadPrior(s));
    assert Binding(rule, s, []) == m + LastMap(key, []);
    assert LastMap(key, []) == map[];
    UnionEmpty(m);
  }

  /** Overriding with nothing changes nothing. */
  lemma UnionEmpty<K, V>(m: map<K, V>)
    ensures m + map[] == m
  {
  }

  /** One more pending record binds its key to itself. */
  lemma BindingSnoc(rule: KeyRule, f: Files, b: seq<Record>, r: Record)
    ensures Binding(rule, f, b + [r]) == Binding(rule, f, b)[KeyOf(rule)(r) := r]
  {
    var key := KeyOf(rule);
    var a := LastMap(key, LoadPrior(f));
    var m := LastMap(key, b);
    assert LastMap(key, b + [r]) == m[key(r) := r] by {
      LastMapAppend(key, b, [r]);
      SingletonKeys(key, r);
    }
    MapUnionUpdate(a, m, key(r), r);
    assert Binding(rule, f, b) == a + m;
    assert Binding(rule, f, b + [r]) == a + m[key(r) := r];
  }

  /** Overriding with a map updated at `k` is updating the union at `k`. */
  lemma MapUnionUpdate<K, V>(a: map<K, V>, m: map<K, V>, k: K, v: V)
    ensures a + m[k := v] == (a + m)[k := v]
  {
  }

  /** The buffer is written once it holds this many records. */
  const FlushAt := 5

  /** Store and buffer together stand for the starting store with every
      accepted record written over it, and the buffer holds fewer than
      `FlushAt` records. */
  ghost predicate Inv(rule: KeyRule, start: Files, files: Files, buffer: seq<Record>, accepted: seq<Record>) {
    |buffer| < FlushAt && Binding(rule, files, buffer) == Binding(rule, start, accepted)
  }

  /** `buffer.append(det)`, then `save_data(buffer)` and an empty buffer
      once it holds `FlushAt` records. `start` and `accepted` are the store
      before the run and the records accepted so far. */
  method Offer(rule: KeyRule, ghost start: Files, ghost accepted: seq<Record>, files: Files, buffer: seq<Record>, r: Record)
    returns (files': Files, buffer': seq<Record>)
    requires Inv(rule, start, files, buffer, accepted)
    ensures Inv(rule, start, files', buffer', accepted + [r])
    ensures if |buffer| + 1 >= FlushAt then buffer' == [] && files' == Saved(rule, buffer + [r], files)
            else buffer' == buffer + [r] && files' == files
  {
    var b := buffer + [r];
    assert Binding(rule, files, b) == Binding(rule, start, accepted + [r]) by {
      BindingSnoc(rule, files, buffer, r);
      BindingSnoc(rule, start, accepted, r);
    }
    if |b| >= FlushAt {
      files' := SaveData(rule, b, files);
      buffer' := [];
      assert Binding(rule, files', []) == Binding(rule, files, b) by {
        SavedBinding(rule, b, files);
      }
    } else {
      files' := files;
      buffer' := b;
    }
  }

  /** The end of a subcategory: `if buffer: save_data(buffer)`, after
      which the buffer is empty. Afterwards the store itself binds every
      accepted record. */
  method EndSubcategory(rule: KeyRule, ghost start: Files, ghost accepted: seq<Record>, files: Files, buffer: seq<Record>)
    returns (files': Files)
    requires Inv(rule, start, files, buffer, accepted)
    ensures files' == Saved(rule, buffer, files)
    ensures Inv(rule, start, files', [], accepted)
  {
    if buffer != [] {
      files' := SaveData(rule, buffer, files);
    } else {
      files' := files;
    }
    assert Binding(rule, files', []) == Binding(rule, files, buffer) by {
      SavedBinding(rule, buffer, files);
    }
  }

  /** The `finally` block: Zagozen writes a non-empty remainder
      (`flushOnExit`); the others call `save_data([])`, which writes
      nothing, so a remainder left by an interrupted run is lost there. */
  method Finish(rule: KeyRule, flushOnExit: bool, ghost start: Files, ghost accepted: seq<Record>,
                files: Files, buffer: seq<Record>)
    returns (files': Files)
    requires Inv(rule, start, files, buffer, accepted)
    ensures flushOnExit ==> files' == Saved(rule, buffer, files) && Binding(rule, files', []) == Binding(rule, start, accepted)
    ensures !flushOnExit ==> files' == files
  {
    if flushOnExit {
      files' := EndSubcategory(rule, start, accepted, files, buffer);
    } else {
      files' := SaveData(rule, [], files);
    }
  }

  /** The work of a run over the subcategories `subs`, in order, each
      giving its items. */
  function Work<S, T>(subs: seq<S>, items: S -> seq<Item<T>>): seq<Item<T>> {
    if subs == [] then [] else Work(subs[..|subs| - 1], items) + items(subs[|subs| - 1])
  }

  /** `if det:` around `Offer`. */
  method Take(rule: KeyRule, ghost start: Files, ghost accepted: seq<Record>, files: Files, buffer: seq<Record>, f: Fetched)
    returns (files': Files, buffer': seq<Record>)
    requires Inv(rule, start, files, buffer, accepted)
    ensures Inv(rule, start, files', buffer', accepted + (if f.record.Some? then [f.record.value] else []))
    ensures f.record.None? ==> files' == files && buffer' == buffer
  {
    if f.record.Some? {
      files', buffer' := Offer(rule, start, accepted, files, buffer, f.record.value);
    } else {
      files', buffer' := files, buffer;
      assert accepted + [] == accepted;
    }
  }

  /** One more item of a subcategory. */
  lemma AcceptedStep<T>(fetch: (Item<T>, int) -> Fetched, done: seq<Item<T>>, todo: seq<Item<T>>, i: nat, c: int)
    requires i < |todo|
    ensures var (rs, c') := Accepted(fetch, done + todo[..i], c); var f := fetch(todo[i], c');
      Accepted(fetch, done + todo[..i + 1], c) == (rs + (if f.record.Some? then [f.record.value] else []), f.counter)
  {
    AcceptedSnoc(fetch, done + todo[..i], todo[i], c);
    assert todo[..i + 1] == todo[..i] + [todo[i]];
    assert (done + todo[..i]) + [todo[i]] == done + (todo[..i] + [todo[i]]);
  }

  /** The inner loop of `main`: the items of one subcategory, in order.
      It leaves the buffer for the write at the end of the subcategory. */
  method GatherSub<T>(rule: KeyRule, todo: seq<Item<T>>, fetch: (Item<T>, int) -> Fetched,
                      ghost start: Files, ghost done: seq<Item<T>>, ghost accepted: seq<Record>,
                      files: Files, counter: int, c0: int)
    returns (files': Files, buffer: seq<Record>, counter': int, ghost accepted': seq<Record>)
    requires Inv(rule, start, files, [], accepted)
    requires (accepted, counter) == Accepted(fetch, done, c0)
    ensures Inv(rule, start, files', buffer, accepted')
    ensures (accepted', counter') == Accepted(fetch, done + todo, c0)
  {
    files', counter', accepted' := files, counter, accepted;
    buffer := [];
    var i := 0;
    assert done + todo[..0] == done;
    while i < |todo|
      invariant 0 <= i <= |todo|
      invariant Inv(rule, start, files', buffer, accepted')
      invariant (accepted', counter') == Accepted(fetch, done + todo[..i], c0)
    {
      var det := fetch(todo[i], counter');
      AcceptedStep(fetch, done, todo, i, c0);
      files', buffer := Take(rule, start, accepted', files', buffer, det);
      accepted' := accepted' + (if det.record.Some? then [det.record.value] else []);
      counter' := det.counter;
      i := i + 1;
    }
    assert todo[..i] == todo;
  }

  /** The loops of `main` that Kalcer, Tehnoles, Slovenijales and Zagozen
      share: for each subcategory, for each of its items, look the item up
      with the counter threaded through, offer what comes back to the
      buffer, write the buffer at the end of the subcategory, and run the
      `finally` block. Every record accepted from the whole work, in order,
      ends up written over the store, and the counter ends where the
      lookups leave it. Since every subcategory ends with its buffer
      written, the `finally` block here always finds an empty buffer, so
      `flushOnExit` changes nothing on this path; it matters only when an
      exception cuts a subcategory short, which is not modelled. */
  method Gather<S, T>(rule: KeyRule, flushOnExit: bool, subs: seq<S>, items: S -> seq<Item<T>>,
                   fetch: (Item<T>, int) -> Fetched, files: Files, c0: int)
    returns (stored: Files, counter: int)
    ensures var (rs, c) := Accepted(fetch, Work(subs, items), c0);
      counter == c && Binding(rule, stored, []) == Binding(rule, files, rs)
  {
    counter := c0;
    stored := files;
    ghost var accepted: seq<Record> := [];
    var s := 0;
    assert subs[..0] == [];
    while s < |subs|
      invariant 0 <= s <= |subs|
      invariant Inv(rule, files, stored, [], accepted)
      invariant (accepted, counter) == Accepted(fetch, Work(subs[..s], items), c0)
    {
      assert subs[..s + 1][..s] == subs[..s];
      var buffer;
      stored, buffer, counter, accepted := GatherSub(rule, items(subs[s]), fetch, files, Work(subs[..s], items), accepted, stored, counter, c0);
      stored := EndSubcategory(rule, files, accepted, stored, buffer);
      s := s + 1;
    }
    stored := Finish(rule, flushOnExit, files, accepted, stored, []);
    assert subs[..s] == subs;
  }
}
