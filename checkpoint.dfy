/** Where a run's item counter `_global_item_counter` starts: the largest
    `Zap` already stored, so that the numbers this run hands out follow the
    stored ones. */
module Checkpoint {
  import opened Wrappers
  import opened Values
  import opened Store

  /** The largest number of a non-empty list. */
  function Max(xs: seq<int>): (m: int)
    requires xs != []
    ensures forall i :: 0 <= i < |xs| ==> xs[i] <= m
    ensures exists i :: 0 <= i < |xs| && xs[i] == m
  {
    if |xs| == 1 then xs[0]
    else
      var m := Max(xs[1..]);
      assert forall i :: 1 <= i < |xs| ==> xs[i] == xs[1..][i - 1];
      if xs[0] >= m then xs[0] else m
  }

  /** The `Zap` of every record, as `int(x.get('Zap', 0))` gives it. */
  function ZapKeys(rows: seq<Record>): (ks: seq<int>)
    ensures |ks| == |rows| && forall i :: 0 <= i < |rows| ==> ks[i] == ZapKey(rows[i])
  {
    seq(|rows|, i requires 0 <= i < |rows| => ZapKey(rows[i]))
  }

  /** The counter of the scrapers that resume from their JSON file: 0 when
      the file is missing, cannot be read or holds no records, and when some
      `Zap` does not convert (`max` raises before the assignment);
      otherwise the largest `Zap`. */
  function ResumeCounter(json: FileState): (n: int)
    ensures !json.Present? || json.rows == [] || !ZapsConvert(json.rows) ==> n == 0
    ensures json.Present? && json.rows != [] && ZapsConvert(json.rows) ==>
      && (forall i :: 0 <= i < |json.rows| ==> ZapKey(json.rows[i]) <= n)
      && (exists i :: 0 <= i < |json.rows| && ZapKey(json.rows[i]) == n)
  {
    if json.Present? && json.rows != [] && ZapsConvert(json.rows) then Max(ZapKeys(json.rows)) else 0
  }

  /** `pd.to_numeric(existing_df['Zap'], errors='coerce').dropna()`: the
      `Zap` cells that are numbers, in row order; a row without the column
      has a NaN cell. */
  function NumericZaps(rows: seq<Record>): seq<int> {
    if rows == [] then []
    else
      (match PyInt(Get(rows[0], "Zap")) case Some(z) => [z] case None => []) + NumericZaps(rows[1..])
  }

  /** A number is among the numeric cells exactly when some row's `Zap`
      converts to it. */
  lemma {:induction false} NumericZapsMembers(rows: seq<Record>)
    ensures forall z :: z in NumericZaps(rows) <==> exists i :: 0 <= i < |rows| && PyInt(Get(rows[i], "Zap")) == Some(z)
  {
    if rows != [] {
      var tail := rows[1..];
      NumericZapsMembers(tail);
      forall z ensures z in NumericZaps(rows) <==> exists i :: 0 <= i < |rows| && PyInt(Get(rows[i], "Zap")) == Some(z) {
        if exists i :: 0 <= i < |rows| && PyInt(Get(rows[i], "Zap")) == Some(z) {
          var i :| 0 <= i < |rows| && PyInt(Get(rows[i], "Zap")) == Some(z);
          if i > 0 {
            assert tail[i - 1] == rows[i];
          }
        }
        if z in NumericZaps(tail) {
          var i :| 0 <= i < |tail| && PyInt(Get(tail[i], "Zap")) == Some(z);
          assert rows[i + 1] == tail[i];
        }
      }
    }
  }

  /** What Merkur's start-up reads from its Excel file: the stored rows
      become `all_products_data`, and the counter is the largest numeric
      `Zap`. */
  datatype Resumed = Resumed(rows: seq<Record>, counter: int)

  /** Merkur's resume: nothing and 0 when the sheet is missing or cannot be
      read; otherwise all its rows, and the largest numeric `Zap`, or 0
      when there is none. */
  function MerkurResume(excel: FileState): Resumed {
    if !excel.Present? then Resumed([], 0)
    else
      var zs := NumericZaps(excel.rows);
      Resumed(excel.rows, if zs == [] then 0 else Max(zs))
  }

  /** No numeric cell: no row's `Zap` converts. */
  lemma {:induction false} NoNumericZap(rows: seq<Record>)
    requires NumericZaps(rows) == []
    ensures forall i :: 0 <= i < |rows| ==> PyInt(Get(rows[i], "Zap")).None?
  {
    if rows != [] {
      var tail := rows[1..];
      assert |NumericZaps(rows)| >= |NumericZaps(tail)|;
      NoNumericZap(tail);
      forall i | 1 <= i < |rows| ensures PyInt(Get(rows[i], "Zap")).None? {
        assert rows[i] == tail[i - 1];
      }
    }
  }

  /** Some numeric cell: their largest bounds every `Zap` that converts
      and is the `Zap` of some row. */
  lemma LargestNumericZap(rows: seq<Record>)
    requires NumericZaps(rows) != []
    ensures forall i :: 0 <= i < |rows| && PyInt(Get(rows[i], "Zap")).Some? ==>
      PyInt(Get(rows[i], "Zap")).value <= Max(NumericZaps(rows))
    ensures exists i :: 0 <= i < |rows| && PyInt(Get(rows[i], "Zap")) == Some(Max(NumericZaps(rows)))
  {
    var zs := NumericZaps(rows);
    var m := Max(zs);
    NumericZapsMembers(rows);
    forall i | 0 <= i < |rows| && PyInt(Get(rows[i], "Zap")).Some?
      ensures PyInt(Get(rows[i], "Zap")).value <= m
    {
      var z := PyInt(Get(rows[i], "Zap")).value;
      assert z in zs;
      var j :| 0 <= j < |zs| && zs[j] == z;
    }
    assert m in zs;
  }

  /** The resumed rows are the sheet's (none when it is missing or cannot
      be read); the counter is 0 when no `Zap` cell is a number, and
      otherwise the largest numeric `Zap`, bounding every numeric cell and
      found in some row. */
  lemma MerkurResumeSpec(excel: FileState)
    ensures var r := MerkurResume(excel);
      && r.rows == (if excel.Present? then excel.rows else [])
      && ((forall i :: 0 <= i < |r.rows| ==> PyInt(Get(r.rows[i], "Zap")).None?) ==> r.counter == 0)
      && (forall i :: 0 <= i < |r.rows| && PyInt(Get(r.rows[i], "Zap")).Some? ==>
            PyInt(Get(r.rows[i], "Zap")).value <= r.counter)
      && ((exists i :: 0 <= i < |r.rows| && PyInt(Get(r.rows[i], "Zap")).Some?) ==>
            exists i :: 0 <= i < |r.rows| && PyInt(Get(r.rows[i], "Zap")) == Some(r.counter))
  {
    if excel.Present? {
      if NumericZaps(excel.rows) == [] {
        NoNumericZap(excel.rows);
      } else {
        LargestNumericZap(excel.rows);
      }
    }
  }
}
