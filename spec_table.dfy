/** What Kalcer's and Tehnoles's product pages share: the record their
    `get_product_details` starts from, and the loop over the rows of the
    product's specification table. */
module SpecTable {
  import opened Text
  import opened Wrappers
  import opened Values

  const CodeField := "Oznaka / naziv"
  const UnitField := "EM"

  /** The record both scrapers fill in, numbered `zap`. */
  function StartRecord(group: string, zap: int, date: string, url: string): (r: Record)
    ensures Get(r, "Zap") == Int(zap) && Get(r, "URL") == Str(url) && Get(r, "Skupina") == Str(group)
    ensures Get(r, "Veljavnost od") == Str(date) && Get(r, "Valuta") == Str("EUR") && Get(r, "DDV") == Str("22")
    ensures Get(r, CodeField) == Str("") && Get(r, UnitField) == Str("KOS")
    ensures Get(r, "Opis") == Str("") && Get(r, "SLIKA URL") == Str("") && Get(r, "Cena / EM (z DDV)") == Str("")
    ensures r.Keys == {"Skupina", "Zap", "Veljavnost od", "Valuta", "DDV", "URL", "SLIKA URL", "Opis",
                       CodeField, UnitField, "Cena / EM (z DDV)"}
  {
    map["Skupina" := Str(group), "Zap" := Int(zap), "Veljavnost od" := Str(date),
        "Valuta" := Str("EUR"), "DDV" := Str("22"), "URL" := Str(url), "SLIKA URL" := Str(""),
        "Opis" := Str(""), CodeField := Str(""), UnitField := Str("KOS"),
        "Cena / EM (z DDV)" := Str("")]
  }

  /** A two-cell row whose label mentions "Ident" gives the product code. */
  predicate IdentRow(row: seq<string>) {
    |row| == 2 && Contains(row[0], "Ident")
  }

  /** Otherwise a two-cell row whose label mentions "Enota mere" gives the
      unit. */
  predicate UnitRow(row: seq<string>) {
    |row| == 2 && !Contains(row[0], "Ident") && Contains(row[0], "Enota mere")
  }

  /** What one row (its cells' texts) does to the record. */
  function ApplyRow(d: Record, row: seq<string>): Record {
    if IdentRow(row) then d[CodeField := Str(row[1])]
    else if UnitRow(row) then d[UnitField := Str(row[1])]
    else d
  }

  /** The record after the rows, applied in table order. */
  function ApplyRows(d: Record, rows: seq<seq<string>>): Record {
    if rows == [] then d else ApplyRow(ApplyRows(d, rows[..|rows| - 1]), rows[|rows| - 1])
  }

  /** The `for row in rows` loop. */
  method ReadRows(d: Record, rows: seq<seq<string>>) returns (r: Record)
    ensures r == ApplyRows(d, rows)
  {
    r := d;
    var i := 0;
    while i < |rows|
      invariant 0 <= i <= |rows|
      invariant r == ApplyRows(d, rows[..i])
    {
      assert rows[..i + 1][..i] == rows[..i];
      r := ApplyRow(r, rows[i]);
      i := i + 1;
    }
    assert rows[..i] == rows;
  }

  /** Only the code and the unit change. */
  lemma {:induction false} ApplyRowsFrame(d: Record, rows: seq<seq<string>>)
    ensures d.Keys <= ApplyRows(d, rows).Keys <= d.Keys + {CodeField, UnitField}
    ensures forall k :: k in d && k != CodeField && k != UnitField ==> ApplyRows(d, rows)[k] == d[k]
  {
    if rows != [] {
      ApplyRowsFrame(d, rows[..|rows| - 1]);
    }
  }

  /** The frame as lookups: every column but the code and the unit reads
      the same after the rows. */
  lemma ApplyRowsGet(d: Record, rows: seq<seq<string>>)
    ensures forall k :: k != CodeField && k != UnitField ==> Get(ApplyRows(d, rows), k) == Get(d, k)
  {
    ApplyRowsFrame(d, rows);
  }

  /** The value of the last row that passes `keep`, if any. */
  function LastValue(rows: seq<seq<string>>, keep: seq<string> -> bool): Option<string> {
    if rows == [] then None
    else if keep(rows[|rows| - 1]) && |rows[|rows| - 1]| == 2 then Some(rows[|rows| - 1][1])
    else LastValue(rows[..|rows| - 1], keep)
  }

  /** `LastValue` finds the last two-cell row that passes, and nothing
      exactly when there is no such row. */
  lemma {:induction false} LastValueSpec(rows: seq<seq<string>>, keep: seq<string> -> bool)
    ensures LastValue(rows, keep).None? <==> forall i :: 0 <= i < |rows| && |rows[i]| == 2 ==> !keep(rows[i])
    ensures LastValue(rows, keep).Some? ==>
      exists i :: (0 <= i < |rows| && |rows[i]| == 2 && keep(rows[i]) && rows[i][1] == LastValue(rows, keep).value
                   && forall j :: i < j < |rows| && |rows[j]| == 2 ==> !keep(rows[j]))
  {
    if rows != [] {
      var init := rows[..|rows| - 1];
      LastValueSpec(init, keep);
      assert forall i :: 0 <= i < |init| ==> init[i] == rows[i];
      if !(keep(rows[|rows| - 1]) && |rows[|rows| - 1]| == 2) && LastValue(init, keep).Some? {
        var i :| 0 <= i < |init| && |init[i]| == 2 && keep(init[i]) && init[i][1] == LastValue(init, keep).value
          && forall j :: i < j < |init| && |init[j]| == 2 ==> !keep(init[j]);
        assert rows[i] == init[i];
      }
    }
  }

  /** The code is the value of the last "Ident" row, and stays as it was
      when there is none; likewise the unit and the last "Enota mere" row
      among the others. */
  lemma {:induction false} ApplyRowsFields(d: Record, rows: seq<seq<string>>)
    ensures Get(ApplyRows(d, rows), CodeField) ==
      match LastValue(rows, IdentRow) case Some(v) => Str(v) case None => Get(d, CodeField)
    ensures Get(ApplyRows(d, rows), UnitField) ==
      match LastValue(rows, UnitRow) case Some(v) => Str(v) case None => Get(d, UnitField)
  {
    if rows != [] {
      ApplyRowsFields(d, rows[..|rows| - 1]);
    }
  }

}
