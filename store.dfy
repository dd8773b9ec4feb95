/** The record store every scraper keeps on disk: a JSON list of records and
    an Excel sheet of the same rows, merged with each new batch by a key
    (`save_data`), and Merkur's Excel export (`save_to_excel`), which drops
    duplicate URLs and renumbers `Zap`. */
module Store {
  import opened Wrappers
  import opened Text
  import opened Values
  import opened Merge
  import opened Ordering

  /** What reading one file gives: it is not there, reading it raises, or it
      holds a list of records. */
  datatype FileState = Missing | Unreadable | Present(rows: seq<Record>)

  /** The two files of one store. */
  datatype Files = Files(json: FileState, excel: FileState)

  /** The records already stored: the JSON file when it exists (nothing at
      all when it cannot be read, without falling back to Excel), otherwise
      the Excel file, otherwise nothing. */
  function LoadPrior(f: Files): seq<Record> {
    match f.json
    case Present(rows) => rows
    case Unreadable => []
    case Missing => if f.excel.Present? then f.excel.rows else []
  }

  // ---------------------------------------------------------------------
  // Keys

  /** The product code column, as `str(...).strip()` makes it. */
  function Code(r: Record): string {
    Strip(PyStr(GetOr(r, "Oznaka / naziv", Str(""))))
  }

  /** The URL column as `f"{item.get('URL')}"` renders it. */
  function UrlText(r: Record): string {
    PyStr(Get(r, "URL"))
  }

  /** The key text built from a code and a URL text. */
  function KeyText(code: string, url: string): string {
    if code != [] then "ID_" + code else "URL_" + url
  }

  /** Zagozen's `make_key`: the product code when there is one, else the URL. */
  function MakeKey(r: Record): string {
    KeyText(Code(r), UrlText(r))
  }

  lemma KeyTextSame(ca: string, ua: string, cb: string, ub: string)
    ensures KeyText(ca, ua) == KeyText(cb, ub) <==>
      (ca != [] && ca == cb) || (ca == [] && cb == [] && ua == ub)
  {
    var ka, kb := KeyText(ca, ua), KeyText(cb, ub);
    if ca != [] && cb != [] {
      if ka == kb { assert ca == ka[3..] == kb[3..] == cb; }
    } else if ca == [] && cb == [] {
      if ka == kb { assert ua == ka[4..] == kb[4..] == ub; }
    } else {
      assert ka[0] != kb[0];
    }
  }

  /** Two records share a Zagozen key exactly when they have the same
      non-empty code, or both lack a code and have the same URL text. */
  lemma MakeKeySame(a: Record, b: Record)
    ensures MakeKey(a) == MakeKey(b) <==>
      || (Code(a) != [] && Code(a) == Code(b))
      || (Code(a) == [] && Code(b) == [] && UrlText(a) == UrlText(b))
  {
    KeyTextSame(Code(a), UrlText(a), Code(b), UrlText(b));
  }

  /** `item.get('URL')`: the key of every scraper but Zagozen. */
  function UrlKey(r: Record): Value {
    Get(r, "URL")
  }

  /** Zagozen's key, as a value. */
  function CodeOrUrlKey(r: Record): Value {
    Str(MakeKey(r))
  }

  /** Which key a scraper merges by. */
  datatype KeyRule = ByUrl | ByCodeOrUrl

  function KeyOf(rule: KeyRule): Record -> Value {
    match rule
    case ByUrl => UrlKey
    case ByCodeOrUrl => CodeOrUrlKey
  }

  // ---------------------------------------------------------------------
  // Ordering by Zap

  /** `int(x.get('Zap', 0))`, where it converts. */
  function ZapNumber(r: Record): Option<int> {
    PyInt(GetOr(r, "Zap", Int(0)))
  }

  /** The sort key; used only when every record's `Zap` converts. */
  function ZapKey(r: Record): int {
    ZapNumber(r).GetOr(0)
  }

  predicate ZapsConvert(rs: seq<Record>) {
    forall i :: 0 <= i < |rs| ==> ZapNumber(rs[i]).Some?
  }

  /** `final_list.sort(key=lambda x: int(x.get('Zap', 0)))` inside `try`:
      when some key does not convert the sort raises before moving anything,
      and the merge order stays. */
  function SortByZap(rs: seq<Record>): seq<Record> {
    if ZapsConvert(rs) then SortBy(ZapKey, rs) else rs
  }

  /** What the ordering step promises: a rearrangement; ordered by `Zap`,
      with records of equal `Zap` in merge order, when every `Zap` converts;
      the merge order untouched otherwise. */
  lemma SortByZapSpec(rs: seq<Record>)
    ensures multiset(SortByZap(rs)) == multiset(rs)
    ensures ZapsConvert(rs) ==> Sorted(ZapKey, SortByZap(rs))
    ensures ZapsConvert(rs) ==> forall v :: WithRank(ZapKey, SortByZap(rs), v) == WithRank(ZapKey, rs, v)
    ensures !ZapsConvert(rs) ==> SortByZap(rs) == rs
  {
    SortBySorted(ZapKey, rs);
    forall v ensures WithRank(ZapKey, SortBy(ZapKey, rs), v) == WithRank(ZapKey, rs, v) {
      SortByStable(ZapKey, rs, v);
    }
  }

  // ---------------------------------------------------------------------
  // The Excel sheet: the 17 columns

  const Columns: seq<string> := [
    "Skupina", "Zap", "Oznaka / naziv", "EAN", "Opis", "EM", "Valuta", "DDV", "Proizvajalec",
    "Veljavnost od", "Dobava", "Cena / EM (z DDV)", "Akcijska cena / EM (z DDV)",
    "Cena / EM (brez DDV)", "Akcijska cena / EM (brez DDV)", "URL", "SLIKA URL"]

  function ColumnSet(): set<string> {
    set c | c in Columns
  }

  /** Some record has column `c`, so the data frame has it. */
  predicate HasColumn(rows: seq<Record>, c: string) {
    exists i :: 0 <= i < |rows| && c in rows[i]
  }

  /** The cell of `pd.DataFrame(rows)` after `df[c] = ''` for every missing
      column: the record's value, NaN where only other records have the
      column, '' where no record has it. */
  function Cell(rows: seq<Record>, i: nat, c: string): Value
    requires i < |rows|
  {
    if c in rows[i] then rows[i][c]
    else if HasColumn(rows, c) then Null
    else Str("")
  }

  /** The rows of `df[desired_columns]`. */
  function Project(rows: seq<Record>): (out: seq<Record>)
    ensures |out| == |rows|
  {
    seq(|rows|, i requires 0 <= i < |rows| => map c | c in Columns :: Cell(rows, i, c))
  }

  /** Every projected row has exactly the 17 columns, with the record's
      own value where it has the column, NaN where only other records have
      it, and '' where none has it. */
  lemma ProjectSpec(rows: seq<Record>)
    ensures forall i :: 0 <= i < |Project(rows)| ==> Project(rows)[i].Keys == ColumnSet()
    ensures forall i, c :: 0 <= i < |rows| && c in Columns && c in rows[i] ==>
      c in Project(rows)[i] && Project(rows)[i][c] == rows[i][c]
    ensures forall i, c :: 0 <= i < |rows| && c in Columns && c !in rows[i] ==>
      c in Project(rows)[i] && Project(rows)[i][c] == (if HasColumn(rows, c) then Null else Str(""))
  {
  }

  // ---------------------------------------------------------------------
  // save_data

  /** The store after `save_data(batch, json_path, excel_path)`: nothing for
      an empty batch; otherwise both files hold the merged, ordered list (the
      sheet with the 17 columns). */
  function Saved(rule: KeyRule, batch: seq<Record>, f: Files): Files {
    if batch == [] then f else Written(SortByZap(Merged(KeyOf(rule), LoadPrior(f) + batch)))
  }

  /** Both files after writing `final`: the list, and the list cut to the
      17 columns. */
  function Written(final: seq<Record>): (f: Files)
    ensures f.json == Present(final) && f.excel.Present?
  {
    Files(Present(final), Present(Project(final)))
  }

  /** `save_data`: an early return for an empty batch, then load, merge,
      sort and write both files. */
  method SaveData(rule: KeyRule, batch: seq<Record>, f: Files) returns (f': Files)
    ensures f' == Saved(rule, batch, f)
    ensures batch == [] ==> f' == f
  {
    if batch == [] {
      return f;
    }
    var prior := LoadPrior(f);
    var merged := MergeByKey(KeyOf(rule), prior, batch);
    var final := SortByZap(merged);
    f' := Written(final);
  }

  /** Both files hold the same list after a write: the sheet is the JSON
      list cut to the 17 columns. */
  lemma SavedFilesAgree(rule: KeyRule, batch: seq<Record>, f: Files)
    requires batch != []
    ensures Saved(rule, batch, f).json.Present?
    ensures Saved(rule, batch, f).excel == Present(Project(Saved(rule, batch, f).json.rows))
  {
  }

  /** The upsert law of `save_data`: afterwards the store (read back from the
      JSON file it wrote) binds every key of the old store or of the batch,
      to the batch's last record for that key where the batch has one and
      to the stored record otherwise; no key occurs twice, so it holds one
      record per distinct key. */
  lemma SavedUpsert(rule: KeyRule, batch: seq<Record>, f: Files)
    requires batch != []
    ensures var key := KeyOf(rule); var rows := LoadPrior(Saved(rule, batch, f));
      && DistinctKeys(key, rows)
      && LastMap(key, rows) == LastMap(key, LoadPrior(f)) + LastMap(key, batch)
      && KeySet(key, rows) == KeySet(key, LoadPrior(f)) + KeySet(key, batch)
      && |rows| == |KeySet(key, LoadPrior(f) + batch)|
  {
    var key := KeyOf(rule);
    var all := LoadPrior(f) + batch;
    var m := Merged(key, all);
    var rows := SortByZap(m);
    SavedBinds(rule, batch, f);
    SavedRows(rule, batch, f);
    assert |rows| == |KeySet(key, all)| by {
      MergedSize(key, all);
      SortByZapSpec(m);
      assert |multiset(rows)| == |multiset(m)|;
    }
    LastMapKeys(key, rows);
    LastMapKeys(key, LoadPrior(f));
    LastMapKeys(key, batch);
  }

  /** The binding half of the upsert law, with no duplicate key. */
  lemma SavedBinds(rule: KeyRule, batch: seq<Record>, f: Files)
    requires batch != []
    ensures var key := KeyOf(rule); var rows := LoadPrior(Saved(rule, batch, f));
      && DistinctKeys(key, rows)
      && LastMap(key, rows) == LastMap(key, LoadPrior(f)) + LastMap(key, batch)
  {
    var key := KeyOf(rule);
    var all := LoadPrior(f) + batch;
    var m := Merged(key, all);
    var rows := SortByZap(m);
    SavedRows(rule, batch, f);
    MergedDistinct(key, all);
    MergedContent(key, all);
    LastMapAppend(key, LoadPrior(f), batch);
    SortByZapSpec(m);
    PermutationDistinct(key, m, rows);
    SameRecordsSameMap(key, rows, m);
  }

  lemma SavedRows(rule: KeyRule, batch: seq<Record>, f: Files)
    requires batch != []
    ensures LoadPrior(Saved(rule, batch, f)) == SortByZap(Merged(KeyOf(rule), LoadPrior(f) + batch))
  {
    var final := SortByZap(Merged(KeyOf(rule), LoadPrior(f) + batch));
    assert Saved(rule, batch, f) == Written(final);
  }

  /** The saved list is ordered by `Zap` whenever every `Zap` converts. */
  lemma SavedOrdered(rule: KeyRule, batch: seq<Record>, f: Files)
    requires batch != []
    requires ZapsConvert(Merged(KeyOf(rule), LoadPrior(f) + batch))
    ensures Sorted(ZapKey, LoadPrior(Saved(rule, batch, f)))
  {
    SavedRows(rule, batch, f);
    SortByZapSpec(Merged(KeyOf(rule), LoadPrior(f) + batch));
  }

  /** Saving the same batch again changes no binding. */
  lemma SaveTwiceSameContent(rule: KeyRule, batch: seq<Record>, f: Files)
    requires batch != []
    ensures LastMap(KeyOf(rule), LoadPrior(Saved(rule, batch, Saved(rule, batch, f))))
         == LastMap(KeyOf(rule), LoadPrior(Saved(rule, batch, f)))
  {
    var key := KeyOf(rule);
    var f1 := Saved(rule, batch, f);
    var a := LastMap(key, LoadPrior(f));
    var b := LastMap(key, batch);
    SavedBinds(rule, batch, f);
    SavedBinds(rule, batch, f1);
    assert LastMap(key, LoadPrior(f1)) == a + b;
    UnionAgain(a, b);
  }

  lemma UnionAgain<K, V>(a: map<K, V>, b: map<K, V>)
    ensures (a + b) + b == a + b
  {
  }

  // ---------------------------------------------------------------------
  // Merkur's save_to_excel

  /** Every cell of column `Zap` is a number or NaN, so the column sorts. */
  predicate ZapSortable(t: seq<Record>) {
    forall i :: 0 <= i < |t| ==> Get(t[i], "Zap").Int? || Get(t[i], "Zap").Null?
  }

  /** The rows whose `Zap` is a number (`numeric`) or NaN (`!numeric`). */
  function ZapRows(t: seq<Record>, numeric: bool): (r: seq<Record>)
    ensures forall i :: 0 <= i < |r| ==> Get(r[i], "Zap").Int? == numeric
  {
    if t == [] then []
    else (if Get(t[0], "Zap").Int? == numeric then [t[0]] else []) + ZapRows(t[1..], numeric)
  }

  lemma {:induction false} ZapRowsSplit(t: seq<Record>)
    ensures multiset(ZapRows(t, true)) + multiset(ZapRows(t, false)) == multiset(t)
  {
    if t != [] {
      ZapRowsSplit(t[1..]);
      assert t == [t[0]] + t[1..];
    }
  }

  predicate NumericZapsSorted(rs: seq<Record>) {
    forall i, j :: 0 <= i < j < |rs| && Get(rs[i], "Zap").Int? && Get(rs[j], "Zap").Int? ==>
      Get(rs[i], "Zap").i <= Get(rs[j], "Zap").i
  }

  /** `sort_values(by="Zap")` with NaN placed last: the rows with a numeric
      `Zap` in ascending order, then the NaN rows. */
  function ArrangeByZap(t: seq<Record>): (r: seq<Record>)
    ensures multiset(r) == multiset(t)
    ensures NumericZapsSorted(r)
    ensures forall i, j :: 0 <= i < j < |r| && Get(r[j], "Zap").Int? ==> Get(r[i], "Zap").Int?
  {
    var nums := ZapRows(t, true);
    var sorted := SortBy(ZapKey, nums);
    ArrangeParts(t, nums, sorted);
    sorted + ZapRows(t, false)
  }

  /** The facts `ArrangeByZap` promises, about its two parts. */
  lemma ArrangeParts(t: seq<Record>, nums: seq<Record>, sorted: seq<Record>)
    requires nums == ZapRows(t, true) && sorted == SortBy(ZapKey, nums)
    ensures multiset(sorted + ZapRows(t, false)) == multiset(t)
    ensures NumericZapsSorted(sorted + ZapRows(t, false))
    ensures var r := sorted + ZapRows(t, false);
      forall i, j :: 0 <= i < j < |r| && Get(r[j], "Zap").Int? ==> Get(r[i], "Zap").Int?
  {
    SortBySorted(ZapKey, nums);
    assert multiset(sorted + ZapRows(t, false)) == multiset(t) by {
      ZapRowsSplit(t);
    }
    assert forall i :: 0 <= i < |sorted| ==> Get(sorted[i], "Zap").Int? by {
      forall i | 0 <= i < |sorted| ensures Get(sorted[i], "Zap").Int? {
        assert sorted[i] in multiset(nums);
      }
    }
    NumbersThenNaN(sorted, ZapRows(t, false));
  }

  /** Rows that all have a numeric `Zap`, sorted by it, followed by rows
      with none: the numeric `Zap`s ascend and come first. */
  lemma NumbersThenNaN(sorted: seq<Record>, rest: seq<Record>)
    requires Sorted(ZapKey, sorted)
    requires forall i :: 0 <= i < |sorted| ==> Get(sorted[i], "Zap").Int?
    requires forall i :: 0 <= i < |rest| ==> !Get(rest[i], "Zap").Int?
    ensures NumericZapsSorted(sorted + rest)
    ensures var r := sorted + rest;
      forall i, j :: 0 <= i < j < |r| && Get(r[j], "Zap").Int? ==> Get(r[i], "Zap").Int?
  {
    assert forall i :: 0 <= i < |sorted| ==> ZapKey(sorted[i]) == Get(sorted[i], "Zap").i;
  }

  /** `df_final['Zap'] = df_final.index + 1` */
  function Renumber(rs: seq<Record>): (r: seq<Record>)
    ensures |r| == |rs|
    ensures forall i :: 0 <= i < |r| ==> r[i] == rs[i]["Zap" := Int(i + 1)]
  {
    seq(|rs|, i requires 0 <= i < |rs| => rs[i]["Zap" := Int(i + 1)])
  }

  /** The existing sheet followed by the new rows (`pd.concat`). */
  function Combined(excel: FileState, data: seq<Record>): seq<Record> {
    (if excel.Present? then excel.rows else []) + data
  }

  /** The 17-column table before sorting. */
  function ExportTable(excel: FileState, data: seq<Record>): seq<Record> {
    Project(KeepLast(UrlKey, Combined(excel, data)))
  }

  /** The sheet after `save_to_excel(data, filepath)`: unchanged for empty
      data, when the existing sheet cannot be read and when the `Zap` column
      cannot be sorted (each raises inside the `try`); otherwise the combined
      rows without duplicate URLs, in the 17 columns, ordered by `Zap` and
      renumbered 1..n. */
  function ExportedSheet(data: seq<Record>, excel: FileState): FileState {
    if data == [] || excel.Unreadable? then excel
    else
      var table := ExportTable(excel, data);
      if ZapSortable(table) then Present(Renumber(ArrangeByZap(table))) else excel
  }

  /** Sorting and renumbering only rearranges the rows and overwrites
      `Zap` with the position: every output row is a table row with its new
      number. */
  lemma RenumberedRows(t: seq<Record>)
    ensures |Renumber(ArrangeByZap(t))| == |t|
    ensures forall i :: 0 <= i < |t| ==> (exists j :: 0 <= j < |t| && Renumber(ArrangeByZap(t))[i] == t[j]["Zap" := Int(i + 1)])
  {
    var arranged := ArrangeByZap(t);
    assert |arranged| == |t| by { assert |multiset(arranged)| == |multiset(t)|; }
    forall i | 0 <= i < |t| ensures exists j :: 0 <= j < |t| && Renumber(arranged)[i] == t[j]["Zap" := Int(i + 1)] {
      assert arranged[i] in multiset(t);
      var j :| 0 <= j < |t| && t[j] == arranged[i];
    }
  }

  lemma RenumberKeepsUrls(rs: seq<Record>)
    ensures |Renumber(rs)| == |rs|
    ensures forall i :: 0 <= i < |rs| ==> UrlKey(Renumber(rs)[i]) == UrlKey(rs[i])
  {
    forall i | 0 <= i < |rs| ensures UrlKey(Renumber(rs)[i]) == UrlKey(rs[i]) {
      assert Renumber(rs)[i] == rs[i]["Zap" := Int(i + 1)];
    }
  }

  /** Rearranging and renumbering keeps the URLs of a table, and keeps
      them distinct. */
  lemma RenumberedUrls(t: seq<Record>, arranged: seq<Record>)
    requires multiset(arranged) == multiset(t)
    ensures KeySet(UrlKey, Renumber(arranged)) == KeySet(UrlKey, t)
    ensures DistinctKeys(UrlKey, t) ==> DistinctKeys(UrlKey, Renumber(arranged))
  {
    if DistinctKeys(UrlKey, t) {
      PermutationDistinct(UrlKey, t, arranged);
    }
    SameRecordsSameKeys(UrlKey, t, arranged);
    RenumberKeepsUrls(arranged);
    SameKeysPointwise(UrlKey, arranged, Renumber(arranged));
  }

  /** What Merkur's export promises when it writes: one row per distinct
      URL of the old sheet and the new data, exactly the 17 columns, `Zap`
      renumbered 1..n, and each row otherwise a row of the de-duplicated
      table. */
  lemma ExportedSheetSpec(data: seq<Record>, excel: FileState)
    requires data != [] && !excel.Unreadable? && ZapSortable(ExportTable(excel, data))
    ensures ExportedSheet(data, excel).Present?
    ensures |ExportedSheet(data, excel).rows| == |KeySet(UrlKey, Combined(excel, data))|
    ensures forall i :: 0 <= i < |ExportedSheet(data, excel).rows| ==>
      ExportedSheet(data, excel).rows[i].Keys == ColumnSet() && ExportedSheet(data, excel).rows[i]["Zap"] == Int(i + 1)
    ensures forall i :: 0 <= i < |ExportedSheet(data, excel).rows| ==>
      (exists j :: 0 <= j < |ExportTable(excel, data)| && ExportedSheet(data, excel).rows[i] == ExportTable(excel, data)[j]["Zap" := Int(i + 1)])
  {
    var comb := Combined(excel, data);
    var kept := KeepLast(UrlKey, comb);
    var table := Project(kept);
    assert table == ExportTable(excel, data);
    var out := Renumber(ArrangeByZap(table));
    assert ExportedSheet(data, excel) == Present(out);
    assert |kept| == |KeySet(UrlKey, comb)| by {
      KeepLastSpec(UrlKey, comb);
    }
    RenumberedRows(table);
    assert forall j :: 0 <= j < |table| ==> table[j].Keys == ColumnSet() by {
      ProjectSpec(kept);
    }
    assert "Zap" in ColumnSet();
    RenumberedShape(table, out);
  }

  /** The order of Merkur's export: its rows are the de-duplicated table's
      rows rearranged by their old `Zap`, the numeric ones ascending and the
      NaN ones after them, and the i-th of them numbered i + 1. */
  lemma ExportedSheetOrder(data: seq<Record>, excel: FileState)
    requires data != [] && !excel.Unreadable? && ZapSortable(ExportTable(excel, data))
    ensures var a := ArrangeByZap(ExportTable(excel, data));
      && multiset(a) == multiset(ExportTable(excel, data))
      && NumericZapsSorted(a)
      && (forall i, j :: 0 <= i < j < |a| && Get(a[j], "Zap").Int? ==> Get(a[i], "Zap").Int?)
      && |ExportedSheet(data, excel).rows| == |a|
      && forall i :: 0 <= i < |a| ==> ExportedSheet(data, excel).rows[i] == a[i]["Zap" := Int(i + 1)]
  {
    var a := ArrangeByZap(ExportTable(excel, data));
    assert ExportedSheet(data, excel) == Present(Renumber(a));
  }

  /** Rows each made from some row with exactly the 17 columns by setting
      `Zap` to their position have exactly the 17 columns and that `Zap`. */
  lemma RenumberedShape(table: seq<Record>, out: seq<Record>)
    requires "Zap" in ColumnSet()
    requires forall j :: 0 <= j < |table| ==> table[j].Keys == ColumnSet()
    requires forall i :: 0 <= i < |out| ==> (exists j :: 0 <= j < |table| && out[i] == table[j]["Zap" := Int(i + 1)])
    ensures forall i :: 0 <= i < |out| ==> out[i].Keys == ColumnSet() && out[i]["Zap"] == Int(i + 1)
  {
    forall i | 0 <= i < |out| ensures out[i].Keys == ColumnSet() && out[i]["Zap"] == Int(i + 1) {
      var j :| 0 <= j < |table| && out[i] == table[j]["Zap" := Int(i + 1)];
      assert table[j].Keys == ColumnSet();
    }
  }

  /** When every record has a URL, the exported URLs are exactly those of
      the old sheet and the new data, each once. */
  lemma ExportedUrls(data: seq<Record>, excel: FileState)
    requires data != [] && !excel.Unreadable? && ZapSortable(ExportTable(excel, data))
    requires forall r :: r in Combined(excel, data) ==> "URL" in r
    ensures DistinctKeys(UrlKey, ExportedSheet(data, excel).rows)
    ensures KeySet(UrlKey, ExportedSheet(data, excel).rows) == KeySet(UrlKey, Combined(excel, data))
  {
    var comb := Combined(excel, data);
    var d := KeepLast(UrlKey, comb);
    var table := ExportTable(excel, data);
    KeepLastSpec(UrlKey, comb);
    assert "URL" in Columns;
    assert forall i :: 0 <= i < |d| ==> "URL" in d[i] && UrlKey(table[i]) == UrlKey(d[i]) by {
      forall i | 0 <= i < |d| ensures "URL" in d[i] && UrlKey(table[i]) == UrlKey(d[i]) {
        assert d[i] in d;
      }
    }
    SameKeysPointwise(UrlKey, d, table);
    RenumberedUrls(table, ArrangeByZap(table));
  }
}
