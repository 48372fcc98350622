/**
 * CSV row post-processing (app/utils/csv_parser.py): the header row is
 * normalised, every data row is read as a header-to-cell dictionary, and each
 * row becomes a device record (trimmed id, trimmed status or `None`) unless
 * its id cell is missing or blank. Tokenising the CSV text into rows of cells
 * belongs to Python's `csv` module and is not part of this model: the parser
 * starts from the header row and the data rows that tokeniser produces.
 */
module CsvParser {
  import opened Wrappers
  import opened Text
  import Normalize
  import opened Filtering

  /** A device record as the batch engine receives it: an id and an optional status. */
  datatype DeviceRecord = DeviceRecord(id: string, status: Option<string>)

  /** One row as `csv.DictReader` yields it: header to cell, `None` where the row is too short. */
  type Row = map<string, Option<string>>

  /** No later header has the same name as the one at position `i`. */
  predicate IsLastOf(fields: seq<string>, i: nat)
    requires i < |fields|
  {
    forall j :: i < j < |fields| ==> fields[j] != fields[i]
  }

  /**
   * The dictionary `csv.DictReader` builds for one data row: each header in
   * turn is set to its cell, or to `None` when the row is too short, so a
   * later duplicate header wins. (The reader zips headers with cells and then
   * sets every header beyond the end of a short row to `None`; since those
   * headers come after all the zipped ones, the outcome is the same.) Cells
   * beyond the last header go under the reader's `restkey`, which is not a
   * string and so can never be looked up as a column name; they are dropped
   * here.
   */
  function RowDict(fields: seq<string>, cells: seq<string>): (d: Row)
    ensures forall k :: k in d <==> k in fields
    ensures forall i :: |cells| <= i < |fields| ==> d[fields[i]] == None
    ensures forall i :: 0 <= i < |fields| && i < |cells| && IsLastOf(fields, i) ==> d[fields[i]] == Some(cells[i])
  {
    if fields == [] then map[]
    else
      var n := |fields| - 1;
      var prev := RowDict(fields[..n], cells);
      RowDictStep(fields, cells, fields[..n], prev);
      prev[fields[n] := if n < |cells| then Some(cells[n]) else None]
  }

  /** Setting the last header on top of the dictionary of all the others. */
  lemma RowDictStep(fields: seq<string>, cells: seq<string>, init: seq<string>, prev: Row)
    requires fields != [] && init == fields[..|fields| - 1]
    requires forall k :: k in prev <==> k in init
    requires forall i :: |cells| <= i < |init| ==> prev[init[i]] == None
    requires forall i :: 0 <= i < |init| && i < |cells| && IsLastOf(init, i) ==> prev[init[i]] == Some(cells[i])
    ensures var n := |fields| - 1;
            var d := prev[fields[n] := if n < |cells| then Some(cells[n]) else None];
            && (forall k :: k in d <==> k in fields)
            && (forall i :: |cells| <= i < |fields| ==> d[fields[i]] == None)
            && (forall i :: 0 <= i < |fields| && i < |cells| && IsLastOf(fields, i) ==> d[fields[i]] == Some(cells[i]))
  {
    var n := |fields| - 1;
    var d := prev[fields[n] := if n < |cells| then Some(cells[n]) else None];
    assert fields == init + [fields[n]];
    forall i | |cells| <= i < |fields|
      ensures d[fields[i]] == None
    {
      if i < n {
        assert init[i] == fields[i];
      }
    }
    forall i | 0 <= i < |fields| && i < |cells| && IsLastOf(fields, i)
      ensures d[fields[i]] == Some(cells[i])
    {
      if i < n {
        assert init[i] == fields[i];
        assert IsLastOf(init, i);
      }
    }
  }

  /** `row.get(key) or ""`: the cell's text, or "" when the column is missing or the cell is `None`. */
  function Cell(row: Row, key: string): (r: string)
    ensures r == "" <==> key !in row || row[key].None? || row[key].value == ""
    ensures r != "" ==> key in row && row[key] == Some(r)
  {
    if key in row && row[key].Some? then row[key].value else ""
  }

  /** The column `key` gives nothing usable: it is missing, its cell is `None`, or the cell is all white space. */
  predicate BlankCell(row: Row, key: string) {
    key !in row || row[key].None? || AllSpace(row[key].value)
  }

  /** A column is blank exactly when `(row.get(key) or "").strip()` is empty. */
  lemma BlankCellStripsToEmpty(row: Row, key: string)
    ensures BlankCell(row, key) <==> Strip(Cell(row, key)) == ""
    ensures Trimmed(Strip(Cell(row, key)))
  {
    StripEmptyIffAllSpace(Cell(row, key));
  }

  /**
   * The record one row yields: none when the id cell is blank; otherwise the
   * trimmed id, with the trimmed status, or `None` when the status is blank.
   */
  function ParseRow(row: Row): (r: Option<DeviceRecord>)
    ensures r.None? <==> BlankCell(row, "DeviceId")
    ensures r.Some? ==> r.value.id != "" && Trimmed(r.value.id)
    ensures r.Some? ==> (r.value.status.None? <==> BlankCell(row, "Status"))
    ensures r.Some? && r.value.status.Some? ==> r.value.status.value != "" && Trimmed(r.value.status.value)
  {
    BlankCellStripsToEmpty(row, "DeviceId");
    BlankCellStripsToEmpty(row, "Status");
    var podId := Strip(Cell(row, "DeviceId"));
    var status := Strip(Cell(row, "Status"));
    if podId == "" then None
    else Some(DeviceRecord(podId, if status == "" then None else Some(status)))
  }

  /**
   * A kept id is its cell with only white space cut from either end, and so
   * is a kept status: `id == cell[i..j]` with white space in `cell[..i]` and
   * `cell[j..]`.
   */
  lemma ParseRowCutsOnlySpace(row: Row) returns (i: nat, j: nat, k: nat, l: nat)
    requires ParseRow(row).Some?
    ensures var cell := Cell(row, "DeviceId");
            && i <= j <= |cell| && ParseRow(row).value.id == cell[i..j]
            && AllSpace(cell[..i]) && AllSpace(cell[j..])
    ensures var cell := Cell(row, "Status");
            ParseRow(row).value.status.Some? ==>
              && k <= l <= |cell| && ParseRow(row).value.status.value == cell[k..l]
              && AllSpace(cell[..k]) && AllSpace(cell[l..])
  {
    var id, status := Cell(row, "DeviceId"), Cell(row, "Status");
    assert ParseRow(row).value.id == Strip(id);
    assert ParseRow(row).value.status.Some? ==> ParseRow(row).value.status.value == Strip(status);
    i, j := StripCutsOnlySpace(id);
    k, l := StripCutsOnlySpace(status);
  }

  /** The record the data row `cells` yields under the header row `fields`. */
  function RowRecord(fields: seq<string>, cells: seq<string>): Option<DeviceRecord> {
    ParseRow(RowDict(fields, cells))
  }

  /** The record of every data row, `None` for a row that is dropped. */
  function Records(fields: seq<string>, rows: seq<seq<string>>): (r: seq<Option<DeviceRecord>>)
    ensures |r| == |rows|
    ensures forall i :: 0 <= i < |rows| ==> r[i] == RowRecord(fields, rows[i])
  {
    seq(|rows|, i requires 0 <= i < |rows| => RowRecord(fields, rows[i]))
  }

  /** The records the data rows yield, in row order (the specification of the parsing loop). */
  function Parsed(fields: seq<string>, rows: seq<seq<string>>): (r: seq<DeviceRecord>)
    ensures |r| <= |rows|
  {
    Kept(Records(fields, rows))
  }

  /** Parsing one more row appends that row's record, if it has one. */
  lemma ParsedOneMore(fields: seq<string>, rows: seq<seq<string>>, i: nat)
    requires i < |rows|
    ensures Parsed(fields, rows[..i + 1]) ==
              match RowRecord(fields, rows[i])
              case None => Parsed(fields, rows[..i])
              case Some(d) => Parsed(fields, rows[..i]) + [d]
  {
    var xs := Records(fields, rows[..i + 1]);
    assert xs[..i] == Records(fields, rows[..i]);
  }

  /**
   * `parse_csv_devices`: normalises the header row, then walks the data rows
   * and appends a record for every row whose id cell is not blank.
   */
  method ParseCsvDevices(header: Option<seq<string>>, rows: seq<seq<string>>) returns (devices: seq<DeviceRecord>)
    ensures devices == Parsed(Normalize.NormalizeHeaders(header), rows)
    ensures |devices| <= |rows|
    ensures forall k :: 0 <= k < |devices| ==> devices[k].id != "" && Strip(devices[k].id) == devices[k].id
  {
    var fieldnames := Normalize.NormalizeHeaders(header);
    devices := [];
    for i := 0 to |rows|
      invariant devices == Parsed(fieldnames, rows[..i])
    {
      ParsedOneMore(fieldnames, rows, i);
      var row := RowDict(fieldnames, rows[i]);
      var podId := Strip(Cell(row, "DeviceId"));
      var status := Strip(Cell(row, "Status"));
      if podId == "" {
        continue;
      }
      devices := devices + [DeviceRecord(podId, if status == "" then None else Some(status))];
    }
    WholePrefix(rows);
    ParsedIdsAreClean(fieldnames, rows);
  }

  /**
   * What the parser keeps, precisely: the output is the records of the rows
   * at strictly increasing positions `origin`, and every row at any other
   * position has a blank id. So rows are never reordered, blank-id rows
   * (missing column, empty or white-space-only cell) are dropped, no other
   * row is dropped (in particular, repeated ids are all kept), and every id
   * is the non-empty, stripped id cell of its row.
   */
  lemma {:induction false} ParsedKeepsExactlyNonBlankRows(fields: seq<string>, rows: seq<seq<string>>)
    returns (origin: seq<nat>)
    ensures |origin| == |Parsed(fields, rows)|
    ensures forall k, l :: 0 <= k < l < |origin| ==> origin[k] < origin[l]
    ensures forall k :: 0 <= k < |origin| ==> origin[k] < |rows|
    ensures forall k :: 0 <= k < |origin| ==>
              var cell := Cell(RowDict(fields, rows[origin[k]]), "DeviceId");
              Parsed(fields, rows)[k].id == Strip(cell) != ""
    ensures forall k :: 0 <= k < |origin| ==> Some(Parsed(fields, rows)[k]) == RowRecord(fields, rows[origin[k]])
    ensures forall i :: 0 <= i < |rows| && i !in origin ==>
              Strip(Cell(RowDict(fields, rows[i]), "DeviceId")) == ""
  {
    var xs := Records(fields, rows);
    origin := KeptOrigins(xs);
    forall k | 0 <= k < |origin|
      ensures Parsed(fields, rows)[k].id == Strip(Cell(RowDict(fields, rows[origin[k]]), "DeviceId")) != ""
      ensures Some(Parsed(fields, rows)[k]) == RowRecord(fields, rows[origin[k]])
    {
      assert xs[origin[k]] == RowRecord(fields, rows[origin[k]]) == Some(Parsed(fields, rows)[k]);
    }
    forall i | 0 <= i < |rows| && i !in origin
      ensures Strip(Cell(RowDict(fields, rows[i]), "DeviceId")) == ""
    {
      assert xs[i].None?;
      BlankCellStripsToEmpty(RowDict(fields, rows[i]), "DeviceId");
    }
  }

  /** Every parsed id is non-empty and already stripped. */
  lemma ParsedIdsAreClean(fields: seq<string>, rows: seq<seq<string>>)
    ensures forall k :: 0 <= k < |Parsed(fields, rows)| ==>
              Parsed(fields, rows)[k].id != "" && Strip(Parsed(fields, rows)[k].id) == Parsed(fields, rows)[k].id
  {
    var origin := ParsedKeepsExactlyNonBlankRows(fields, rows);
    forall k | 0 <= k < |origin|
      ensures Strip(Parsed(fields, rows)[k].id) == Parsed(fields, rows)[k].id
    {
      StripIdempotent(Cell(RowDict(fields, rows[origin[k]]), "DeviceId"));
    }
  }

  /** A file with a single data row yields that row's record, if it has one. */
  lemma SingleRow(fields: seq<string>, cells: seq<string>)
    ensures Parsed(fields, [cells]) == match RowRecord(fields, cells) case None => [] case Some(d) => [d]
  {
    var xs := Records(fields, [cells]);
    assert xs[..0] == [];
  }

  /** The header row of the two-column example, after normalisation. */
  lemma {:induction false} BomHeaderRowNormalises()
    ensures Normalize.NormalizeHeaders(Some(["\U{FEFF}DeviceId", "Status"])) == ["DeviceId", "Status"]
  {
    TwoHeaders("\U{FEFF}DeviceId", "Status");
    BomDeviceIdHeaderClean();
    StatusHeaderClean();
  }

  lemma TwoHeaders(a: string, b: string)
    ensures Normalize.NormalizeHeaders(Some([a, b])) == [Normalize.CleanHeader(a), Normalize.CleanHeader(b)]
  {
    PairDisplay(Normalize.NormalizeHeaders(Some([a, b])));
  }

  lemma StatusHeaderClean()
    ensures Normalize.CleanHeader("Status") == "Status"
  {
    Normalize.CleanHeaderKeepsCleanName("Status");
  }

  lemma BomDeviceIdHeaderClean()
    ensures Normalize.CleanHeader("\U{FEFF}DeviceId") == "DeviceId"
  {
    assert "\U{FEFF}DeviceId" == [Bom] + "DeviceId";
    Normalize.BomPrefixedHeaderMatches("DeviceId");
  }

  /** The cells of the data row of the two-column example, looked up by column name. */
  lemma ExampleRowCells()
    ensures Cell(RowDict(["DeviceId", "Status"], ["pod-1", "enabled"]), "DeviceId") == "pod-1"
    ensures Cell(RowDict(["DeviceId", "Status"], ["pod-1", "enabled"]), "Status") == "enabled"
  {
    var fields := ["DeviceId", "Status"];
    assert IsLastOf(fields, 0) && IsLastOf(fields, 1);
  }

  /** A non-empty word without surrounding white space is its own `strip()`. */
  lemma StripKeepsWord(w: string)
    requires w != [] && !IsSpace(w[0]) && !IsSpace(w[|w| - 1])
    ensures Strip(w) == w
  {
  }

  /** The data row of the two-column example. */
  lemma {:induction false} ExampleRowRecord()
    ensures RowRecord(["DeviceId", "Status"], ["pod-1", "enabled"]) == Some(DeviceRecord("pod-1", Some("enabled")))
  {
    ExampleRowCells();
    StripKeepsWord("pod-1");
    StripKeepsWord("enabled");
    ParseCleanRow(RowDict(["DeviceId", "Status"], ["pod-1", "enabled"]), "pod-1", "enabled");
  }

  /** A row whose id and status cells are already clean and non-empty yields exactly those two. */
  lemma ParseCleanRow(row: Row, id: string, status: string)
    requires Cell(row, "DeviceId") == id && Strip(id) == id != ""
    requires Cell(row, "Status") == status && Strip(status) == status != ""
    ensures ParseRow(row) == Some(DeviceRecord(id, Some(status)))
  {
  }

  /** A byte-order mark before the first header does not hide the id column (the two-column example). */
  lemma {:induction false} BomHeaderExample()
    ensures Parsed(Normalize.NormalizeHeaders(Some(["\U{FEFF}DeviceId", "Status"])), [["pod-1", "enabled"]])
         == [DeviceRecord("pod-1", Some("enabled"))]
  {
    BomHeaderRowNormalises();
    ExampleRowRecord();
    SingleRow(["DeviceId", "Status"], ["pod-1", "enabled"]);
  }

  /** Without a Status column the status is `None`. */
  lemma {:induction false} MissingStatusColumnExample()
    ensures Parsed(["DeviceId"], [["A"]]) == [DeviceRecord("A", None)]
  {
    var row := RowDict(["DeviceId"], ["A"]);
    assert IsLastOf(["DeviceId"], 0);
    assert Cell(row, "DeviceId") == "A";
    assert Cell(row, "Status") == "";
    assert Strip("A") == "A";
    SingleRow(["DeviceId"], ["A"]);
  }

  /** Repeated ids are not removed at this stage: two equal rows give two equal records. */
  lemma {:induction false} RepeatedIdsKept(fields: seq<string>, cells: seq<string>, d: DeviceRecord)
    requires RowRecord(fields, cells) == Some(d)
    ensures Parsed(fields, [cells, cells]) == [d, d]
  {
    RecordsOfTwo(fields, cells, cells);
    KeptTwice(d);
  }

  lemma RecordsOfTwo(fields: seq<string>, a: seq<string>, b: seq<string>)
    ensures Records(fields, [a, b]) == [RowRecord(fields, a), RowRecord(fields, b)]
  {
    PairDisplay(Records(fields, [a, b]));
  }

  lemma KeptTwice<T>(d: T)
    ensures Kept([Some(d), Some(d)]) == [d, d]
  {
    var xs := [Some(d), Some(d)];
    assert xs[..1] == [Some(d)];
    assert xs[..1][..0] == [];
  }

  /** A row whose id cell is empty is dropped. */
  lemma {:induction false} EmptyIdRowDropped(status: string)
    ensures Parsed(["DeviceId", "Status"], [["", status]]) == []
  {
    var fields := ["DeviceId", "Status"];
    var row := RowDict(fields, ["", status]);
    assert IsLastOf(fields, 0);
    assert row[fields[0]] == Some("");
    SingleRow(fields, ["", status]);
  }
}
