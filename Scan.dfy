/** has_round_for_district (app.py:118-158): scan the snapshot's rows in key
    order for the first row whose name cell contains the queried district and
    one of whose trigger cells (name, partner, note) is coloured blue or
    yellow. */
module Scan {
  import opened Text
  import opened Values
  import opened Colour
  import opened RowOrder

  /** Column K holds the hospital or district name, O the partner, P a note. */
  const DISTRICT_COL := 10
  const PARTNER_COL := 14
  const NOTE_COL := 15

  /** The key of the header row. */
  const HEADER_KEY := "1"

  /** The trimmed name, partner and note of the row that was found. */
  datatype Hit = Hit(hospital: string, partner: string, note: string)

  /** What the scan yields: Python's `None`, the result dictionary, or an
      `AttributeError` raised by `.get` on a cell that is not a dictionary. */
  datatype ScanResult = NoRound | Round(hit: Hit) | Raised

  /** What one row does to the scan: pass control to the next row, or end it. */
  datatype Step = Continue | Stop(result: ScanResult)

  /** `str(cell.get("value", "")).strip()`. */
  function CellText(cell: Value): string
    requires cell.VDict?
  {
    Strip(Str(GetOr(cell.entries, "value", VStr(""))))
  }

  /** A dictionary cell whose `backgroundColor` is blue or yellow. */
  predicate Eligible(cell: Value) {
    cell.VDict? && GetColorType(GetOr(cell.entries, "backgroundColor", VNull)).Some?
  }

  /** The row is looked at at all: not the header, a list, and long enough to
      hold the note column. */
  predicate Usable(key: string, row: Value) {
    key != HEADER_KEY && row.VList? && |row.items| > NOTE_COL
  }

  /** The row's name cell contains the (already normalised) query. */
  predicate NameMatches(row: Value, query: string)
    requires row.VList? && |row.items| > NOTE_COL && row.items[DISTRICT_COL].VDict?
  {
    Contains(query, Lower(CellText(row.items[DISTRICT_COL])))
  }

  predicate AnyTriggerEligible(row: Value)
    requires row.VList? && |row.items| > NOTE_COL
  {
    Eligible(row.items[DISTRICT_COL]) || Eligible(row.items[PARTNER_COL]) || Eligible(row.items[NOTE_COL])
  }

  /** The body of the scan loop for one row. */
  function RowStep(key: string, row: Value, query: string): (st: Step)
    ensures !Usable(key, row) ==> st == Continue
    ensures st.Stop? ==> !st.result.NoRound?
  {
    if !Usable(key, row) then Continue else UsableRowStep(row, query)
  }

  /** The scan loop's body for a row that is not skipped outright. */
  function UsableRowStep(row: Value, query: string): (st: Step)
    requires row.VList? && |row.items| > NOTE_COL
    ensures st.Stop? ==> !st.result.NoRound?
  {
    var cells := row.items;
    if !cells[DISTRICT_COL].VDict? then Stop(Raised)
    else if !NameMatches(row, query) then Continue
    else if !AnyTriggerEligible(row) then Continue
    else if !cells[PARTNER_COL].VDict? || !cells[NOTE_COL].VDict? then Stop(Raised)
    else Stop(Round(Hit(CellText(cells[DISTRICT_COL]), CellText(cells[PARTNER_COL]), CellText(cells[NOTE_COL]))))
  }

  /** The cases of one row: it raises when its name cell is not a
      dictionary, or when its name matches and a trigger cell is eligible but
      the partner or note cell is not a dictionary; it is found when its name
      matches, a trigger cell is eligible and all three cells are
      dictionaries; otherwise the scan moves on. */
  lemma RowStepCases(key: string, row: Value, query: string)
    ensures var st := RowStep(key, row, query);
      st == Stop(Raised) <==>
        Usable(key, row) &&
        (!row.items[DISTRICT_COL].VDict? ||
         (NameMatches(row, query) && AnyTriggerEligible(row) &&
          (!row.items[PARTNER_COL].VDict? || !row.items[NOTE_COL].VDict?)))
    ensures var st := RowStep(key, row, query);
      st.Stop? && st.result.Round? <==>
        Usable(key, row) && row.items[DISTRICT_COL].VDict? && NameMatches(row, query) &&
        AnyTriggerEligible(row) && row.items[PARTNER_COL].VDict? && row.items[NOTE_COL].VDict?
    ensures var st := RowStep(key, row, query);
      st.Stop? && st.result.Round? ==>
        st.result.hit == Hit(CellText(row.items[DISTRICT_COL]), CellText(row.items[PARTNER_COL]), CellText(row.items[NOTE_COL]))
  {
  }

  /** The outcome of scanning `rows` in this order. */
  function ScanRows(rows: seq<Entry>, query: string): ScanResult {
    if rows == [] then NoRound
    else match RowStep(rows[0].0, rows[0].1, query)
      case Continue => ScanRows(rows[1..], query)
      case Stop(r) => r
  }

  /** What has_round_for_district returns for `district` on `sheet`. */
  function HasRound(sheet: Value, district: string): ScanResult {
    if !sheet.VDict? then NoRound
    else ScanRows(SortRows(sheet.entries), Strip(Lower(district)))
  }

  /** Scanning from row `i` on is either row `i`'s own result or the scan from
      row `i + 1` on. */
  lemma ScanFrom(rows: seq<Entry>, query: string, i: nat)
    requires i < |rows|
    ensures var st := RowStep(rows[i].0, rows[i].1, query);
      ScanRows(rows[i..], query) == if st.Continue? then ScanRows(rows[i + 1..], query) else st.result
  {
    assert rows[i..][1..] == rows[i + 1..];
  }

  /** The loop over the trigger columns: is one of the name, partner and note
      cells a dictionary whose background is blue or yellow? */
  method TriggerCellColoured(cells: seq<Value>) returns (found: bool)
    requires |cells| > NOTE_COL
    ensures found <==> Eligible(cells[DISTRICT_COL]) || Eligible(cells[PARTNER_COL]) || Eligible(cells[NOTE_COL])
  {
    var cols := [DISTRICT_COL, PARTNER_COL, NOTE_COL];
    var j := 0;
    while j < |cols|
      invariant 0 <= j <= |cols|
      invariant forall k :: 0 <= k < j ==> !Eligible(cells[cols[k]])
    {
      var cell := cells[cols[j]];
      if cell.VDict? {
        var bg := GetOr(cell.entries, "backgroundColor", VNull);
        var colorType := GetColorType(bg);
        if colorType.Some? {
          return true;
        }
      }
      j := j + 1;
    }
    assert !Eligible(cells[cols[0]]) && !Eligible(cells[cols[1]]) && !Eligible(cells[cols[2]]);
    return false;
  }

  /** The body of the row loop: what one row does to the scan. A row whose
      name matches ends the scan as soon as one trigger cell is coloured. */
  method CheckRow(key: string, row: Value, query: string) returns (st: Step)
    ensures st == RowStep(key, row, query)
  {
    if key == HEADER_KEY || !row.VList? {
      return Continue;
    }
    if |row.items| <= NOTE_COL {
      return Continue;
    }
    var cells := row.items;
    var hospitalCell := cells[DISTRICT_COL];
    if !hospitalCell.VDict? {
      return Stop(Raised);
    }
    var hospitalName := CellText(hospitalCell);
    if !Contains(query, Lower(hospitalName)) {
      return Continue;
    }
    var coloured := TriggerCellColoured(cells);
    if !coloured {
      return Continue;
    }
    if !cells[PARTNER_COL].VDict? || !cells[NOTE_COL].VDict? {
      return Stop(Raised);
    }
    var partner := CellText(cells[PARTNER_COL]);
    var note := CellText(cells[NOTE_COL]);
    return Stop(Round(Hit(hospitalName, partner, note)));
  }

  /** has_round_for_district: the loop over the rows in key order, stopping at
      the first row that raises or is found. */
  method HasRoundForDistrict(sheet: Value, district: string) returns (r: ScanResult)
    ensures r == HasRound(sheet, district)
  {
    if !sheet.VDict? {
      return NoRound;
    }
    var query := Strip(Lower(district));
    var rows := SortRows(sheet.entries);
    var i := 0;
    while i < |rows|
      invariant 0 <= i <= |rows|
      invariant ScanRows(rows[i..], query) == ScanRows(rows, query)
    {
      ScanFrom(rows, query, i);
      var st := CheckRow(rows[i].0, rows[i].1, query);
      if st.Stop? {
        return st.result;
      }
      i := i + 1;
    }
    return NoRound;
  }

  /** The row ends the scan. */
  predicate Stops(e: Entry, query: string) {
    RowStep(e.0, e.1, query).Stop?
  }

  /** First stop wins: the result is that of the first row that ends the
      scan; every later row, including later qualifying duplicates, is
      shadowed. */
  lemma {:induction false} FirstStopWins(rows: seq<Entry>, query: string, i: nat)
    requires i < |rows| && Stops(rows[i], query)
    requires forall j :: 0 <= j < i ==> !Stops(rows[j], query)
    ensures ScanRows(rows, query) == RowStep(rows[i].0, rows[i].1, query).result
    decreases i
  {
    if i > 0 {
      assert !Stops(rows[0], query);
      assert forall j :: 0 <= j < i - 1 ==> rows[1..][j] == rows[j + 1];
      FirstStopWins(rows[1..], query, i - 1);
    }
  }

  /** When no row ends the scan, the result is None. */
  lemma {:induction false} NoStopNoRound(rows: seq<Entry>, query: string)
    requires forall j :: 0 <= j < |rows| ==> !Stops(rows[j], query)
    ensures ScanRows(rows, query) == NoRound
    decreases |rows|
  {
    if rows != [] {
      assert !Stops(rows[0], query);
      assert forall j :: 0 <= j < |rows| - 1 ==> rows[1..][j] == rows[j + 1];
      NoStopNoRound(rows[1..], query);
    }
  }

  /** The index of the first row that ends the scan, or `|rows|` if none. */
  ghost function FirstStop(rows: seq<Entry>, query: string): (i: nat)
    ensures i <= |rows|
    ensures forall j :: 0 <= j < i ==> !Stops(rows[j], query)
    ensures i < |rows| ==> Stops(rows[i], query)
    decreases |rows|
  {
    if rows == [] || Stops(rows[0], query) then 0
    else
      var k := FirstStop(rows[1..], query);
      assert forall j :: 1 <= j < k + 1 ==> rows[j] == rows[1..][j - 1];
      k + 1
  }

  /** Conversely, a result other than None comes from a first stopping row. */
  lemma ResultHasFirstStop(rows: seq<Entry>, query: string) returns (i: nat)
    requires ScanRows(rows, query) != NoRound
    ensures i < |rows| && Stops(rows[i], query)
    ensures forall j :: 0 <= j < i ==> !Stops(rows[j], query)
    ensures ScanRows(rows, query) == RowStep(rows[i].0, rows[i].1, query).result
  {
    i := FirstStop(rows, query);
    if i == |rows| {
      NoStopNoRound(rows, query);
      assert false;
    }
    FirstStopWins(rows, query, i);
  }

  /** Everything a found result says about the snapshot: the result comes
      from a usable row of the snapshot whose name contains the query and
      one of whose trigger cells is blue or yellow, and holds that row's
      trimmed name, partner and note. */
  lemma RoundComesFromSnapshot(sheet: Value, district: string)
    requires HasRound(sheet, district).Round?
    ensures sheet.VDict?
    ensures var h := HasRound(sheet, district).hit;
      exists e :: e in sheet.entries && Usable(e.0, e.1) && e.1.items[DISTRICT_COL].VDict? &&
        e.1.items[PARTNER_COL].VDict? && e.1.items[NOTE_COL].VDict? &&
        NameMatches(e.1, Strip(Lower(district))) && AnyTriggerEligible(e.1) &&
        h == Hit(CellText(e.1.items[DISTRICT_COL]), CellText(e.1.items[PARTNER_COL]), CellText(e.1.items[NOTE_COL]))
    ensures var h := HasRound(sheet, district).hit;
      Contains(Strip(Lower(district)), Lower(h.hospital)) &&
      IsStripped(h.hospital) && IsStripped(h.partner) && IsStripped(h.note)
  {
    var rows := SortRows(sheet.entries);
    var i := ResultHasFirstStop(rows, Strip(Lower(district)));
    RowStepCases(rows[i].0, rows[i].1, Strip(Lower(district)));
    assert rows[i] in multiset(rows);
    assert rows[i] in sheet.entries;
  }

  /** The header row, rows that are not lists and rows too short for the
      note column never affect the result: the scan of the snapshot without
      them is the same. */
  lemma {:induction false} UnusableRowsIgnored(rows: seq<Entry>, query: string, k: nat)
    requires k < |rows| && !Usable(rows[k].0, rows[k].1)
    ensures ScanRows(rows, query) == ScanRows(rows[..k] + rows[k + 1..], query)
    decreases k
  {
    if k == 0 {
      assert RowStep(rows[0].0, rows[0].1, query) == Continue;
      assert rows[..0] + rows[1..] == rows[1..];
    } else {
      var tail := rows[1..];
      assert tail[k - 1] == rows[k];
      UnusableRowsIgnored(tail, query, k - 1);
      var shorter := rows[..k] + rows[k + 1..];
      assert shorter == [rows[0]] + (tail[..k - 1] + tail[k..]);
      assert shorter[0] == rows[0] && shorter[1..] == tail[..k - 1] + tail[k..];
    }
  }

  /** A snapshot that is not a dictionary finds nothing. */
  lemma NonDictionarySnapshot(sheet: Value, district: string)
    requires !sheet.VDict?
    ensures HasRound(sheet, district) == NoRound
  {
  }

  // ---------------------------------------------------------------------------
  // Concrete snapshots

  /** The background `{red: 0, green: 1, blue: 1}`, cyan. */
  function CyanBackground(): Value {
    VDict([("red", VNum(0.0, "0")), ("green", VNum(1.0, "1")), ("blue", VNum(1.0, "1"))])
  }

  lemma CyanIsBlue()
    ensures GetColorType(CyanBackground()) == Some(Blue)
  {
    var c := CyanBackground();
    assert Get(c.entries, "red") == Some(VNum(0.0, "0"));
    assert Get(c.entries, "green") == Some(VNum(1.0, "1"));
    assert Get(c.entries, "blue") == Some(VNum(1.0, "1"));
    assert Trunc(1.0 * 255.0) == 255;
  }

  /** A row of 16 cells: column 10 holds `name` on background `bg`, every
      other cell is an empty dictionary. */
  function SampleRow(name: string, bg: Value): Value {
    VList(seq(NOTE_COL + 1, i => if i == DISTRICT_COL then VDict([("value", VStr(name)), ("backgroundColor", bg)]) else VDict([])))
  }

  /** The cells of a sample row read as: the name, and empty partner and note. */
  lemma SampleRowCells(name: string, bg: Value)
    ensures var cells := SampleRow(name, bg).items;
      |cells| == NOTE_COL + 1 &&
      cells[DISTRICT_COL].VDict? && cells[PARTNER_COL] == VDict([]) && cells[NOTE_COL] == VDict([]) &&
      CellText(cells[DISTRICT_COL]) == Strip(name) &&
      CellText(cells[PARTNER_COL]) == "" && CellText(cells[NOTE_COL]) == "" &&
      !Eligible(cells[PARTNER_COL]) && !Eligible(cells[NOTE_COL]) &&
      GetOr(cells[DISTRICT_COL].entries, "backgroundColor", VNull) == bg
  {
    var cells := SampleRow(name, bg).items;
    var entries := cells[DISTRICT_COL].entries;
    assert Get(entries, "value") == Some(VStr(name));
    assert Get(entries, "backgroundColor") == Some(bg);
    assert Strip("") == "";
  }

  /** A name cell on cyan is eligible. */
  lemma CyanCellEligible(name: string)
    ensures Eligible(VDict([("value", VStr(name)), ("backgroundColor", CyanBackground())]))
  {
    var entries := [("value", VStr(name)), ("backgroundColor", CyanBackground())];
    assert Get(entries, "backgroundColor") == Some(CyanBackground());
    CyanIsBlue();
  }

  /** A matching row with a cyan name cell is found, with empty partner and
      note. */
  lemma CyanRowFound(key: string, name: string, query: string)
    requires key != HEADER_KEY && Contains(query, Lower(Strip(name)))
    ensures RowStep(key, SampleRow(name, CyanBackground()), query) == Stop(Round(Hit(Strip(name), "", "")))
  {
    var row := SampleRow(name, CyanBackground());
    SampleRowCells(name, CyanBackground());
    CyanCellEligible(name);
    assert row.items[DISTRICT_COL] == VDict([("value", VStr(name)), ("backgroundColor", CyanBackground())]);
    assert Usable(key, row);
    assert NameMatches(row, query);
    assert AnyTriggerEligible(row);
    assert UsableRowStep(row, query) == Stop(Round(Hit(Strip(name), "", "")));
  }

  /** A row with no background anywhere lets the scan go on, even when its
      name matches. */
  lemma UncolouredRowPasses(key: string, name: string, query: string)
    ensures RowStep(key, SampleRow(name, VNull), query) == Continue
  {
    SampleRowCells(name, VNull);
  }

  /** The snapshot `{"1": header, "5": row}` whose row names the district on
      cyan gives that row's trimmed name. */
  lemma SnapshotWithOneHit(header: Value, name: string, district: string)
    requires Contains(Strip(Lower(district)), Lower(Strip(name)))
    ensures HasRound(VDict([("1", header), ("5", SampleRow(name, CyanBackground()))]), district)
      == Round(Hit(Strip(name), "", ""))
  {
    var row := SampleRow(name, CyanBackground());
    var query := Strip(Lower(district));
    SingleDigitKey('1');
    SingleDigitKey('5');
    var rows := [("1", header), ("5", row)];
    PairInOrder(("1", header), ("5", row));
    assert HasRound(VDict(rows), district) == ScanRows(rows, query);
    CyanRowFound("5", name, query);
    assert RowStep("1", header, query) == Continue;
    assert rows[1..] == [("5", row)];
    assert ScanRows(rows, query) == ScanRows([("5", row)], query);
  }

  /** Rows "3" (cyan, `later`) and "2" (no colour, `first`), both matching:
      the scan visits "2" first, passes it, and reports row "3". */
  lemma LaterColouredRowWins(first: string, later: string, district: string)
    requires Contains(Strip(Lower(district)), Lower(Strip(later)))
    ensures HasRound(VDict([("3", SampleRow(later, CyanBackground())), ("2", SampleRow(first, VNull))]), district)
      == Round(Hit(Strip(later), "", ""))
  {
    var coloured, plain := SampleRow(later, CyanBackground()), SampleRow(first, VNull);
    var query := Strip(Lower(district));
    SingleDigitKey('2');
    SingleDigitKey('3');
    var rows := [("2", plain), ("3", coloured)];
    PairSwapped(("3", coloured), ("2", plain));
    assert HasRound(VDict([("3", coloured), ("2", plain)]), district) == ScanRows(rows, query);
    UncolouredRowPasses("2", first, query);
    CyanRowFound("3", later, query);
    assert rows[1..] == [("3", coloured)];
    assert ScanRows(rows, query) == ScanRows([("3", coloured)], query);
  }

  /** Rows "3" and "2" both matching and cyan: row "2" comes first in key
      order and shadows row "3", whatever their snapshot order. */
  lemma EarlierKeyShadows(first: string, later: string, district: string)
    requires Contains(Strip(Lower(district)), Lower(Strip(first)))
    requires Contains(Strip(Lower(district)), Lower(Strip(later)))
    ensures HasRound(VDict([("3", SampleRow(later, CyanBackground())), ("2", SampleRow(first, CyanBackground()))]), district)
      == Round(Hit(Strip(first), "", ""))
  {
    var r3, r2 := SampleRow(later, CyanBackground()), SampleRow(first, CyanBackground());
    var query := Strip(Lower(district));
    SingleDigitKey('2');
    SingleDigitKey('3');
    var rows := [("2", r2), ("3", r3)];
    PairSwapped(("3", r3), ("2", r2));
    assert HasRound(VDict([("3", r3), ("2", r2)]), district) == ScanRows(rows, query);
    CyanRowFound("2", first, query);
  }
}
