/**
 * The session state of the roll-call window `App` (demo.py): the imported
 * roster, the scrolling flag, the label that shows the current pick and the
 * numbered log of recorded picks, with the guards each button and menu
 * command applies before it changes anything.
 */
module Demo {
  import opened Text

  datatype Option<T> = None | Some(value: T)

  /** One roster row: the 工号 (id) and 姓名 (name) cells, as text. */
  datatype Person = Person(id: string, name: string)

  /** One row of the records log: 序号 (sequence number), 工号, 姓名. */
  datatype Record = Record(seqNo: int, id: string, name: string)

  /** A parsed spreadsheet: its column headers and, per row, the cell text under each header. */
  datatype Table = Table(columns: set<string>, rows: seq<map<string, string>>)

  const IdColumn: string := "工号"
  const NameColumn: string := "姓名"

  /** Why a command stopped after showing a message box. */
  datatype Notice =
    | ImportFirst      // 请先[导入名单]: nothing imported yet
    | StopFirst        // 请[停止]后记录: record pressed while scrolling
    | NothingPicked    // 未选择人员
    | Malformed        // 数据不合法: the label has fewer than two tokens
    | AlreadyRecorded  // 人员已[记录]
    | NoHistory        // 无历史[记录]
    | BadFile          // 无法解析Excel文件: a required column is missing
    | ExportEmpty      // [导出名单]为空

  /** An exception the command raises out of its callback. */
  datatype Fault =
    | EmptySample        // sampling one row of an empty roster
    | MismatchedColumns  // writing a row of more than three values into the records table

  datatype Outcome = Done | Imported(total: int) | Warned(notice: Notice) | Raised(fault: Fault)

  /** Every row of a parsed table carries exactly the table's columns. */
  predicate Rectangular(t: Table)
  {
    forall i :: 0 <= i < |t.rows| ==> t.rows[i].Keys == t.columns
  }

  /** valid_data: the table has both the id and the name column. */
  predicate ValidData(t: Table)
  {
    IdColumn in t.columns && NameColumn in t.columns
  }

  /** The people of a valid table, in row order. */
  function People(t: Table): (ps: seq<Person>)
    requires Rectangular(t) && ValidData(t)
  {
    seq(|t.rows|, i requires 0 <= i < |t.rows| => Person(t.rows[i][IdColumn], t.rows[i][NameColumn]))
  }

  /** The label text for a pick: the zero-padded id, one space, the name. */
  function LabelFor(p: Person): string
  {
    ZeroPad(p.id) + " " + p.name
  }

  /** The label scroll_names writes for a sampled row: pad the id, then the f-string. */
  method FormatPick(p: Person) returns (text: string)
    ensures text == LabelFor(p)
  {
    var id := PadId(p.id);
    text := id + " " + p.name;
  }

  /** Row i of the log carries sequence number i + 1. */
  predicate Numbered(records: seq<Record>)
  {
    forall i :: 0 <= i < |records| ==> records[i].seqNo == i + 1
  }

  /** No id is recorded twice. */
  predicate DistinctIds(records: seq<Record>)
  {
    forall i, j :: 0 <= i < j < |records| ==> records[i].id != records[j].id
  }

  /**
   * The duplicate test `row[0] in export_data.values`: the token equals some
   * recorded cell. Sequence numbers are integers and never equal a string, so
   * only the id and name cells can match.
   */
  predicate Recorded(records: seq<Record>, token: string)
  {
    exists i :: 0 <= i < |records| && (records[i].id == token || records[i].name == token)
  }

  /** Record i was parsed from the label of roster entry origin[i]. */
  ghost predicate Traced(roster: seq<Person>, records: seq<Record>, origin: seq<nat>)
  {
    |origin| == |records| &&
    forall i :: 0 <= i < |records| ==>
      origin[i] < |roster| && Split(LabelFor(roster[origin[i]])) == [records[i].id, records[i].name]
  }

  /**
   * The label of a person whose id has no whitespace and whose name is one
   * word splits back into the padded id and the name.
   */
  lemma LabelNamesThePick(p: Person)
    requires NoSpace(p.id) && IsToken(p.name)
    ensures Split(LabelFor(p)) == [ZeroPad(p.id), p.name]
  {
    var padded := ZeroPad(p.id);
    ZeroPadShape(p.id);
    assert forall i :: 0 <= i < |padded| ==> padded[i] == '0' || padded[i] == p.id[i - (|padded| - |p.id|)];
    assert IsToken(padded);
    assert Join([padded, p.name]) == LabelFor(p);
    SplitJoin([padded, p.name]);
  }

  /** Pairwise distinct indices below n number at most n. */
  lemma {:induction false} DistinctBelow(s: seq<nat>, n: nat)
    requires forall i :: 0 <= i < |s| ==> s[i] < n
    requires forall i, j :: 0 <= i < j < |s| ==> s[i] != s[j]
    ensures |s| <= n
    decreases |s|
  {
    if s != [] {
      assert s[0] < n;
      var last := s[|s| - 1];
      var rest := s[..|s| - 1];
      // Rename the value n - 1 (if rest holds it) to `last`, which rest does not hold.
      var t := seq(|rest|, i requires 0 <= i < |rest| => if rest[i] == n - 1 then last else rest[i]);
      forall i | 0 <= i < |t|
        ensures t[i] < n - 1
      {
        assert rest[i] == s[i] && s[i] != s[|s| - 1];
      }
      forall i, j | 0 <= i < j < |t|
        ensures t[i] != t[j]
      {
        assert rest[i] == s[i] && rest[j] == s[j];
        assert s[i] != s[|s| - 1] && s[j] != s[|s| - 1];
      }
      DistinctBelow(t, n - 1);
    }
  }

  /**
   * Records with distinct ids, each parsed from the label of some roster
   * entry, are no more than the roster's entries.
   */
  lemma RecordsFitRoster(roster: seq<Person>, records: seq<Record>, origin: seq<nat>)
    requires Traced(roster, records, origin) && DistinctIds(records)
    ensures |records| <= |roster|
  {
    DistinctBelow(origin, |roster|);
  }

  class App {
    var scrolling: bool
    var roster: seq<Person>
    var teacherNum: int
    var tableNum: int
    var records: seq<Record>
    var exportNum: int
    var labelText: string
    /** The roster entry the label shows, when the label is not empty. */
    ghost var shown: nat
    /** For each record, the roster entry whose label it was parsed from. */
    ghost var origin: seq<nat>

    ghost predicate Valid()
      reads this
    {
      teacherNum == |roster| && exportNum == |records| && tableNum >= 0 &&
      Numbered(records) && DistinctIds(records) &&
      Traced(roster, records, origin) && |records| <= |roster| &&
      (labelText != "" ==> shown < |roster| && labelText == LabelFor(roster[shown]))
    }

    /** A fresh window: nothing imported, nothing picked, nothing recorded. */
    constructor ()
      ensures Valid() && !scrolling
      ensures roster == [] && teacherNum == 0 && tableNum == 0
      ensures records == [] && exportNum == 0 && labelText == ""
    {
      scrolling := false;
      roster, teacherNum, tableNum := [], 0, 0;
      records, exportNum := [], 0;
      labelText := "";
      shown, origin := 0, [];
    }

    /** The "remaining" count of the status line: roster entries not yet recorded. */
    function Remaining(): (r: int)
      reads this
      requires Valid()
      ensures r >= 0 && r == |roster| - |records|
    {
      teacherNum - exportNum
    }

    /**
     * One tick of scroll_names: when scrolling, show a randomly chosen roster
     * entry. Sampling an empty roster raises.
     */
    method ScrollNames() returns (o: Outcome)
      requires Valid()
      modifies this`labelText, this`shown
      ensures Valid() && scrolling == old(scrolling)
      ensures !scrolling ==> o == Done && labelText == old(labelText)
      ensures scrolling && roster == [] ==> o == Raised(EmptySample) && labelText == old(labelText)
      ensures scrolling && roster != [] ==>
        o == Done && exists k :: 0 <= k < |roster| && labelText == LabelFor(roster[k])
    {
      if !scrolling {
        return Done;
      }
      if roster == [] {
        return Raised(EmptySample);
      }
      var k :| 0 <= k < |roster|;
      labelText := FormatPick(roster[k]);
      shown := k;
      o := Done;
    }

    /**
     * start_scrolling: refused before anything is imported; otherwise the
     * start/stop toggle, and starting shows a first pick at once.
     */
    method StartScrolling() returns (o: Outcome)
      requires Valid()
      modifies this`scrolling, this`labelText, this`shown
      ensures Valid()
      ensures old(roster) == [] ==>
        o == Warned(ImportFirst) && scrolling == old(scrolling) && labelText == old(labelText)
      ensures old(roster) != [] && old(scrolling) ==> o == Done && !scrolling && labelText == old(labelText)
      ensures old(roster) != [] && !old(scrolling) ==>
        o == Done && scrolling && exists k :: 0 <= k < |roster| && labelText == LabelFor(roster[k])
    {
      if roster == [] {
        return Warned(ImportFirst);
      }
      if scrolling {
        scrolling := false;
        o := Done;
      } else {
        scrolling := true;
        o := ScrollNames();
      }
    }

    /**
     * save_data: record the pick the label shows. While scrolling it only
     * restarts the scroll with a new pick; otherwise it refuses an empty
     * label or roster, a label of fewer than two tokens and an id that is
     * already among the recorded cells, and a label of more than two tokens
     * makes the row write raise. Success appends [exportNum + 1, id, name].
     */
    method SaveData() returns (o: Outcome)
      requires Valid()
      modifies this`labelText, this`shown, this`records, this`exportNum, this`origin
      ensures Valid() && scrolling == old(scrolling)
      ensures old(scrolling) ==> records == old(records) && exportNum == old(exportNum)
      ensures old(scrolling) && roster == [] ==> o == Raised(EmptySample) && labelText == old(labelText)
      ensures old(scrolling) && roster != [] ==>
        o == Warned(StopFirst) && exists k :: 0 <= k < |roster| && labelText == LabelFor(roster[k])
      ensures !old(scrolling) ==> labelText == old(labelText)
      ensures !old(scrolling) && (old(labelText) == "" || teacherNum == 0) ==>
        o == Warned(NothingPicked) && records == old(records) && exportNum == old(exportNum)
      ensures !old(scrolling) && old(labelText) != "" && teacherNum != 0 && |Split(old(labelText))| < 2 ==>
        o == Warned(Malformed) && records == old(records) && exportNum == old(exportNum)
      ensures !old(scrolling) && old(labelText) != "" && teacherNum != 0 && |Split(old(labelText))| >= 2 ==>
        var tokens := Split(old(labelText));
        if Recorded(old(records), tokens[0]) then
          o == Warned(AlreadyRecorded) && records == old(records) && exportNum == old(exportNum)
        else if |tokens| > 2 then
          o == Raised(MismatchedColumns) && records == old(records) && exportNum == old(exportNum)
        else
          o == Done && exportNum == old(exportNum) + 1 &&
          records == old(records) + [Record(old(exportNum) + 1, tokens[0], tokens[1])]
    {
      if scrolling {
        // The flag is cleared while the message box is up and set again after it.
        o := ScrollNames();
        if o == Done {
          o := Warned(StopFirst);
        }
        return;
      }
      if labelText == "" || teacherNum == 0 {
        return Warned(NothingPicked);
      }
      var row := Split(labelText);
      if |row| < 2 {
        return Warned(Malformed);
      }
      if Recorded(records, row[0]) {
        return Warned(AlreadyRecorded);
      }
      if |row| > 2 {
        return Raised(MismatchedColumns);
      }
      AppendRecord(row[0], row[1]);
      o := Done;
    }

    /**
     * The two writes of a successful save_data: the row
     * [exportNum + 1, id, name] goes after the last record and the count
     * follows it.
     */
    method AppendRecord(id: string, name: string)
      requires Valid() && labelText != "" && Split(labelText) == [id, name]
      requires !Recorded(records, id)
      modifies this`records, this`exportNum, this`origin
      ensures Valid()
      ensures records == old(records) + [Record(old(exportNum) + 1, id, name)]
      ensures exportNum == old(exportNum) + 1
    {
      records := records + [Record(exportNum + 1, id, name)];
      exportNum := exportNum + 1;
      origin := origin + [shown];
      RecordsFitRoster(roster, records, origin);
    }

    /** revoke_save: drop the last record, unless there is none. */
    method RevokeSave() returns (o: Outcome)
      requires Valid()
      modifies this`records, this`exportNum, this`origin
      ensures Valid()
      ensures old(exportNum) == 0 ==>
        o == Warned(NoHistory) && records == old(records) && exportNum == old(exportNum)
      ensures old(exportNum) != 0 ==>
        o == Done && records == old(records)[..|old(records)| - 1] && exportNum == old(exportNum) - 1
    {
      if exportNum == 0 {
        return Warned(NoHistory);
      }
      records := records[..|records| - 1];
      exportNum := exportNum - 1;
      origin := origin[..|origin| - 1];
      o := Done;
    }

    /**
     * import_list once the file is parsed: a table without both required
     * columns is refused whole; otherwise its rows are appended after the
     * roster and the file is counted. The outcome carries the roster size the
     * success message reports.
     */
    method ImportList(t: Table) returns (o: Outcome)
      requires Valid() && Rectangular(t)
      modifies this`roster, this`teacherNum, this`tableNum
      ensures Valid()
      ensures !ValidData(t) ==>
        o == Warned(BadFile) && roster == old(roster) &&
        teacherNum == old(teacherNum) && tableNum == old(tableNum)
      ensures ValidData(t) ==>
        roster == old(roster) + People(t) && teacherNum == old(teacherNum) + |t.rows| &&
        tableNum == old(tableNum) + 1 && o == Imported(teacherNum)
    {
      if !ValidData(t) {
        return Warned(BadFile);
      }
      roster := roster + People(t);
      teacherNum := teacherNum + |t.rows|;
      tableNum := tableNum + 1;
      o := Imported(teacherNum);
    }

    /**
     * reset_list: once the operator confirms, empty the roster, the records,
     * the counters and the label. The scrolling flag is left as it is.
     */
    method ResetList(confirmed: bool)
      requires Valid()
      modifies this`roster, this`records, this`teacherNum, this`exportNum, this`tableNum,
        this`labelText, this`origin
      ensures Valid() && scrolling == old(scrolling)
      ensures !confirmed ==>
        roster == old(roster) && records == old(records) && teacherNum == old(teacherNum) &&
        exportNum == old(exportNum) && tableNum == old(tableNum) && labelText == old(labelText)
      ensures confirmed ==>
        roster == [] && records == [] && teacherNum == 0 && exportNum == 0 && tableNum == 0 &&
        labelText == ""
    {
      if !confirmed {
        return;
      }
      roster, records := [], [];
      teacherNum, exportNum, tableNum := 0, 0, 0;
      labelText := "";
      origin := [];
    }

    /**
     * export_list: the rows to write, in record order, or a warning when
     * nothing is recorded.
     */
    method ExportList() returns (o: Outcome, rows: Option<seq<Record>>)
      requires Valid()
      ensures rows.None? <==> records == []
      ensures rows.None? ==> o == Warned(ExportEmpty)
      ensures rows.Some? ==>
        o == Done && rows.value == records &&
        forall i :: 0 <= i < |rows.value| ==> rows.value[i].seqNo == i + 1
    {
      if records == [] {
        return Warned(ExportEmpty), None;
      }
      return Done, Some(records);
    }
  }

  /** Recording and then revoking leaves the log as it was. */
  method RecordThenRevoke(app: App) returns (saved: Outcome)
    requires app.Valid()
    modifies app
    ensures app.Valid()
    ensures app.records == old(app.records) && app.exportNum == old(app.exportNum)
  {
    saved := app.SaveData();
    if saved == Done {
      var revoked := app.RevokeSave();
      assert revoked == Done;
    }
  }

  /** Recording the same pick twice: the second attempt is refused and records nothing. */
  method RecordTwice(app: App) returns (first: Outcome, second: Outcome)
    requires app.Valid() && !app.scrolling
    modifies app
    ensures app.Valid()
    ensures first == Done ==>
      second == Warned(AlreadyRecorded) && |app.records| == |old(app.records)| + 1
  {
    first := app.SaveData();
    ghost var afterFirst := app.records;
    second := app.SaveData();
    if first == Done {
      var tokens := Split(app.labelText);
      assert afterFirst[|afterFirst| - 1].id == tokens[0];
      assert Recorded(afterFirst, tokens[0]);
    }
  }

  /**
   * Scenario: a pick shown from a roster whose ids have no whitespace and
   * whose names are one word is recorded as its padded id and its name.
   */
  method RecordShownPick(app: App) returns (o: Outcome)
    requires app.Valid() && !app.scrolling && app.labelText != ""
    requires forall i :: 0 <= i < |app.roster| ==> NoSpace(app.roster[i].id) && IsToken(app.roster[i].name)
    modifies app
    ensures app.Valid()
    ensures o == Done || o == Warned(AlreadyRecorded)
    ensures o == Done ==>
      exists k :: 0 <= k < |app.roster| &&
        app.records == old(app.records) +
          [Record(|old(app.records)| + 1, ZeroPad(app.roster[k].id), app.roster[k].name)]
  {
    LabelNamesThePick(app.roster[app.shown]);
    o := app.SaveData();
  }
}
