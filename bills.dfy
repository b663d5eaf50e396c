/** The report of the `bills` package (internal/bills/bills.go): billable
    minutes per workflow and runner operating system, their totals, and
    the markdown report that lists them. */
module Bills {
  import opened Wrappers
  import opened Strings
  import opened Order
  import opened Markdown
  import opened GitHubApi
  import opened BillsGha

  const Title := "Billable time for workflows in this billable cycle"
  const Note := "Please note the following:\n\n"
    + "- This list shows the execution time for each Workflow at the time this Action was executed.\n"
    + "- Workflows that have been deleted at the time of execution will not be listed.\n"
    + "- Execution times using Larger runners are not included in the aggregation."
  const HeaderLine := "| Workflow |" + " Ubuntu (min) |" + " Windows (min) |" + " Macos (min) |"
  const SeparatorLine := "| --- |" + " --- |" + " --- |" + " --- |"
  const TableHeader := HeaderLine + "\n"
  const TableSeparator := SeparatorLine + "\n"

  /** Billable minutes of one workflow on each runner operating system. */
  datatype WorkflowBillableTime = WorkflowBillableTime(ubuntu: nat, windows: nat, macos: nat)

  /** Billable minutes per workflow name. */
  type WorkflowBillableTimes = map<string, WorkflowBillableTime>

  function Plus(a: WorkflowBillableTime, b: WorkflowBillableTime): WorkflowBillableTime
  {
    WorkflowBillableTime(a.ubuntu + b.ubuntu, a.windows + b.windows, a.macos + b.macos)
  }

  ghost function Pick(w: WorkflowBillableTimes): (name: string)
    requires w != map[]
    ensures name in w
  {
    var name :| name in w; name
  }

  /** The element-wise sum of all entries' minutes. */
  ghost function Sum(w: WorkflowBillableTimes): WorkflowBillableTime
    decreases |w|
  {
    if w == map[] then WorkflowBillableTime(0, 0, 0)
    else
      var name := Pick(w);
      assert |w - {name}| < |w| by {
        assert (w - {name}).Keys == w.Keys - {name};
      }
      Plus(w[name], Sum(w - {name}))
  }

  /** The sum does not depend on which entry is taken first: it is any
      entry plus the sum of the others. */
  lemma {:induction false} SumRemove(w: WorkflowBillableTimes, name: string)
    requires name in w
    ensures Sum(w) == Plus(w[name], Sum(w - {name}))
    decreases |w|
  {
    var first := Pick(w);
    if first != name {
      var w1, w2 := w - {first}, w - {name};
      assert (w1 - {name}).Keys == w.Keys - {first} - {name};
      assert (w2 - {first}).Keys == w.Keys - {first} - {name};
      assert |w1| < |w| by {
        assert w1.Keys == w.Keys - {first};
      }
      assert |w2| < |w| by {
        assert w2.Keys == w.Keys - {name};
      }
      SumRemove(w1, name);
      SumRemove(w2, first);
      assert w1 - {name} == w2 - {first};
    }
  }

  lemma PlusZero(x: WorkflowBillableTime)
    ensures Plus(WorkflowBillableTime(0, 0, 0), x) == x == Plus(x, WorkflowBillableTime(0, 0, 0))
  {
  }

  lemma SumStep(total: WorkflowBillableTime, remaining: WorkflowBillableTimes, name: string)
    requires name in remaining
    ensures Plus(total, Sum(remaining)) == Plus(Plus(total, remaining[name]), Sum(remaining - {name}))
    ensures |remaining - {name}| < |remaining|
  {
    SumRemove(remaining, name);
    assert (remaining - {name}).Keys == remaining.Keys - {name};
  }

  /** The totals over all workflows, adding the entries in the map's
      iteration order (any order). */
  method CalculateTotal(w: WorkflowBillableTimes) returns (total: WorkflowBillableTime)
    ensures total == Sum(w)
  {
    total := WorkflowBillableTime(0, 0, 0);
    var remaining := w;
    PlusZero(Sum(w));
    while remaining != map[]
      invariant Sum(w) == Plus(total, Sum(remaining))
      decreases |remaining|
    {
      var name :| name in remaining;
      var billableTime := remaining[name];
      var rest := remaining - {name};
      SumStep(total, remaining, name);
      total := WorkflowBillableTime(total.ubuntu + billableTime.ubuntu,
                                    total.windows + billableTime.windows,
                                    total.macos + billableTime.macos);
      remaining := rest;
    }
    PlusZero(total);
  }

  /** Summing a map with one entry more adds that entry; the empty map
      sums to zero. */
  lemma SumInsert(w: WorkflowBillableTimes, name: string, t: WorkflowBillableTime)
    requires name !in w
    ensures Sum(w[name := t]) == Plus(t, Sum(w))
    ensures Sum(map[]) == WorkflowBillableTime(0, 0, 0)
  {
    SumRemove(w[name := t], name);
    assert w[name := t] - {name} == w;
  }

  /** The workflow names, each once, in ascending byte order. */
  method SortWorkflowNames(w: WorkflowBillableTimes) returns (workflowNames: seq<string>)
    ensures StrictlySorted(workflowNames)
    ensures forall name :: name in workflowNames <==> name in w
    ensures |workflowNames| == |w|
    ensures workflowNames == SortedKeys(w.Keys)
  {
    workflowNames := SortKeys(w.Keys);
  }

  /** A table row `| title | u | w | m |` and its newline. */
  function FormatMarkdownRow(e: WorkflowBillableTime, title: string): (row: string)
    ensures |row| > |title| + 5
    ensures row[..|title| + 2] == "| " + title && row[|row| - 3..] == " |\n"
  {
    "| " + title + " | " + FormatDecimal(e.ubuntu) + " | " + FormatDecimal(e.windows) + " | "
      + FormatDecimal(e.macos) + " |\n"
  }

  /** A row with every cell in bold, `| **title** | **u** | **w** | **m** |`,
      and its newline. */
  function FormatBoldMarkdownRow(e: WorkflowBillableTime, title: string): (row: string)
    ensures |row| > |title| + 9
    ensures row[..|title| + 4] == "| **" + title && row[|row| - 5..] == "** |\n"
  {
    "| **" + title + "** | **" + FormatDecimal(e.ubuntu) + "** | **" + FormatDecimal(e.windows)
      + "** | **" + FormatDecimal(e.macos) + "** |\n"
  }

  /** A row is one line, and that line reads back as the title and the
      three minute counts. */
  lemma FormatMarkdownRowReadsBack(e: WorkflowBillableTime, title: string)
    requires '|' !in title && '\n' !in title
    ensures FormatMarkdownRow(e, title) == RowLine(title, e.ubuntu, e.windows, e.macos) + "\n"
    ensures '\n' !in RowLine(title, e.ubuntu, e.windows, e.macos)
    ensures ParseRow(RowLine(title, e.ubuntu, e.windows, e.macos)) == Some(RowValues(title, e.ubuntu, e.windows, e.macos))
  {
    assert " |\n" == " |" + "\n";
    ReadRowLine(title, e.ubuntu, e.windows, e.macos);
    RowLinesSingle(title, e.ubuntu, e.windows, e.macos);
  }

  /** The bold row is one line, and it reads back as the title and the
      three minute counts. */
  lemma FormatBoldMarkdownRowReadsBack(e: WorkflowBillableTime, title: string)
    requires '|' !in title && '\n' !in title
    ensures FormatBoldMarkdownRow(e, title) == BoldRowLine(title, e.ubuntu, e.windows, e.macos) + "\n"
    ensures '\n' !in BoldRowLine(title, e.ubuntu, e.windows, e.macos)
    ensures ParseBoldRow(BoldRowLine(title, e.ubuntu, e.windows, e.macos)) == Some(RowValues(title, e.ubuntu, e.windows, e.macos))
  {
    assert "** |\n" == "** |" + "\n";
    ReadBoldRowLine(title, e.ubuntu, e.windows, e.macos);
    RowLinesSingle(title, e.ubuntu, e.windows, e.macos);
  }

  /** The rows of the table for the given names, in that order. */
  function Rows(w: WorkflowBillableTimes, names: seq<string>): (rows: seq<string>)
    requires forall k :: 0 <= k < |names| ==> names[k] in w
    ensures |rows| == |names|
    ensures forall k :: 0 <= k < |names| ==> rows[k] == FormatMarkdownRow(w[names[k]], names[k])
  {
    seq(|names|, k requires 0 <= k < |names| => FormatMarkdownRow(w[names[k]], names[k]))
  }

  /** The table: header, separator, then one row per workflow in
      ascending name order. */
  ghost function TableText(w: WorkflowBillableTimes): string
  {
    var names := SortedKeys(w.Keys);
    TableHeader + TableSeparator + Concat(Rows(w, names))
  }

  /** Writes the header, the separator and the rows, one after another. */
  method GenerateMarkdownTable(w: WorkflowBillableTimes) returns (table: string)
    ensures table == TableText(w)
  {
    var sb := TableHeader;
    sb := sb + TableSeparator;
    var workflowNames := SortWorkflowNames(w);
    table := WriteRows(sb, w, workflowNames);
  }

  /** Appends the row of each of `names`, in order, to what `sb` holds. */
  method WriteRows(sb: string, w: WorkflowBillableTimes, names: seq<string>) returns (out: string)
    requires forall k :: 0 <= k < |names| ==> names[k] in w
    ensures out == sb + Concat(Rows(w, names))
  {
    out := sb;
    var i := 0;
    assert names[..0] == [];
    while i < |names|
      invariant 0 <= i <= |names|
      invariant out == sb + Concat(Rows(w, names[..i]))
    {
      var name := names[i];
      var row := FormatMarkdownRow(w[name], name);
      RowsPrefix(w, names, i);
      ConcatSnoc(Rows(w, names[..i]), row);
      AppendAssoc(sb, Concat(Rows(w, names[..i])), row);
      out := out + row;
      i := i + 1;
    }
    assert names[..|names|] == names;
  }

  lemma RowsPrefix(w: WorkflowBillableTimes, names: seq<string>, i: nat)
    requires forall k :: 0 <= k < |names| ==> names[k] in w
    requires i < |names|
    ensures Rows(w, names[..i + 1]) == Rows(w, names[..i]) + [FormatMarkdownRow(w[names[i]], names[i])]
  {
    var a, b := Rows(w, names[..i + 1]), Rows(w, names[..i]) + [FormatMarkdownRow(w[names[i]], names[i])];
    assert |a| == |b|;
    forall k | 0 <= k < |a|
      ensures a[k] == b[k]
    {
      if k < i {
        assert names[..i + 1][k] == names[..i][k];
      }
    }
  }

  /** Workflow names that keep a row readable: no cell bar, no newline. */
  predicate PlainNames(w: WorkflowBillableTimes)
  {
    forall name :: name in w ==> '|' !in name && '\n' !in name
  }

  /** What each row of the table says about its workflow. */
  function AsRows(w: WorkflowBillableTimes): (m: map<string, RowValues>)
    ensures m.Keys == w.Keys
  {
    map name | name in w :: RowValues(name, w[name].ubuntu, w[name].windows, w[name].macos)
  }

  /** The row lines of the table, without their newlines, for `names`. */
  function RowLines(w: WorkflowBillableTimes, names: seq<string>): (lines: seq<string>)
    requires forall k :: 0 <= k < |names| ==> names[k] in w
    ensures |lines| == |names|
  {
    seq(|names|, k requires 0 <= k < |names| => RowLine(names[k], w[names[k]].ubuntu, w[names[k]].windows, w[names[k]].macos))
  }

  lemma HeaderLinesSingle()
    ensures '\n' !in HeaderLine && '\n' !in SeparatorLine
  {
    assert '\n' !in "| Workflow |" && '\n' !in " Ubuntu (min) |";
    assert '\n' !in " Windows (min) |" && '\n' !in " Macos (min) |";
    assert '\n' !in "| --- |" && '\n' !in " --- |";
  }

  /** The rows of `names` are their row lines, each with a newline; each
      line is a single line and reads back as its workflow's values. */
  lemma RowsAreLines(w: WorkflowBillableTimes, names: seq<string>)
    requires PlainNames(w)
    requires forall k :: 0 <= k < |names| ==> names[k] in w
    ensures Rows(w, names) == Terminated(RowLines(w, names))
    ensures forall k :: 0 <= k < |names| ==>
      && '\n' !in RowLines(w, names)[k]
      && ParseRow(RowLines(w, names)[k]) == Some(RowValues(names[k], w[names[k]].ubuntu, w[names[k]].windows, w[names[k]].macos))
  {
    var lines := RowLines(w, names);
    forall k | 0 <= k < |names|
      ensures Rows(w, names)[k] == Terminated(lines)[k]
      ensures '\n' !in lines[k] && ParseRow(lines[k]) == Some(RowValues(names[k], w[names[k]].ubuntu, w[names[k]].windows, w[names[k]].macos))
    {
      FormatMarkdownRowReadsBack(w[names[k]], names[k]);
    }
  }

  /** A table whose rows are those of `names`, distinct names covering
      the whole map, is a line per name after the header and the separator,
      and reads back as the map. */
  lemma RowsTable(w: WorkflowBillableTimes, names: seq<string>)
    requires PlainNames(w)
    requires forall name :: name in names <==> name in w
    requires forall i, j :: 0 <= i < j < |names| ==> names[i] != names[j]
    ensures |Split(TableHeader + TableSeparator + Concat(Rows(w, names)), '\n')| == |names| + 3
    ensures ParseTable(TableHeader + TableSeparator + Concat(Rows(w, names)), HeaderLine, SeparatorLine) == Some(AsRows(w))
  {
    var lines := RowLines(w, names);
    var rows := seq(|names|, k requires 0 <= k < |names| => RowValues(names[k], w[names[k]].ubuntu, w[names[k]].windows, w[names[k]].macos));
    RowsAreLines(w, names);
    HeaderLinesSingle();
    ReadTable(HeaderLine, SeparatorLine, lines, rows);
    MapOfDistinct(rows);
    RowsMap(w, names, rows, MapOf(rows));
  }

  /** The table has a line per workflow between the separator and the end,
      and reads back as exactly the map it was made from. */
  lemma TableReadsBack(w: WorkflowBillableTimes)
    requires PlainNames(w)
    ensures |Split(TableText(w), '\n')| == |w| + 3
    ensures ParseTable(TableText(w), HeaderLine, SeparatorLine) == Some(AsRows(w))
  {
    var names := SortedKeys(w.Keys);
    StrictlySortedDistinct(names);
    RowsTable(w, names);
  }

  lemma RowsMap(w: WorkflowBillableTimes, names: seq<string>, rows: seq<RowValues>, m: map<string, RowValues>)
    requires forall name :: name in names <==> name in w
    requires |rows| == |names|
    requires forall k :: 0 <= k < |names| ==> rows[k] == RowValues(names[k], w[names[k]].ubuntu, w[names[k]].windows, w[names[k]].macos)
    requires forall i :: 0 <= i < |rows| ==> rows[i].name in m && m[rows[i].name] == rows[i]
    requires forall name :: name in m ==> exists i :: 0 <= i < |rows| && rows[i].name == name
    ensures m == AsRows(w)
  {
    var r := AsRows(w);
    assert forall name :: name in w ==> name in m && m[name] == r[name] by {
      forall name | name in w
        ensures name in m && m[name] == r[name]
      {
        var k :| 0 <= k < |names| && names[k] == name;
        assert rows[k].name == name;
      }
    }
    assert forall name :: name in m ==> name in w by {
      forall name | name in m
        ensures name in w
      {
        var k :| 0 <= k < |rows| && rows[k].name == name;
        assert names[k] in names;
      }
    }
    assert m.Keys == r.Keys;
  }

  /** Any two maps with the same contents give the same table, whatever
      order their names are enumerated in: the rows follow every strictly
      ascending listing of the names, and there is only one. */
  lemma TableOrderIndependent(w: WorkflowBillableTimes, names: seq<string>)
    requires StrictlySorted(names)
    requires forall name :: name in names <==> name in w
    ensures TableText(w) == TableHeader + TableSeparator + Concat(Rows(w, names))
  {
    SortedKeysUnique(names, w.Keys);
  }

  /** The whole report: the title, the table, the bold row of totals and
      the closing note. */
  ghost function ReportText(w: WorkflowBillableTimes): string
  {
    ("# " + Title + "\n\n") + TableText(w) + FormatBoldMarkdownRow(Sum(w), "Total") + ("\n" + Note + "\n")
  }

  /** Writes the title, the table, the totals and the note one after
      another. */
  method GenerateMarkdownReport(w: WorkflowBillableTimes) returns (report: string)
    ensures report == ReportText(w)
  {
    var sb := "# " + Title + "\n\n";
    var table := GenerateMarkdownTable(w);
    sb := sb + table;
    var total := CalculateTotal(w);
    sb := sb + FormatBoldMarkdownRow(total, "Total");
    sb := sb + ("\n" + Note + "\n");
    report := sb;
  }

  /** The row of totals is one line and reads back as "Total" and the
      element-wise sums. */
  lemma TotalRowReadsBack(w: WorkflowBillableTimes)
    ensures FormatBoldMarkdownRow(Sum(w), "Total") == BoldRowLine("Total", Sum(w).ubuntu, Sum(w).windows, Sum(w).macos) + "\n"
    ensures ParseBoldRow(BoldRowLine("Total", Sum(w).ubuntu, Sum(w).windows, Sum(w).macos))
            == Some(RowValues("Total", Sum(w).ubuntu, Sum(w).windows, Sum(w).macos))
  {
    FormatBoldMarkdownRowReadsBack(Sum(w), "Total");
  }

  /** The two workflows of the package's report test. */
  function ExampleTimes(): WorkflowBillableTimes
  {
    map["Workflow2" := WorkflowBillableTime(180, 30, 0), "Workflow1" := WorkflowBillableTime(120, 90, 60)]
  }

  lemma ExampleNames()
    ensures SortedKeys(ExampleTimes().Keys) == ["Workflow1", "Workflow2"]
  {
    assert "Workflow1" == "Workflow" + "1" && "Workflow2" == "Workflow" + "2";
    LessSharedPrefix("Workflow", "1", "2");
    SortedKeysUnique(["Workflow1", "Workflow2"], ExampleTimes().Keys);
  }

  lemma ExampleTotal()
    ensures Sum(ExampleTimes()) == WorkflowBillableTime(300, 120, 60)
  {
    assert "Workflow2"[8] != "Workflow1"[8];
    SumTwo("Workflow2", WorkflowBillableTime(180, 30, 0), "Workflow1", WorkflowBillableTime(120, 90, 60));
  }

  /** The sum of two entries of different names. */
  lemma SumTwo(a: string, ta: WorkflowBillableTime, b: string, tb: WorkflowBillableTime)
    requires a != b
    ensures Sum(map[a := ta, b := tb]) == Plus(ta, tb)
  {
    var none: WorkflowBillableTimes := map[];
    SumInsert(none, a, ta);
    PlusZero(ta);
    SumInsert(none[a := ta], b, tb);
  }

  lemma ExampleDecimals()
    ensures FormatDecimal(0) == "0" && FormatDecimal(30) == "30" && FormatDecimal(60) == "60"
    ensures FormatDecimal(90) == "90" && FormatDecimal(120) == "120" && FormatDecimal(180) == "180"
    ensures FormatDecimal(300) == "300"
  {
    assert FormatDecimal(3) == "3" && FormatDecimal(6) == "6" && FormatDecimal(9) == "9";
    assert FormatDecimal(1) == "1";
    assert FormatDecimal(12) == "12" && FormatDecimal(18) == "18";
    assert FormatDecimal(30) == "30";
  }

  lemma ExampleRow1()
    ensures FormatMarkdownRow(WorkflowBillableTime(120, 90, 60), "Workflow1") == "| Workflow1 | 120 | 90 | 60 |\n"
  {
    ExampleDecimals();
  }

  lemma ExampleRow2()
    ensures FormatMarkdownRow(WorkflowBillableTime(180, 30, 0), "Workflow2") == "| Workflow2 | 180 | 30 | 0 |\n"
  {
    ExampleDecimals();
  }

  lemma ExampleTotalRow()
    ensures FormatBoldMarkdownRow(WorkflowBillableTime(300, 120, 60), "Total") == "| **Total** | **300** | **120** | **60** |\n"
  {
    ExampleDecimals();
  }

  lemma ExampleRowsText()
    ensures Concat(Rows(ExampleTimes(), ["Workflow1", "Workflow2"]))
         == "| Workflow1 | 120 | 90 | 60 |\n" + "| Workflow2 | 180 | 30 | 0 |\n"
  {
    var w := ExampleTimes();
    assert w["Workflow1"] == WorkflowBillableTime(120, 90, 60);
    assert w["Workflow2"] == WorkflowBillableTime(180, 30, 0);
    ExampleRow1();
    ExampleRow2();
    var r1, r2 := "| Workflow1 | 120 | 90 | 60 |\n", "| Workflow2 | 180 | 30 | 0 |\n";
    var rows := Rows(w, ["Workflow1", "Workflow2"]);
    assert rows == [r1, r2];
    assert rows[1..] == [r2] && [r2][1..] == [];
    assert Concat([r2]) == r2 + "" == r2;
  }

  lemma ExampleTable()
    ensures TableText(ExampleTimes())
         == TableHeader + TableSeparator + "| Workflow1 | 120 | 90 | 60 |\n" + "| Workflow2 | 180 | 30 | 0 |\n"
  {
    ExampleNames();
    ExampleRowsText();
    AppendAssoc(TableHeader + TableSeparator, "| Workflow1 | 120 | 90 | 60 |\n", "| Workflow2 | 180 | 30 | 0 |\n");
  }

  /** The report of the package's test, line by line as the test expects
      it: the workflows in name order, then their totals. */
  lemma ReportExample()
    ensures ReportText(ExampleTimes())
      == ("# " + Title + "\n\n")
       + (TableHeader + TableSeparator
          + "| Workflow1 | 120 | 90 | 60 |\n"
          + "| Workflow2 | 180 | 30 | 0 |\n")
       + "| **Total** | **300** | **120** | **60** |\n"
       + ("\n" + Note + "\n")
  {
    ExampleTable();
    ExampleTotal();
    ExampleTotalRow();
  }

  /** A workflow's minutes per runner from its bill map. */
  function MinutesOf(billMap: BillMap): (t: WorkflowBillableTime)
    ensures WholeMinutes(billMap, "UBUNTU", t.ubuntu)
    ensures WholeMinutes(billMap, "WINDOWS", t.windows)
    ensures WholeMinutes(billMap, "MACOS", t.macos)
  {
    WorkflowBillableTime(GetMinutesForEnv(billMap, "UBUNTU"), GetMinutesForEnv(billMap, "WINDOWS"), GetMinutesForEnv(billMap, "MACOS"))
  }

  /** Every workflow's bill map could be fetched. */
  predicate AllFetched(usage: int -> Result<BillMap>, workflows: seq<Workflow>)
  {
    forall i :: 0 <= i < |workflows| ==> usage(workflows[i].id).Ok?
  }

  /** The minutes of each workflow by name, when every fetch succeeds; a
      workflow replaces an earlier one of the same name. */
  function Collected(usage: int -> Result<BillMap>, workflows: seq<Workflow>): (wbt: WorkflowBillableTimes)
    requires AllFetched(usage, workflows)
    ensures forall name :: name in wbt <==> exists i :: 0 <= i < |workflows| && workflows[i].name == name
    decreases |workflows|
  {
    if workflows == [] then map[]
    else
      var init := workflows[..|workflows| - 1];
      var last := workflows[|workflows| - 1];
      assert forall i :: 0 <= i < |init| ==> init[i] == workflows[i];
      Collected(usage, init)[last.name := MinutesOf(usage(last.id).value)]
  }

  /** The last workflow of each name decides its minutes. */
  lemma {:induction false} CollectedLastWins(usage: int -> Result<BillMap>, workflows: seq<Workflow>, i: nat)
    requires AllFetched(usage, workflows)
    requires i < |workflows|
    requires forall j :: i < j < |workflows| ==> workflows[j].name != workflows[i].name
    ensures Collected(usage, workflows)[workflows[i].name] == MinutesOf(usage(workflows[i].id).value)
    decreases |workflows|
  {
    var n := |workflows| - 1;
    if i < n {
      var init := workflows[..n];
      assert forall k :: 0 <= k < n ==> init[k] == workflows[k];
      CollectedLastWins(usage, init, i);
    }
  }

  /** Fetches each workflow's bill map in turn and records its minutes
      under its name; the first failed fetch ends the whole operation with
      its error and no map. */
  method GenerateWorkflowBillableTimes(usage: int -> Result<BillMap>, workflows: seq<Workflow>)
    returns (r: Result<WorkflowBillableTimes>)
    ensures r.Ok? <==> AllFetched(usage, workflows)
    ensures r.Ok? ==> r.value == Collected(usage, workflows)
    ensures r.Err? ==> exists i :: 0 <= i < |workflows| && AllFetched(usage, workflows[..i]) && usage(workflows[i].id) == Err(r.error)
  {
    var wbt: WorkflowBillableTimes := map[];
    var i := 0;
    while i < |workflows|
      invariant 0 <= i <= |workflows|
      invariant AllFetched(usage, workflows[..i])
      invariant wbt == Collected(usage, workflows[..i])
    {
      var workflow := workflows[i];
      var billMap := usage(workflow.id);
      if billMap.Err? {
        return Err(billMap.error);
      }
      assert workflows[..i + 1][..i] == workflows[..i];
      wbt := wbt[workflow.name := MinutesOf(billMap.value)];
      i := i + 1;
    }
    assert workflows[..i] == workflows;
    return Ok(wbt);
  }

  /** The package's tests: a workflow billed 60000 ms on Ubuntu and
      600000 ms on Windows is 1 and 10 minutes, and 0 on macOS; when its
      fetch fails the operation fails. */
  lemma CollectedExample(usage: int -> Result<BillMap>)
    ensures usage(123) == Ok(map["UBUNTU" := 60000, "WINDOWS" := 600000]) ==>
      && AllFetched(usage, [Workflow(123, "workflow1")])
      && Collected(usage, [Workflow(123, "workflow1")]) == map["workflow1" := WorkflowBillableTime(1, 10, 0)]
    ensures usage(123).Err? ==> !AllFetched(usage, [Workflow(123, "workflow1")])
  {
    var ws := [Workflow(123, "workflow1")];
    assert ws[..0] == [];
    assert ws[0].id == 123;
  }
}
