/** The markdown output of the older `gha` package
    (internal/gha/markdown.go): a title, a table of billable minutes per
    workflow without a row of totals, the closing note, and the choice of
    where the text goes.  The package declares its own title, note,
    header and separator; their text is the `bills` package's, so the
    constants of `Bills` serve both. */
module GhaMarkdown {
  import opened Wrappers
  import opened Strings
  import opened Order
  import opened Markdown
  import opened Gha
  import Bills

  /** One table row, `| name | u | w | m |`, and its newline. */
  function TableRow(name: string, e: EnvBillableTime): (row: string)
    ensures row == Bills.FormatMarkdownRow(Bills.WorkflowBillableTime(e.ubuntu, e.windows, e.macos), name)
  {
    "| " + name + " | " + FormatDecimal(e.ubuntu) + " | " + FormatDecimal(e.windows) + " | "
      + FormatDecimal(e.macos) + " |\n"
  }

  /** The table rows for the given names, in that order. */
  function TableRows(wbt: WorkflowBillableTime, names: seq<string>): (rows: seq<string>)
    requires forall k :: 0 <= k < |names| ==> names[k] in wbt
    ensures |rows| == |names|
    ensures forall k :: 0 <= k < |names| ==> rows[k] == TableRow(names[k], wbt[names[k]])
  {
    seq(|names|, k requires 0 <= k < |names| => TableRow(names[k], wbt[names[k]]))
  }

  /** The table: header, separator, then one row per workflow in
      ascending name order. */
  ghost function TableText(wbt: WorkflowBillableTime): string
  {
    Bills.TableHeader + Bills.TableSeparator + Concat(TableRows(wbt, SortedKeys(wbt.Keys)))
  }

  /** Adds the header and the separator, collects and sorts the names,
      then adds a row for each. */
  method GenerateMarkdownTable(wbt: WorkflowBillableTime) returns (table: string)
    ensures table == TableText(wbt)
  {
    table := Bills.TableHeader;
    table := table + Bills.TableSeparator;
    var workflowNames := SortKeys(wbt.Keys);
    table := AddRows(table, wbt, workflowNames);
  }

  /** Adds the row of each of `names`, in order, to `table`. */
  method AddRows(table: string, wbt: WorkflowBillableTime, names: seq<string>) returns (out: string)
    requires forall k :: 0 <= k < |names| ==> names[k] in wbt
    ensures out == table + Concat(TableRows(wbt, names))
  {
    out := table;
    var i := 0;
    assert names[..0] == [];
    while i < |names|
      invariant 0 <= i <= |names|
      invariant out == table + Concat(TableRows(wbt, names[..i]))
    {
      var row := TableRow(names[i], wbt[names[i]]);
      assert TableRows(wbt, names[..i + 1]) == TableRows(wbt, names[..i]) + [row];
      ConcatSnoc(TableRows(wbt, names[..i]), row);
      AppendAssoc(table, Concat(TableRows(wbt, names[..i])), row);
      out := out + row;
      i := i + 1;
    }
    assert names[..|names|] == names;
  }

  /** The minutes in the `bills` package's form. */
  function ToBills(wbt: WorkflowBillableTime): (w: Bills.WorkflowBillableTimes)
    ensures w.Keys == wbt.Keys
    ensures forall name :: name in wbt ==>
      w[name] == Bills.WorkflowBillableTime(wbt[name].ubuntu, wbt[name].windows, wbt[name].macos)
  {
    map name | name in wbt :: Bills.WorkflowBillableTime(wbt[name].ubuntu, wbt[name].windows, wbt[name].macos)
  }

  /** The two packages draw the same table for the same minutes. */
  lemma TableAgrees(wbt: WorkflowBillableTime)
    ensures TableText(wbt) == Bills.TableText(ToBills(wbt))
  {
    var names := SortedKeys(wbt.Keys);
    RowsAgree(wbt, names);
  }

  /** The two packages draw the same rows. */
  lemma RowsAgree(wbt: WorkflowBillableTime, names: seq<string>)
    requires forall k :: 0 <= k < |names| ==> names[k] in wbt
    ensures TableRows(wbt, names) == Bills.Rows(ToBills(wbt), names)
  {
    var w := ToBills(wbt);
    var a, b := TableRows(wbt, names), Bills.Rows(w, names);
    forall k | 0 <= k < |names|
      ensures a[k] == b[k]
    {
      var e := wbt[names[k]];
      assert w[names[k]] == Bills.WorkflowBillableTime(e.ubuntu, e.windows, e.macos);
    }
  }

  /** When no name holds a cell bar or a newline, the table is a header
      line, a separator line and one line per workflow, and reading its
      rows back gives every workflow's name and minutes. */
  lemma TableReadsBack(wbt: WorkflowBillableTime)
    requires forall name :: name in wbt ==> '|' !in name && '\n' !in name
    ensures |Split(TableText(wbt), '\n')| == |wbt| + 3
    ensures ParseTable(TableText(wbt), Bills.HeaderLine, Bills.SeparatorLine) == Some(Bills.AsRows(ToBills(wbt)))
  {
    TableAgrees(wbt);
    Bills.TableReadsBack(ToBills(wbt));
  }

  /** Any strictly ascending arrangement of the names gives the table:
      how the map was filled does not matter. */
  lemma TableOrderIndependent(wbt: WorkflowBillableTime, names: seq<string>)
    requires StrictlySorted(names)
    requires forall name :: name in names <==> name in wbt
    ensures TableText(wbt) == Bills.TableHeader + Bills.TableSeparator + Concat(TableRows(wbt, names))
  {
    SortedKeysUnique(names, wbt.Keys);
  }

  /** The whole text: the title, the table and the closing note. */
  ghost function MarkdownText(wbt: WorkflowBillableTime): string
  {
    ("# " + Bills.Title + "\n\n") + TableText(wbt) + ("\n" + Bills.Note + "\n")
  }

  /** Adds the title, the table and the note one after another. */
  method GenerateMarkdownText(wbt: WorkflowBillableTime) returns (markdown: string)
    ensures markdown == MarkdownText(wbt)
  {
    markdown := "# " + Bills.Title + "\n\n";
    var table := GenerateMarkdownTable(wbt);
    markdown := markdown + table;
    markdown := markdown + ("\n" + Bills.Note + "\n");
  }

  /** The text is the `bills` package's report for the same minutes with
      its row of totals taken out. */
  lemma MarkdownTextWithoutTotal(wbt: WorkflowBillableTime)
    ensures var before := "# " + Bills.Title + "\n\n" + TableText(wbt);
            var after := "\n" + Bills.Note + "\n";
            var total := Bills.Sum(ToBills(wbt));
            && Bills.ReportText(ToBills(wbt)) == before + Bills.FormatBoldMarkdownRow(total, "Total") + after
            && MarkdownText(wbt) == before + after
  {
    TableAgrees(wbt);
  }

  /** The two workflows of the package's markdown test. */
  function ExampleTime(): WorkflowBillableTime
  {
    map["Workflow2" := EnvBillableTime(180, 30, 0), "Workflow1" := EnvBillableTime(120, 90, 60)]
  }

  lemma ExampleTimeInBills()
    ensures ToBills(ExampleTime()) == Bills.ExampleTimes()
  {
    var w, v := ToBills(ExampleTime()), Bills.ExampleTimes();
    assert w.Keys == {"Workflow1", "Workflow2"} == v.Keys;
    assert w["Workflow1"] == v["Workflow1"] && w["Workflow2"] == v["Workflow2"];
  }

  /** The text for the package's test workflows: both rows in name order
      and no row of totals. */
  lemma MarkdownTextExample()
    ensures MarkdownText(ExampleTime())
      == ("# " + Bills.Title + "\n\n")
       + (Bills.TableHeader + Bills.TableSeparator
          + "| Workflow1 | 120 | 90 | 60 |\n"
          + "| Workflow2 | 180 | 30 | 0 |\n")
       + ("\n" + Bills.Note + "\n")
  {
    ExampleTimeInBills();
    TableAgrees(ExampleTime());
    Bills.ExampleTable();
  }

  /** Where the text is written: the GITHUB_STEP_SUMMARY value passed in,
      or standard output when that is empty or unset. */
  function GetOutputPath(stepSummary: string): (outputPath: string)
    ensures outputPath != ""
    ensures stepSummary != "" ==> outputPath == stepSummary
    ensures stepSummary == "" ==> outputPath == "/dev/stdout"
  {
    if stepSummary == "" then "/dev/stdout" else stepSummary
  }

  /** The package's tests: a set path is used, an unset one gives
      standard output. */
  lemma GetOutputPathExamples()
    ensures GetOutputPath("/path/to/out") == "/path/to/out"
    ensures GetOutputPath("") == "/dev/stdout"
  {
  }
}
