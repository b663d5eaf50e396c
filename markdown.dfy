/** Reading a rendered billable-time table back.  Both versions of the
    renderer write the same line formats; this parser is their inverse,
    used to state that a rendered table holds exactly the data it was
    given. */
module Markdown {
  import opened Wrappers
  import opened Strings

  /** The contents of one table row: a name and three minute counts. */
  datatype RowValues = RowValues(name: string, ubuntu: nat, windows: nat, macos: nat)

  /** A cell's text without the one space of padding on either side. */
  function Unpad(cell: string): Option<string>
  {
    if |cell| >= 2 && cell[0] == ' ' && cell[|cell| - 1] == ' ' then Some(cell[1..|cell| - 1]) else None
  }

  /** A text without the `**` markers around it. */
  function Unbold(s: string): Option<string>
  {
    if |s| >= 4 && s[..2] == "**" && s[|s| - 2..] == "**" then Some(s[2..|s| - 2]) else None
  }

  function CellText(cell: string, bold: bool): Option<string>
  {
    match Unpad(cell)
    case None => None
    case Some(t) => if bold then Unbold(t) else Some(t)
  }

  function CellCount(cell: string, bold: bool): Option<nat>
  {
    match CellText(cell, bold)
    case None => None
    case Some(t) => if |t| > 0 && AllDigits(t) then Some(ParseDecimal(t)) else None
  }

  /** Reads a line `| name | u | w | m |` (every cell wrapped in `**` when
      `bold`). */
  function ParseCells(line: string, bold: bool): Option<RowValues>
  {
    var cells := Split(line, '|');
    if |cells| != 6 || cells[0] != "" || cells[5] != "" then None
    else
      match (CellText(cells[1], bold), CellCount(cells[2], bold), CellCount(cells[3], bold), CellCount(cells[4], bold))
      case (Some(n), Some(u), Some(w), Some(m)) => Some(RowValues(n, u, w, m))
      case _ => None
  }

  function ParseRow(line: string): Option<RowValues>
  {
    ParseCells(line, false)
  }

  function ParseBoldRow(line: string): Option<RowValues>
  {
    ParseCells(line, true)
  }

  /** The rows collected by name; a later row with a name replaces an
      earlier one. */
  function MapOf(rows: seq<RowValues>): (m: map<string, RowValues>)
    ensures forall n :: n in m <==> exists i :: 0 <= i < |rows| && rows[i].name == n
    decreases |rows|
  {
    if rows == [] then map[]
    else
      var init := rows[..|rows| - 1];
      var last := rows[|rows| - 1];
      assert forall i :: 0 <= i < |init| ==> init[i] == rows[i];
      MapOf(init)[last.name := last]
  }

  /** The rows of a table's body, each line read with ParseRow. */
  function ParseRows(lines: seq<string>): Option<seq<RowValues>>
    decreases |lines|
  {
    if lines == [] then Some([])
    else
      match (ParseRows(lines[..|lines| - 1]), ParseRow(lines[|lines| - 1]))
      case (Some(rows), Some(row)) => Some(rows + [row])
      case _ => None
  }

  /** Reads a whole table: the header line, the separator line, then one
      row per line, each line ending in a newline. */
  function ParseTable(text: string, header: string, separator: string): Option<map<string, RowValues>>
  {
    var lines := Split(text, '\n');
    if |lines| < 3 || lines[0] != header || lines[1] != separator || lines[|lines| - 1] != "" then None
    else
      match ParseRows(lines[2..|lines| - 1])
      case None => None
      case Some(rows) => Some(MapOf(rows))
  }

  /** The text of a row line, `| t | u | w | m |`, without its newline. */
  function RowLine(t: string, u: nat, w: nat, m: nat): string
  {
    "| " + t + " | " + FormatDecimal(u) + " | " + FormatDecimal(w) + " | " + FormatDecimal(m) + " |"
  }

  /** The text of a bold row line, `| **t** | **u** | **w** | **m** |`. */
  function BoldRowLine(t: string, u: nat, w: nat, m: nat): string
  {
    "| **" + t + "** | **" + FormatDecimal(u) + "** | **" + FormatDecimal(w) + "** | **" + FormatDecimal(m) + "** |"
  }

  lemma NoBarInDigits(s: string)
    requires AllDigits(s)
    ensures '|' !in s && '*' !in s && ' ' !in s && '\n' !in s
  {
  }

  /** A row line is a single line when its name is. */
  lemma RowLinesSingle(t: string, u: nat, w: nat, m: nat)
    requires '\n' !in t
    ensures '\n' !in RowLine(t, u, w, m) && '\n' !in BoldRowLine(t, u, w, m)
  {
    NoBarInDigits(FormatDecimal(u));
    NoBarInDigits(FormatDecimal(w));
    NoBarInDigits(FormatDecimal(m));
  }

  /** The line `| t | u | w | m |` reads back as its values. */
  lemma ReadRowLine(t: string, u: nat, w: nat, m: nat)
    requires '|' !in t
    ensures ParseRow(RowLine(t, u, w, m)) == Some(RowValues(t, u, w, m))
  {
    var cells := PlainCells(t, u, w, m);
    SplitRowLine(t, u, w, m);
    PlainCell(t);
    PlainCount(u);
    PlainCount(w);
    PlainCount(m);
    ParseSixCells(RowLine(t, u, w, m), false, cells);
  }

  function PlainCells(t: string, u: nat, w: nat, m: nat): seq<string>
  {
    ["", " " + t + " ", " " + FormatDecimal(u) + " ", " " + FormatDecimal(w) + " ", " " + FormatDecimal(m) + " ", ""]
  }

  lemma SplitRowLine(t: string, u: nat, w: nat, m: nat)
    requires '|' !in t
    ensures Split(RowLine(t, u, w, m), '|') == PlainCells(t, u, w, m)
  {
    var cells := PlainCells(t, u, w, m);
    assert RowLine(t, u, w, m) == "|" + cells[1] + "|" + cells[2] + "|" + cells[3] + "|" + cells[4] + "|" by {
      var A := " ";
      assert "| " == "|" + A;
      assert " | " == A + "|" + A;
      assert " |" == A + "|";
    }
    JoinBars(cells);
    NoBarInDigits(FormatDecimal(u));
    NoBarInDigits(FormatDecimal(w));
    NoBarInDigits(FormatDecimal(m));
    SplitJoin(cells, '|');
  }

  lemma PlainCell(x: string)
    ensures CellText(" " + x + " ", false) == Some(x)
  {
    assert Unpad(" " + x + " ") == Some(x);
  }

  /** The line `| **t** | **u** | **w** | **m** |` reads back as its values. */
  lemma ReadBoldRowLine(t: string, u: nat, w: nat, m: nat)
    requires '|' !in t
    ensures ParseBoldRow(BoldRowLine(t, u, w, m)) == Some(RowValues(t, u, w, m))
  {
    var cells := BoldCells(t, u, w, m);
    SplitBoldRowLine(t, u, w, m);
    BoldCell(t);
    BoldCount(u);
    BoldCount(w);
    BoldCount(m);
    ParseSixCells(BoldRowLine(t, u, w, m), true, cells);
  }

  function BoldCells(t: string, u: nat, w: nat, m: nat): seq<string>
  {
    ["", " **" + t + "** ", " **" + FormatDecimal(u) + "** ", " **" + FormatDecimal(w) + "** ",
     " **" + FormatDecimal(m) + "** ", ""]
  }

  lemma SplitBoldRowLine(t: string, u: nat, w: nat, m: nat)
    requires '|' !in t
    ensures Split(BoldRowLine(t, u, w, m), '|') == BoldCells(t, u, w, m)
  {
    var cells := BoldCells(t, u, w, m);
    assert BoldRowLine(t, u, w, m) == "|" + cells[1] + "|" + cells[2] + "|" + cells[3] + "|" + cells[4] + "|" by {
      var A, B := " **", "** ";
      assert "| **" == "|" + A;
      assert "** | **" == B + "|" + A;
      assert "** |" == B + "|";
    }
    JoinBars(cells);
    NoBarInDigits(FormatDecimal(u));
    NoBarInDigits(FormatDecimal(w));
    NoBarInDigits(FormatDecimal(m));
    SplitJoin(cells, '|');
  }

  lemma ParseSixCells(line: string, bold: bool, cells: seq<string>)
    requires Split(line, '|') == cells && |cells| == 6 && cells[0] == "" && cells[5] == ""
    requires CellText(cells[1], bold).Some? && CellCount(cells[2], bold).Some?
    requires CellCount(cells[3], bold).Some? && CellCount(cells[4], bold).Some?
    ensures ParseCells(line, bold) == Some(RowValues(CellText(cells[1], bold).value,
      CellCount(cells[2], bold).value, CellCount(cells[3], bold).value, CellCount(cells[4], bold).value))
  {
  }

  lemma PlainCount(n: nat)
    ensures CellCount(" " + FormatDecimal(n) + " ", false) == Some(n)
  {
    var d := FormatDecimal(n);
    assert Unpad(" " + d + " ") == Some(d);
    ParseFormatDecimal(n);
  }

  lemma BoldCount(n: nat)
    ensures CellCount(" **" + FormatDecimal(n) + "** ", true) == Some(n)
  {
    BoldCell(FormatDecimal(n));
    ParseFormatDecimal(n);
  }

  /** A line of four cells between bars. */
  lemma JoinBars(cells: seq<string>)
    requires |cells| == 6 && cells[0] == "" && cells[5] == ""
    ensures Join(cells, '|') == "|" + cells[1] + "|" + cells[2] + "|" + cells[3] + "|" + cells[4] + "|"
  {
    var j4 := Join(cells[4..], '|');
    assert j4 == cells[4] + "|" by {
      assert cells[4..][1..] == cells[5..];
      assert |cells[5..]| == 1 && Join(cells[5..], '|') == "";
      assert j4 == cells[4] + "|" + "";
    }
    var j3 := Join(cells[3..], '|');
    assert j3 == cells[3] + "|" + j4 by {
      assert cells[3..][1..] == cells[4..];
    }
    var j2 := Join(cells[2..], '|');
    assert j2 == cells[2] + "|" + j3 by {
      assert cells[2..][1..] == cells[3..];
    }
    var j1 := Join(cells[1..], '|');
    assert j1 == cells[1] + "|" + j2 by {
      assert cells[1..][1..] == cells[2..];
    }
    assert Join(cells, '|') == "|" + j1;
  }

  lemma BoldCell(x: string)
    ensures CellText(" **" + x + "** ", true) == Some(x)
  {
    var c := " **" + x + "** ";
    assert c[1..|c| - 1] == "**" + x + "**";
    var b := "**" + x + "**";
    assert b[..2] == "**" && b[|b| - 2..] == "**" && b[2..|b| - 2] == x;
  }

  /** Lines that each read as a row read as those rows. */
  lemma {:induction false} ParseRowsAll(lines: seq<string>, rows: seq<RowValues>)
    requires |lines| == |rows|
    requires forall i :: 0 <= i < |lines| ==> ParseRow(lines[i]) == Some(rows[i])
    ensures ParseRows(lines) == Some(rows)
    decreases |lines|
  {
    if lines != [] {
      var n := |lines| - 1;
      ParseRowsAll(lines[..n], rows[..n]);
      assert rows[..n] + [rows[n]] == rows;
    }
  }

  /** A header line, a separator line and row lines, each ending in a
      newline, split into exactly those lines and read back as the rows. */
  lemma ReadTable(header: string, separator: string, lines: seq<string>, rows: seq<RowValues>)
    requires '\n' !in header && '\n' !in separator
    requires |lines| == |rows|
    requires forall i :: 0 <= i < |lines| ==> '\n' !in lines[i] && ParseRow(lines[i]) == Some(rows[i])
    ensures Split((header + "\n") + (separator + "\n") + Concat(Terminated(lines)), '\n')
            == [header, separator] + lines + [""]
    ensures ParseTable((header + "\n") + (separator + "\n") + Concat(Terminated(lines)), header, separator)
            == Some(MapOf(rows))
  {
    TableLines(header, separator, lines);
    var split := [header, separator] + lines + [""];
    assert split[2..|split| - 1] == lines;
    ParseRowsAll(lines, rows);
  }

  /** A header, a separator and lines, each with its newline, split back
      into those lines and an empty remainder. */
  lemma TableLines(header: string, separator: string, lines: seq<string>)
    requires '\n' !in header && '\n' !in separator
    requires forall i :: 0 <= i < |lines| ==> '\n' !in lines[i]
    ensures Split((header + "\n") + (separator + "\n") + Concat(Terminated(lines)), '\n')
            == [header, separator] + lines + [""]
  {
    var all := [header, separator] + lines;
    var h, s, c := header + "\n", separator + "\n", Concat(Terminated(lines));
    assert h + s + c == Concat(Terminated(all)) + "" by {
      var ts := Terminated(all);
      assert ts[0] == h && ts[1] == s;
      assert ts[1..][1..] == Terminated(lines);
      assert Concat(ts[1..]) == s + c;
      assert Concat(ts) == h + (s + c);
      AppendAssoc(h, s, c);
      assert Concat(ts) + "" == Concat(ts);
    }
    SplitLines(all, "");
    assert Split("", '\n') == [""];
  }

  /** The last row of each name is the one kept. */
  lemma {:induction false} MapOfLastWins(rows: seq<RowValues>, i: nat)
    requires i < |rows|
    requires forall j :: i < j < |rows| ==> rows[j].name != rows[i].name
    ensures MapOf(rows)[rows[i].name] == rows[i]
    decreases |rows|
  {
    var n := |rows| - 1;
    var init := rows[..n];
    if i < n {
      assert init[i] == rows[i];
      assert forall j :: i < j < |init| ==> init[j] == rows[j];
      MapOfLastWins(init, i);
      assert MapOf(rows) == MapOf(init)[rows[n].name := rows[n]];
    }
  }

  /** Rows with pairwise different names are all kept. */
  lemma MapOfDistinct(rows: seq<RowValues>)
    requires forall i, j :: 0 <= i < j < |rows| ==> rows[i].name != rows[j].name
    ensures forall i :: 0 <= i < |rows| ==> rows[i].name in MapOf(rows) && MapOf(rows)[rows[i].name] == rows[i]
  {
    forall i | 0 <= i < |rows|
      ensures rows[i].name in MapOf(rows) && MapOf(rows)[rows[i].name] == rows[i]
    {
      MapOfLastWins(rows, i);
    }
  }
}
