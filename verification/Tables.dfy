/** Markdown tables flattened for chat platforms (internal/channels/base.go). */
module Tables {
  import opened Text

  // ----- one row -----

  /** A trimmed line that begins and ends with a pipe and has an unescaped pipe between. */
  ghost predicate IsRow(line: string) {
    var t := TrimSpace(line);
    && |t| >= 3 && t[0] == '|' && t[|t| - 1] == '|'
    && exists i :: 1 <= i < |t| - 1 && t[i] == '|' && (i == 1 || t[i - 1] != '\\')
  }

  method IsMarkdownTableRow(line: string) returns (b: bool)
    ensures b == IsRow(line)
  {
    var trimmed := TrimSpace(line);
    if |trimmed| < 3 || trimmed[0] != '|' || trimmed[|trimmed| - 1] != '|' {
      return false;
    }
    var interior := trimmed[1..|trimmed| - 1];
    for i := 0 to |interior|
      invariant forall k :: 1 <= k < i + 1 ==> !(trimmed[k] == '|' && (k == 1 || trimmed[k - 1] != '\\'))
    {
      assert interior[i] == trimmed[i + 1];
      if interior[i] == '|' && (i == 0 || interior[i - 1] != '\\') {
        return true;
      }
    }
    b := false;
  }

  /** The cells of a row body; `cur` is the cell read so far. */
  function Cells(body: string, cur: string): (cells: seq<string>)
    ensures cells != []
  {
    if body == [] then [TrimSpace(cur)]
    else if body[0] == '\\' && |body| > 1 && body[1] == '|' then Cells(body[2..], cur + "|")
    else if body[0] == '|' then [TrimSpace(cur)] + Cells(body[1..], "")
    else Cells(body[1..], cur + [body[0]])
  }

  /** The trimmed line without its leading and trailing pipe. */
  function RowBody(line: string): string {
    var t := TrimSpace(line);
    var lo := if t != [] && t[0] == '|' then 1 else 0;
    var hi := if |t| > lo && t[|t| - 1] == '|' then |t| - 1 else |t|;
    t[lo..hi]
  }

  function ParseRow(line: string): seq<string> {
    Cells(RowBody(line), "")
  }

  method ParseMarkdownTableRow(line: string) returns (cells: seq<string>)
    ensures cells == ParseRow(line)
  {
    var trimmed := TrimSpace(line);
    if trimmed != [] && trimmed[0] == '|' {
      trimmed := trimmed[1..];
    }
    if trimmed != [] && trimmed[|trimmed| - 1] == '|' {
      trimmed := trimmed[..|trimmed| - 1];
    }
    assert trimmed == RowBody(line);
    cells := [];
    var cur := "";
    var i := 0;
    while i < |trimmed|
      invariant 0 <= i <= |trimmed|
      invariant cells + Cells(trimmed[i..], cur) == ParseRow(line)
    {
      var c := trimmed[i];
      assert trimmed[i..][0] == c && trimmed[i..][1..] == trimmed[i + 1..];
      if c == '\\' && i + 1 < |trimmed| && trimmed[i + 1] == '|' {
        assert trimmed[i..][1] == '|' && trimmed[i..][2..] == trimmed[i + 2..];
        cur := cur + "|";
        i := i + 2;
        continue;
      }
      if c == '|' {
        cells := cells + [TrimSpace(cur)];
        cur := "";
        i := i + 1;
        continue;
      }
      cur := cur + [c];
      i := i + 1;
    }
    cells := cells + [TrimSpace(cur)];
  }

  /** A cell as it is written in a row: each literal pipe carries a backslash. */
  function Escape(cell: string): string {
    if cell == [] then []
    else (if cell[0] == '|' then "\\|" else [cell[0]]) + Escape(cell[1..])
  }

  function PrintBody(cells: seq<string>): string
    requires cells != []
  {
    " " + Escape(cells[0]) + " " + if |cells| == 1 then "" else "|" + PrintBody(cells[1..])
  }

  /** `| c1 | c2 |` with the pipes inside cells escaped. */
  function PrintRow(cells: seq<string>): string
    requires cells != []
  {
    "|" + PrintBody(cells) + "|"
  }

  /** Escaped text is read back literally, a trailing backslash included, as long as no
      pipe follows it directly. */
  lemma CellsOfEscapedPipe(rest: string, cur: string)
    ensures Cells("\\|" + rest, cur) == Cells(rest, cur + ['|'])
  {
    assert ("\\|" + rest)[2..] == rest;
  }

  lemma CellsOfPlain(c: char, rest: string, cur: string)
    requires c != '|' && rest != [] && rest[0] != '|'
    ensures Cells([c] + rest, cur) == Cells(rest, cur + [c])
  {
    assert ([c] + rest)[1..] == rest;
  }

  lemma EscapeStart(cell: string, tail: string)
    requires tail != [] && tail[0] != '|'
    ensures Escape(cell) + tail != [] && (Escape(cell) + tail)[0] != '|'
  {
    if cell == [] {
      assert Escape(cell) + tail == tail;
    }
  }

  lemma {:induction false} CellsOfEscaped(cell: string, cur: string, tail: string)
    requires tail != [] && tail[0] != '|'
    ensures Cells(Escape(cell) + tail, cur) == Cells(tail, cur + cell)
  {
    if cell == [] {
      assert Escape(cell) + tail == tail && cur + cell == cur;
    } else {
      var rest := Escape(cell[1..]) + tail;
      CellsOfEscaped(cell[1..], cur + [cell[0]], tail);
      assert cur + [cell[0]] + cell[1..] == cur + cell;
      EscapeStart(cell[1..], tail);
      hide Cells;
      if cell[0] == '|' {
        assert Escape(cell) + tail == "\\|" + rest;
        CellsOfEscapedPipe(rest, cur);
      } else {
        assert Escape(cell) + tail == [cell[0]] + rest;
        CellsOfPlain(cell[0], rest, cur);
      }
    }
  }

  lemma CellsOfSpace(rest: string, cur: string)
    ensures Cells(" " + rest, cur) == Cells(rest, cur + " ")
  {
    assert (" " + rest)[1..] == rest;
  }

  lemma CellsEnd(after: string, cur: string)
    requires after != "" ==> after[0] == '|'
    ensures Cells(after, cur) == if after == "" then [TrimSpace(cur)] else [TrimSpace(cur)] + Cells(after[1..], "")
  {
  }

  lemma CellsOfOne(c: string, after: string)
    requires Trimmed(c) && (after != "" ==> after[0] == '|')
    ensures Cells(" " + Escape(c) + " " + after, "")
         == if after == "" then [c] else [c] + Cells(after[1..], "")
  {
    hide Cells, Trimmed;
    var tail := " " + after;
    assert " " + Escape(c) + " " + after == " " + (Escape(c) + tail) && "" + " " == " ";
    CellsOfSpace(Escape(c) + tail, "");
    CellsOfEscaped(c, " ", tail);
    CellsOfSpace(after, " " + c);
    CellsEnd(after, " " + c + " ");
    TrimSpaceOf(" ", c, " ");
  }

  lemma {:induction false} CellsOfPrinted(cells: seq<string>)
    requires cells != [] && forall c :: c in cells ==> Trimmed(c)
    ensures Cells(PrintBody(cells), "") == cells
  {
    var after := if |cells| == 1 then "" else "|" + PrintBody(cells[1..]);
    CellsOfOne(cells[0], after);
    if |cells| > 1 {
      CellsOfPrinted(cells[1..]);
      assert after[1..] == PrintBody(cells[1..]);
    }
  }

  lemma PrintRowShape(cells: seq<string>)
    requires cells != []
    ensures TrimSpace(PrintRow(cells)) == PrintRow(cells) && RowBody(PrintRow(cells)) == PrintBody(cells)
  {
    var s := PrintRow(cells);
    TrimSpaceOf("", s, "");
    assert "" + s + "" == s;
    assert s[1..][..|s| - 2] == PrintBody(cells);
  }

  /** Parsing a printed row gives the cells back, whatever pipes and backslashes they hold. */
  lemma ParseOfPrint(cells: seq<string>)
    requires cells != [] && forall c :: c in cells ==> Trimmed(c)
    ensures ParseRow(PrintRow(cells)) == cells
  {
    PrintRowShape(cells);
    CellsOfPrinted(cells);
  }

  lemma {:induction false} EscapedPipes(cell: string)
    ensures forall i :: 0 <= i < |Escape(cell)| && Escape(cell)[i] == '|' ==>
                          i > 0 && Escape(cell)[i - 1] == '\\'
  {
    if cell != [] {
      EscapedPipes(cell[1..]);
      assert cell[0] == '|' ==> Escape(cell) == "\\|" + Escape(cell[1..]);
    }
  }

  /** A printed row is recognised as a table row exactly when it has two cells or more. */
  lemma PrintedRowIsRow(cells: seq<string>)
    requires cells != []
    ensures IsRow(PrintRow(cells)) <==> |cells| >= 2
  {
    PrintRowShape(cells);
    var s := PrintRow(cells);
    var e := Escape(cells[0]);
    EscapedPipes(cells[0]);
    if |cells| >= 2 {
      assert s[|e| + 2] == ' ' && s[|e| + 3] == '|';
      assert |PrintBody(cells[1..])| >= 2;
    } else {
      assert s == "| " + e + " |";
      forall i | 1 <= i < |s| - 1 ensures !(s[i] == '|' && (i == 1 || s[i - 1] != '\\')) {
        if 2 <= i < |e| + 2 { assert s[i] == e[i - 2] && (i > 2 ==> s[i - 1] == e[i - 3]); }
      }
    }
  }

  // ----- separator rows -----

  predicate IsDashes(s: string) {
    s != [] && forall c :: c in s ==> c == '-'
  }

  /** A separator cell: empty, or dashes between optional colons. */
  predicate IsSeparatorCell(cell: string) {
    var c := TrimSpace(cell);
    var d := if c != [] && c[0] == ':' then c[1..] else c;
    c == "" || IsDashes(if d != [] && d[|d| - 1] == ':' then d[..|d| - 1] else d)
  }

  ghost predicate IsSeparator(line: string) {
    IsRow(line) && forall c :: c in ParseRow(line) ==> IsSeparatorCell(c)
  }

  method IsMarkdownTableSeparator(line: string) returns (b: bool)
    ensures b == IsSeparator(line)
  {
    var row := IsMarkdownTableRow(line);
    if !row {
      return false;
    }
    var cells := ParseMarkdownTableRow(line);
    if |cells| == 0 {
      return false;
    }
    for k := 0 to |cells|
      invariant forall c :: c in cells[..k] ==> IsSeparatorCell(c)
    {
      assert cells[..k + 1] == cells[..k] + [cells[k]];
      var c := TrimSpace(cells[k]);
      if c == "" {
        continue;
      }
      if c[0] == ':' {
        c := c[1..];
      }
      if c != [] && c[|c| - 1] == ':' {
        c := c[..|c| - 1];
      }
      if c == "" {
        assert !IsSeparatorCell(cells[k]) && cells[k] in cells;
        return false;
      }
      for j := 0 to |c|
        invariant forall i :: 0 <= i < j ==> c[i] == '-'
      {
        if c[j] != '-' {
          assert c[j] in c && !IsSeparatorCell(cells[k]) && cells[k] in cells;
          return false;
        }
      }
    }
    assert cells[..|cells|] == cells;
    b := true;
  }

  // ----- whole tables -----

  function Columns(rows: seq<seq<string>>): nat {
    if rows == [] then 0 else
      var c := Columns(rows[1..]);
      if |rows[0]| > c then |rows[0]| else c
  }

  function Pad(row: seq<string>, cols: nat): seq<string>
    decreases cols - |row|
  {
    if |row| < cols then Pad(row + [""], cols) else row
  }

  /** The one output line of a table row. */
  function RowLine(row: seq<string>, cols: nat): string {
    if cols == 2 then (if |row| > 0 then row[0] else "") + ": " + (if |row| > 1 then row[1] else "")
    else Join(Pad(row, cols), " · ")
  }

  function RowLines(rows: seq<seq<string>>, cols: nat): (lines: seq<string>)
    ensures |lines| == |rows|
  {
    if rows == [] then [] else [RowLine(rows[0], cols)] + RowLines(rows[1..], cols)
  }

  function Render(rows: seq<seq<string>>): string {
    Join(RowLines(rows, Columns(rows)), "\n")
  }

  lemma {:induction false} JoinSnoc(parts: seq<string>, last: string, sep: string)
    ensures Join(parts + [last], sep) == if parts == [] then last else Join(parts, sep) + sep + last
  {
    if |parts| >= 1 {
      assert (parts + [last])[1..] == parts[1..] + [last];
      JoinSnoc(parts[1..], last, sep);
      if |parts| == 1 { assert parts[1..] == []; }
    }
  }

  lemma {:induction false} RowLinesSnoc(rows: seq<seq<string>>, row: seq<string>, cols: nat)
    ensures RowLines(rows + [row], cols) == RowLines(rows, cols) + [RowLine(row, cols)]
  {
    if rows == [] {
      assert [row][1..] == [];
    } else {
      assert (rows + [row])[1..] == rows[1..] + [row];
      RowLinesSnoc(rows[1..], row, cols);
    }
  }

  lemma {:induction false} ColumnsSnoc(rows: seq<seq<string>>, row: seq<string>)
    ensures Columns(rows + [row]) == if |row| > Columns(rows) then |row| else Columns(rows)
  {
    if rows == [] {
      assert [row][1..] == [];
    } else {
      assert (rows + [row])[1..] == rows[1..] + [row];
      ColumnsSnoc(rows[1..], row);
    }
  }

  method RenderFlatTable(rows: seq<seq<string>>) returns (b: string)
    ensures b == Render(rows)
  {
    if |rows| == 0 {
      return "";
    }
    var cols := 0;
    for k := 0 to |rows|
      invariant cols == Columns(rows[..k])
    {
      assert rows[..k + 1] == rows[..k] + [rows[k]];
      ColumnsSnoc(rows[..k], rows[k]);
      if |rows[k]| > cols {
        cols := |rows[k]|;
      }
    }
    assert rows[..|rows|] == rows;
    b := "";
    for i := 0 to |rows|
      invariant b == Join(RowLines(rows[..i], cols), "\n")
    {
      var r := rows[i];
      assert rows[..i + 1] == rows[..i] + [r];
      RowLinesSnoc(rows[..i], r, cols);
      JoinSnoc(RowLines(rows[..i], cols), RowLine(r, cols), "\n");
      if i > 0 {
        b := b + "\n";
      }
      if cols == 2 {
        var left, right := "", "";
        if |r| > 0 {
          left := r[0];
        }
        if |r| > 1 {
          right := r[1];
        }
        b := b + (left + ": " + right);
      } else {
        var padded := r;
        while |padded| < cols
          invariant Pad(padded, cols) == Pad(r, cols)
          decreases cols - |padded|
        {
          padded := padded + [""];
        }
        b := b + Join(padded, " · ");
      }
    }
  }

  /** How many of the leading lines are table rows. */
  ghost function RowRun(lines: seq<string>): (k: nat)
    ensures k <= |lines|
  {
    if lines != [] && IsRow(lines[0]) then 1 + RowRun(lines[1..]) else 0
  }

  lemma RowRunStep(lines: seq<string>, i: nat)
    requires i <= |lines|
    ensures RowRun(lines[i..]) == if i < |lines| && IsRow(lines[i]) then 1 + RowRun(lines[i + 1..]) else 0
  {
    if i < |lines| {
      assert lines[i..][1..] == lines[i + 1..];
    }
  }

  ghost predicate TableAt(lines: seq<string>, i: int) {
    0 <= i && i + 1 < |lines| && IsRow(lines[i]) && IsSeparator(lines[i + 1])
  }

  ghost function ParseRows(lines: seq<string>): (rows: seq<seq<string>>)
    ensures |rows| == |lines|
  {
    if lines == [] then [] else [ParseRow(lines[0])] + ParseRows(lines[1..])
  }

  /** The text blocks of a message: a plain line, or a table with its header and data rows. */
  datatype Block = Plain(line: string) | Table(header: string, separator: string, data: seq<string>)

  ghost function Blocks(lines: seq<string>): seq<Block>
    decreases |lines|
  {
    if lines == [] then []
    else if TableAt(lines, 0) then
      var k := RowRun(lines[2..]);
      [Table(lines[0], lines[1], lines[2..2 + k])] + Blocks(lines[2 + k..])
    else [Plain(lines[0])] + Blocks(lines[1..])
  }

  ghost function BlockText(b: Block): string {
    match b
    case Plain(line) => line
    case Table(header, _, data) => Render([ParseRow(header)] + ParseRows(data))
  }

  ghost function BlockTexts(bs: seq<Block>): seq<string> {
    if bs == [] then [] else [BlockText(bs[0])] + BlockTexts(bs[1..])
  }

  ghost function Flattened(text: string): string {
    Join(BlockTexts(Blocks(Split(text, "\n"))), "\n")
  }

  method FlattenMarkdownTables(text: string) returns (flat: string)
    ensures flat == Flattened(text)
  {
    if '|' !in text {
      NoPipeNoTable(text);
      return text;
    }
    var lines := Split(text, "\n");
    var out := [];
    var i := 0;
    while i < |lines|
      invariant 0 <= i <= |lines|
      invariant BlockTexts(Blocks(lines)) == out + BlockTexts(Blocks(lines[i..]))
    {
      var block;
      block, i := NextBlock(lines, i);
      out := out + [block];
    }
    assert lines[i..] == [] && BlockTexts(Blocks(lines)) == out + [] == out;
    flat := Join(out, "\n");
  }

  /** The body of the line loop: the output for the table or the plain line at `i`. */
  method NextBlock(lines: seq<string>, i: nat) returns (block: string, next: nat)
    requires i < |lines|
    ensures i < next <= |lines|
    ensures BlockTexts(Blocks(lines[i..])) == [block] + BlockTexts(Blocks(lines[next..]))
  {
    var table := false;
    if i + 1 < |lines| {
      table := IsMarkdownTableRow(lines[i]);
      if table {
        table := IsMarkdownTableSeparator(lines[i + 1]);
      }
    }
    if table {
      var rows;
      rows, next := CollectTable(lines, i);
      TableStep(lines, i, next);
      block := RenderFlatTable(rows);
    } else {
      PlainStep(lines, i);
      block, next := lines[i], i + 1;
    }
  }

  /** Consumes the header, the separator and the data rows of the table at line `i`. */
  method CollectTable(lines: seq<string>, i: nat) returns (rows: seq<seq<string>>, next: nat)
    requires i + 2 <= |lines|
    ensures next == i + 2 + RowRun(lines[i + 2..]) && next <= |lines|
    ensures rows == [ParseRow(lines[i])] + ParseRows(lines[i + 2..next])
  {
    var header := ParseMarkdownTableRow(lines[i]);
    ghost var start := i + 2;
    next := i + 2;
    rows := [header];
    while next < |lines|
      invariant start <= next <= |lines| && |rows| == next - i - 1 && rows[0] == header
      invariant forall j :: start <= j < next ==> IsRow(lines[j])
      invariant forall j :: start <= j < next ==> rows[j - i - 1] == ParseRow(lines[j])
    {
      var more := IsMarkdownTableRow(lines[next]);
      if !more {
        break;
      }
      var row := ParseMarkdownTableRow(lines[next]);
      rows := rows + [row];
      next := next + 1;
    }
    RunFrom(lines, start, next);
    CollectedRows(lines, i, next, rows);
  }

  lemma CollectedRows(lines: seq<string>, i: nat, next: nat, rows: seq<seq<string>>)
    requires i + 2 <= next <= |lines| && |rows| == next - i - 1 && rows[0] == ParseRow(lines[i])
    requires forall j :: i + 2 <= j < next ==> rows[j - i - 1] == ParseRow(lines[j])
    ensures rows == [ParseRow(lines[i])] + ParseRows(lines[i + 2..next])
  {
    ParseRowsAt(lines[i + 2..next], rows[1..]);
  }

  lemma {:induction false} RunFrom(lines: seq<string>, start: nat, next: nat)
    requires start <= next <= |lines|
    requires forall j :: start <= j < next ==> IsRow(lines[j])
    requires next < |lines| ==> !IsRow(lines[next])
    ensures RowRun(lines[start..]) == next - start
    decreases next - start
  {
    RowRunStep(lines, start);
    if start < next {
      RunFrom(lines, start + 1, next);
    }
  }

  lemma {:induction false} ParseRowsAt(lines: seq<string>, rows: seq<seq<string>>)
    requires |rows| == |lines| && forall j :: 0 <= j < |lines| ==> rows[j] == ParseRow(lines[j])
    ensures ParseRows(lines) == rows
  {
    if lines != [] {
      ParseRowsAt(lines[1..], rows[1..]);
    }
  }

  lemma TableStep(lines: seq<string>, i: nat, next: nat)
    requires TableAt(lines, i) && next == i + 2 + RowRun(lines[i + 2..])
    ensures BlockTexts(Blocks(lines[i..]))
         == [Render([ParseRow(lines[i])] + ParseRows(lines[i + 2..next]))] + BlockTexts(Blocks(lines[next..]))
  {
    var rest, k := lines[i..], RowRun(lines[i + 2..]);
    assert TableAt(rest, 0) && rest[2..] == lines[i + 2..];
    assert rest[2..2 + k] == lines[i + 2..next] && rest[2 + k..] == lines[next..];
    var b := Table(lines[i], lines[i + 1], lines[i + 2..next]);
    assert Blocks(rest) == [b] + Blocks(lines[next..]);
    assert ([b] + Blocks(lines[next..]))[1..] == Blocks(lines[next..]);
  }

  lemma PlainStep(lines: seq<string>, i: nat)
    requires i < |lines| && !TableAt(lines, i)
    ensures BlockTexts(Blocks(lines[i..])) == [lines[i]] + BlockTexts(Blocks(lines[i + 1..]))
  {
    assert !TableAt(lines[i..], 0) && lines[i..][1..] == lines[i + 1..];
    var b := Plain(lines[i]);
    assert Blocks(lines[i..]) == [b] + Blocks(lines[i + 1..]);
    assert ([b] + Blocks(lines[i + 1..]))[1..] == Blocks(lines[i + 1..]);
  }

  // ----- what flattening keeps -----

  ghost function BlockLines(b: Block): seq<string> {
    match b
    case Plain(line) => [line]
    case Table(header, separator, data) => [header, separator] + data
  }

  /** The lines a block turns into: a plain line stays, a table gives one line for its
      header and one for each data row. */
  ghost function OutLines(b: Block): seq<string> {
    match b
    case Plain(line) => [line]
    case Table(header, _, data) =>
      var rows := [ParseRow(header)] + ParseRows(data);
      RowLines(rows, Columns(rows))
  }

  ghost function AllLines(bs: seq<Block>): seq<string> {
    if bs == [] then [] else BlockLines(bs[0]) + AllLines(bs[1..])
  }

  ghost function AllOutLines(bs: seq<Block>): seq<string> {
    if bs == [] then [] else OutLines(bs[0]) + AllOutLines(bs[1..])
  }

  ghost function TableCount(bs: seq<Block>): nat {
    if bs == [] then 0 else (if bs[0].Table? then 1 else 0) + TableCount(bs[1..])
  }

  lemma FirstBlock(lines: seq<string>)
    requires lines != []
    ensures var b := Blocks(lines)[0];
            var n := |BlockLines(b)|;
            0 < n <= |lines| && BlockLines(b) == lines[..n] && Blocks(lines) == [b] + Blocks(lines[n..])
  {
    if TableAt(lines, 0) {
      var k := RowRun(lines[2..]);
      assert [lines[0], lines[1]] + lines[2..2 + k] == lines[..2 + k];
    }
  }

  /** The blocks are a segmentation of the lines: reading them off gives the lines back. */
  lemma {:induction false} BlocksCoverLines(lines: seq<string>)
    ensures AllLines(Blocks(lines)) == lines
    decreases |lines|
  {
    if lines != [] {
      FirstBlock(lines);
      var b := Blocks(lines)[0];
      hide Blocks, BlockLines;
      var n := |BlockLines(b)|;
      BlocksCoverLines(lines[n..]);
      assert ([b] + Blocks(lines[n..]))[1..] == Blocks(lines[n..]);
      assert lines == lines[..n] + lines[n..];
    }
  }

  lemma {:induction false} OutLineCount(bs: seq<Block>)
    ensures |AllOutLines(bs)| + TableCount(bs) == |AllLines(bs)|
  {
    if bs != [] {
      OutLineCount(bs[1..]);
    }
  }

  ghost predicate OneLine(s: string) {
    '\n' !in s
  }

  ghost predicate OneLiners(ss: seq<string>) {
    forall s :: s in ss ==> OneLine(s)
  }

  lemma OneLineContains(s: string)
    ensures OneLine(s) <==> !Contains(s, "\n")
  {
    if !OneLine(s) {
      var i :| 0 <= i < |s| && s[i] == '\n';
      assert HasAt(s, i, "\n");
    } else {
      forall i: nat | i < |s| ensures !HasAt(s, i, "\n") {
        assert s[i] in s && s[i..i + 1] == [s[i]];
      }
    }
  }

  lemma TrimOneLine(s: string)
    requires OneLine(s)
    ensures OneLine(TrimSpace(s))
  {
    var a, b := TrimSpaceMargins(s);
  }

  lemma {:induction false} CellsOneLine(body: string, cur: string)
    requires OneLine(body) && OneLine(cur)
    ensures OneLiners(Cells(body, cur))
    decreases |body|
  {
    TrimOneLine(cur);
    if body != [] {
      if body[0] == '\\' && |body| > 1 && body[1] == '|' { CellsOneLine(body[2..], cur + "|"); }
      else if body[0] == '|' { CellsOneLine(body[1..], ""); }
      else { CellsOneLine(body[1..], cur + [body[0]]); }
    }
  }

  lemma {:induction false} JoinOneLine(parts: seq<string>, sep: string)
    requires OneLiners(parts) && OneLine(sep)
    ensures OneLine(Join(parts, sep))
  {
    if parts != [] {
      assert parts[0] in parts;
      JoinOneLine(parts[1..], sep);
    }
  }

  lemma {:induction false} PadOneLine(row: seq<string>, cols: nat)
    requires OneLiners(row)
    ensures OneLiners(Pad(row, cols))
    decreases cols - |row|
  {
    if |row| < cols {
      PadOneLine(row + [""], cols);
    }
  }

  lemma {:induction false} RowLinesOneLine(rows: seq<seq<string>>, cols: nat)
    requires forall r :: r in rows ==> OneLiners(r)
    ensures OneLiners(RowLines(rows, cols))
  {
    if rows != [] {
      var r := rows[0];
      assert r in rows && (|r| > 0 ==> r[0] in r) && (|r| > 1 ==> r[1] in r);
      RowLinesOneLine(rows[1..], cols);
      PadOneLine(rows[0], cols);
      JoinOneLine(Pad(rows[0], cols), " · ");
    }
  }

  lemma {:induction false} ParseRowsOneLine(lines: seq<string>)
    requires OneLiners(lines)
    ensures forall r :: r in ParseRows(lines) ==> OneLiners(r)
  {
    if lines != [] {
      assert lines[0] in lines;
      TrimOneLine(lines[0]);
      CellsOneLine(RowBody(lines[0]), "");
      ParseRowsOneLine(lines[1..]);
    }
  }

  lemma SplitBlockText(b: Block)
    requires OneLiners(BlockLines(b))
    ensures Split(BlockText(b), "\n") == OutLines(b)
  {
    match b
    case Plain(line) =>
      assert line in BlockLines(b);
      OneLineContains(line);
      SplitOfJoinFree([line], "\n");
    case Table(header, separator, data) =>
      assert BlockLines(b) == [header, separator] + data;
      var rows := ParseRows([header] + data);
      assert ([header] + data)[0] == header && ([header] + data)[1..] == data;
      ParseRowsOneLine([header] + data);
      RowLinesOneLine(rows, Columns(rows));
      forall l | l in OutLines(b) ensures !Contains(l, "\n") { OneLineContains(l); }
      SplitOfJoinFree(OutLines(b), "\n");
  }

  lemma {:induction false} SplitBlockTexts(bs: seq<Block>)
    requires OneLiners(AllLines(bs))
    ensures FlatSplit(BlockTexts(bs), "\n") == AllOutLines(bs)
  {
    if bs != [] {
      assert forall s :: s in BlockLines(bs[0]) || s in AllLines(bs[1..]) ==> s in AllLines(bs);
      SplitBlockText(bs[0]);
      SplitBlockTexts(bs[1..]);
      assert BlockTexts(bs)[1..] == BlockTexts(bs[1..]);
    }
  }

  lemma LinesOneLine(text: string)
    ensures OneLiners(Split(text, "\n"))
  {
    SplitPartsFree(text, "\n");
    forall l | l in Split(text, "\n") ensures OneLine(l) { OneLineContains(l); }
  }

  /** The lines of the output are the output lines of the blocks, in order: every plain line
      is copied unchanged and the line count drops by one for each table. */
  lemma FlattenKeepsLines(text: string)
    ensures Split(Flattened(text), "\n") == AllOutLines(Blocks(Split(text, "\n")))
    ensures |Split(Flattened(text), "\n")| == |Split(text, "\n")| - TableCount(Blocks(Split(text, "\n")))
  {
    var lines := Split(text, "\n");
    LinesOneLine(text);
    BlocksCoverLines(lines);
    SplitBlockTexts(Blocks(lines));
    SplitOfJoin(BlockTexts(Blocks(lines)), "\n");
    OutLineCount(Blocks(lines));
  }

  lemma {:induction false} NoTableCount(lines: seq<string>)
    ensures TableCount(Blocks(lines)) == 0 <==> forall i :: !TableAt(lines, i)
    ensures TableCount(Blocks(lines)) == 0 ==> BlockTexts(Blocks(lines)) == lines
    decreases |lines|
  {
    if lines != [] && !TableAt(lines, 0) {
      NoTableCount(lines[1..]);
      var bs := Blocks(lines);
      assert bs[1..] == Blocks(lines[1..]);
      assert forall i :: 0 <= i ==> TableAt(lines[1..], i) == TableAt(lines, i + 1);
      assert forall i :: i > 0 && TableAt(lines, i) ==> TableAt(lines[1..], i - 1);
    }
  }

  /** A text passes through unchanged exactly when no row is followed by a separator row. */
  lemma FlattenIdentity(text: string)
    ensures Flattened(text) == text <==> forall i :: !TableAt(Split(text, "\n"), i)
  {
    NoTableCount(Split(text, "\n"));
    FlattenKeepsLines(text);
    JoinOfSplit(text, "\n");
  }

  lemma NoPipeNoTable(text: string)
    requires '|' !in text
    ensures Flattened(text) == text
  {
    var lines := Split(text, "\n");
    forall i ensures !TableAt(lines, i) {
      if 0 <= i < |lines| {
        var a, b := TrimSpaceMargins(lines[i]);
        PartChars(text, "\n");
        assert lines[i] in lines;
        if |TrimSpace(lines[i])| > 0 { assert TrimSpace(lines[i])[0] == lines[i][a]; }
      }
    }
    FlattenIdentity(text);
  }

  lemma {:induction false} PartChars(s: string, sep: string)
    requires sep != []
    ensures forall p, c :: p in Split(s, sep) && c in p ==> c in s
    decreases |s|
  {
    if Index(s, sep) >= 0 {
      PartChars(s[Index(s, sep) + |sep|..], sep);
    }
  }

  // ----- what is written -----

  /** The cell in a column, or nothing if the row is too short. */
  function CellAt(row: seq<string>, j: nat): string {
    if j < |row| then row[j] else ""
  }

  lemma {:induction false} PadIs(row: seq<string>, cols: nat)
    requires |row| <= cols
    ensures Pad(row, cols) == seq(cols, j requires 0 <= j < cols => CellAt(row, j))
    decreases cols - |row|
  {
    if |row| < cols {
      PadIs(row + [""], cols);
      assert forall j :: 0 <= j < cols ==> CellAt(row + [""], j) == CellAt(row, j);
    }
  }

  lemma {:induction false} ColumnsAre(rows: seq<seq<string>>)
    ensures forall r :: r in rows ==> |r| <= Columns(rows)
    ensures rows != [] ==> exists r :: r in rows && |r| == Columns(rows)
  {
    if rows != [] {
      ColumnsAre(rows[1..]);
      assert rows[0] in rows;
      if |rows[0]| < Columns(rows) {
        var r :| r in rows[1..] && |r| == Columns(rows[1..]);
        assert r in rows;
      }
    }
  }

  lemma {:induction false} RowLinesAt(rows: seq<seq<string>>, cols: nat, i: nat)
    requires i < |rows|
    ensures RowLines(rows, cols)[i] == RowLine(rows[i], cols)
  {
    if i > 0 {
      RowLinesAt(rows[1..], cols, i - 1);
    }
  }

  /** A row on its line: two columns with a colon between them, others with middle dots. */
  function Written(row: seq<string>, cols: nat): string {
    if cols == 2 then CellAt(row, 0) + ": " + CellAt(row, 1)
    else Join(seq(cols, j requires 0 <= j < cols => CellAt(row, j)), " · ")
  }

  /** A table is written line by line, its cells in order, every row filled up to the widest one. */
  lemma RenderIs(rows: seq<seq<string>>)
    ensures var n := Columns(rows);
            && (forall r :: r in rows ==> |r| <= n) && (rows != [] ==> exists r :: r in rows && |r| == n)
            && Render(rows) == Join(seq(|rows|, i requires 0 <= i < |rows| => Written(rows[i], n)), "\n")
  {
    hide Join, Columns, RowLines, RowLine, Written;
    var n := Columns(rows);
    ColumnsAre(rows);
    var lines := seq(|rows|, i requires 0 <= i < |rows| => Written(rows[i], n));
    forall i | 0 <= i < |rows| ensures RowLines(rows, n)[i] == lines[i] {
      RowLinesAt(rows, n, i);
      assert rows[i] in rows;
      RowLineIs(rows[i], n);
    }
    assert RowLines(rows, n) == lines;
  }

  lemma RowLineIs(row: seq<string>, cols: nat)
    requires |row| <= cols
    ensures RowLine(row, cols) == Written(row, cols)
  {
    hide Join, Pad;
    PadIs(row, cols);
  }

  /** A row of dashes. */
  function Dashes(n: nat): (s: string)
    ensures |s| == n && forall i :: 0 <= i < n ==> s[i] == '-'
  {
    seq(n, i => '-')
  }

  /** `n` dashes with a colon before, behind, both or none. */
  predicate DashForm(c: string, n: nat) {
    && n > 0
    && (c == Dashes(n) || c == ":" + Dashes(n) || c == Dashes(n) + ":" || c == ":" + Dashes(n) + ":")
  }

  /** What is left of a cell without one colon before and one behind. */
  function Uncoloned(c: string): string {
    var d := if c != [] && c[0] == ':' then c[1..] else c;
    if d != [] && d[|d| - 1] == ':' then d[..|d| - 1] else d
  }

  lemma FormOfDashes(c: string)
    requires IsDashes(Uncoloned(c))
    ensures DashForm(c, |Uncoloned(c)|)
  {
    var d := if c != [] && c[0] == ':' then c[1..] else c;
    var e := Uncoloned(c);
    assert forall i :: 0 <= i < |e| ==> e[i] in e;
    assert e == Dashes(|e|);
    assert d == e || d == e + ":";
    assert c == d || c == ":" + d;
    assert ":" + (e + ":") == ":" + e + ":";
  }

  lemma DashesOfForm(c: string, n: nat)
    requires DashForm(c, n)
    ensures c != "" && IsDashes(Uncoloned(c))
  {
    var d := if c != [] && c[0] == ':' then c[1..] else c;
    assert d == Dashes(n) || d == Dashes(n) + ":";
    assert Uncoloned(c) == Dashes(n);
  }

  /** A separator cell is blank, or one dash or more with a colon before, behind, or both. */
  lemma SeparatorCellIs(cell: string)
    ensures IsSeparatorCell(cell) <==> TrimSpace(cell) == "" || exists n: nat :: DashForm(TrimSpace(cell), n)
  {
    var c := TrimSpace(cell);
    assert IsSeparatorCell(cell) <==> c == "" || IsDashes(Uncoloned(c));
    hide TrimSpace, DashForm, IsDashes, IsSeparatorCell;
    if IsDashes(Uncoloned(c)) {
      FormOfDashes(c);
    }
    if n: nat :| DashForm(c, n) {
      DashesOfForm(c, n);
    }
  }

  // ----- which lines become a table -----

  /** A row with a separator behind it opens a table, which takes all rows that follow; they are
      parsed and written in order, the separator is dropped. */
  lemma TableIs(head: string, separator: string, data: seq<string>, rest: seq<string>)
    requires IsRow(head) && IsSeparator(separator) && (forall r :: r in data ==> IsRow(r))
    requires rest != [] ==> !IsRow(rest[0])
    ensures var rows := [ParseRow(head)] + seq(|data|, i requires 0 <= i < |data| => ParseRow(data[i]));
            BlockTexts(Blocks([head, separator] + data + rest)) == [Render(rows)] + BlockTexts(Blocks(rest))
  {
    hide IsRow, IsSeparator, Render, ParseRow, ParseRows, Blocks, BlockTexts, RowRun;
    var lines, n := [head, separator] + data + rest, 2 + |data|;
    assert forall j :: 2 <= j < n ==> lines[j] == data[j - 2] && lines[j] in data;
    assert n < |lines| ==> lines[n] == rest[0];
    RunFrom(lines, 2, n);
    TableStep(lines, 0, n);
    assert lines[0..] == lines && lines[2..n] == data && lines[n..] == rest;
    ParseRowsAt(data, seq(|data|, i requires 0 <= i < |data| => ParseRow(data[i])));
  }

  /** Any other line stays as it is. */
  lemma PlainIs(line: string, rest: seq<string>)
    requires !IsRow(line) || rest == [] || !IsSeparator(rest[0])
    ensures BlockTexts(Blocks([line] + rest)) == [line] + BlockTexts(Blocks(rest))
  {
    hide IsRow, IsSeparator, Blocks, BlockTexts;
    var lines := [line] + rest;
    assert lines[0..] == lines && lines[1..] == rest;
    PlainStep(lines, 0);
  }
}
