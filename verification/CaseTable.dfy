/** The case table: the writer in `functional_case_report.py` and the reader
    `report_counts` in `functional_chain_evidence.py`, on real characters. */
module CaseTable {
  import opened Text
  import opened CaseReport

  // ----- text operations of the reader

  /** Length of the longest prefix without a character of `p`. */
  function Until(s: string, p: char -> bool): (n: nat)
    ensures n <= |s|
    ensures forall k :: 0 <= k < n ==> !p(s[k])
    ensures n < |s| ==> p(s[n])
  {
    if s == "" || p(s[0]) then 0 else 1 + Until(s[1..], p)
  }

  predicate Bar(c: char) { c == '|' }

  predicate Star(c: char) { c == '*' }

  /** `str.splitlines()`. */
  function SplitLines(t: string): (lines: seq<string>)
    decreases |t|
  {
    if t == "" then []
    else
      var n := Until(t, LineBreak);
      if n == |t| then [t]
      else
        var w := if t[n] == '\r' && n + 1 < |t| && t[n + 1] == '\n' then 2 else 1;
        [t[..n]] + SplitLines(t[n + w..])
  }

  function TrimLeft(s: string, p: char -> bool): string {
    if s != "" && p(s[0]) then TrimLeft(s[1..], p) else s
  }

  function TrimRight(s: string, p: char -> bool): (r: string)
    ensures r <= s
    ensures r == "" || !p(r[|r| - 1])
  {
    if s != "" && p(s[|s| - 1]) then TrimRight(s[..|s| - 1], p) else s
  }

  function Trim(s: string, p: char -> bool): string { TrimLeft(TrimRight(s, p), p) }

  function SplitBars(s: string): (cells: seq<string>)
    ensures cells != []
    decreases |s|
  {
    var n := Until(s, Bar);
    if n == |s| then [s] else [s[..n]] + SplitBars(s[n + 1..])
  }

  function CleanCell(s: string): string { Trim(Trim(s, Space), Star) }

  function CleanCells(cells: seq<string>): (r: seq<string>)
    ensures |r| == |cells| && forall k :: 0 <= k < |r| ==> r[k] == CleanCell(cells[k])
  {
    seq(|cells|, k requires 0 <= k < |cells| => CleanCell(cells[k]))
  }

  function Cells(line: string): (cells: seq<string>)
    ensures cells != []
  {
    CleanCells(SplitBars(Trim(Trim(line, Space), Bar)))
  }

  // ----- the reader

  datatype Counts = Counts(pass: nat, fail: nat, skip: nat, unsupported: nat, running: nat)

  datatype ReadError = IncompleteRow | UnknownResult

  datatype Result<+T> = Ok(value: T) | Err(error: ReadError)

  const ZERO := Counts(0, 0, 0, 0, 0)

  function Bump(c: Counts, word: string): Option<Counts> {
    if word == "PASS" then Some(c.(pass := c.pass + 1))
    else if word == "FAIL" then Some(c.(fail := c.fail + 1))
    else if word == "SKIP" then Some(c.(skip := c.skip + 1))
    else if word == "UNSUPPORTED" then Some(c.(unsupported := c.unsupported + 1))
    else if word == "RUNNING" then Some(c.(running := c.running + 1))
    else None
  }

  /** The separator cell of a table: dashes with an optional colon at each end. */
  predicate Dashes(s: string) { AllDashes(DropLastColon(DropFirstColon(s))) }

  function DropFirstColon(s: string): string { if ":" <= s then s[1..] else s }

  function DropLastColon(s: string): string {
    if s != "" && s[|s| - 1] == ':' then s[..|s| - 1] else s
  }

  predicate AllDashes(s: string) { s != "" && forall k :: 0 <= k < |s| ==> s[k] == '-' }

  function IndexOf(cells: seq<string>, word: string): (r: Option<nat>)
    ensures r.Some? ==> r.value < |cells| && cells[r.value] == word
    ensures r.None? ==> word !in cells
  {
    if cells == [] then None
    else if cells[0] == word then Some(0)
    else
      match IndexOf(cells[1..], word)
      case None => None
      case Some(k) => Some(k + 1)
  }

  predicate HeaderWord(w: string) { w == "ID" || w == "Case" || w == "Topology" || w == "Step" }

  /** The result column when the row is a table header. */
  function HeaderColumn(cells: seq<string>): Option<nat>
    requires cells != []
  {
    if !HeaderWord(cells[0]) then None
    else if IndexOf(cells, "Status").Some? then IndexOf(cells, "Status")
    else IndexOf(cells, "Result")
  }

  datatype Reader = Reader(column: Option<nat>, counts: Counts)

  function ReadLine(r: Reader, line: string): Result<Reader> {
    if !("|" <= line) then Ok(r.(column := None))
    else
      var cells := Cells(line);
      var header := HeaderColumn(cells);
      if header.Some? then Ok(r.(column := header))
      else if r.column.None? then Ok(r)
      else if |cells| <= r.column.value then Err(IncompleteRow)
      else
        var word := cells[r.column.value];
        if Dashes(word) then Ok(r)
        else
          match Bump(r.counts, word)
          case None => Err(UnknownResult)
          case Some(c) => Ok(r.(counts := c))
  }

  function ReadLines(r: Reader, lines: seq<string>): Result<Reader>
    decreases |lines|
  {
    if lines == [] then Ok(r)
    else
      match ReadLine(r, lines[0])
      case Err(e) => Err(e)
      case Ok(r') => ReadLines(r', lines[1..])
  }

  function Read(text: string): Result<Counts> {
    match ReadLines(Reader(None, ZERO), SplitLines(text))
    case Err(e) => Err(e)
    case Ok(r) => Ok(r.counts)
  }

  method ReportCounts(text: string) returns (result: Result<Counts>)
    ensures result == Read(text)
  {
    hide ReadLine, SplitLines;
    var lines := SplitLines(text);
    var r := Reader(None, ZERO);
    assert lines[0..] == lines;
    for n := 0 to |lines|
      invariant ReadLines(Reader(None, ZERO), lines) == ReadLines(r, lines[n..])
    {
      assert lines[n..][1..] == lines[n + 1..];
      var step := ReadLine(r, lines[n]);
      if step.Err? {
        return Err(step.error);
      }
      r := step.value;
    }
    return Ok(r.counts);
  }

  // ----- the writer

  function Decimal(n: nat): (s: string)
    ensures s != "" && forall k :: 0 <= k < |s| ==> '0' <= s[k] <= '9'
  {
    (if n < 10 then "" else Decimal(n / 10)) + [('0' as int + n % 10) as char]
  }

  function Escape(s: string): (r: string)
    ensures forall k :: 0 <= k < |r| ==> r[k] != '|'
  {
    if s == "" then "" else (if s[0] == '|' then "&#124;" else [s[0]]) + Escape(s[1..])
  }

  function StatusWord(s: Status): string {
    match s
    case Pass => "PASS"
    case Fail => "FAIL"
    case Unsupported => "UNSUPPORTED"
    case Running => "RUNNING"
  }

  function RowLine(row: Row): string {
    "| " + Escape(row.id) + " | " + Escape(row.name) + " | " + Escape(StatusWord(row.status)) + " |"
  }

  const EMPTY_NOTE :=
    "No case execution " + "was recorded; " + "the log is missing, " + "empty, or stopped " + "before the cases."

  const STATUSES := [Pass, Fail, Unsupported, Running]

  function SummaryLines(rows: seq<Row>): (lines: seq<string>)
    ensures |lines| == |STATUSES|
  {
    seq(|STATUSES|, k requires 0 <= k < |STATUSES| =>
      "- " + StatusWord(STATUSES[k]) + ": " + Decimal(CountStatus(rows, STATUSES[k])))
  }

  function Preamble(rows: seq<Row>): seq<string> {
    ["## Case Summary", "", "- Total: " + Decimal(|rows|)] + SummaryLines(rows) + [""]
  }

  function RowLines(rows: seq<Row>): (lines: seq<string>)
    ensures |lines| == |rows| && forall k :: 0 <= k < |rows| ==> lines[k] == RowLine(rows[k])
  {
    seq(|rows|, k requires 0 <= k < |rows| => RowLine(rows[k]))
  }

  function Unlines(lines: seq<string>): string {
    if lines == [] then "" else lines[0] + "\n" + Unlines(lines[1..])
  }

  function TableLine(a: string, b: string, c: string): string {
    "| " + a + " | " + b + " | " + c + " |"
  }

  const HEADER := [TableLine("Case", "Name", "Status"), TableLine("---", "---", "---")]

  function ReportLines(rows: seq<Row>): seq<string> {
    Preamble(rows) + HEADER + RowLines(rows) + (if rows == [] then ["", EMPTY_NOTE] else [])
  }

  lemma {:induction false} UnlinesAppend(a: seq<string>, b: seq<string>)
    ensures Unlines(a + b) == Unlines(a) + Unlines(b)
  {
    if a == [] {
      assert a + b == b && "" + Unlines(b) == Unlines(b);
    } else {
      assert (a + b)[1..] == a[1..] + b;
      UnlinesAppend(a[1..], b);
    }
  }

  lemma UnlinesSnoc(lines: seq<string>, line: string)
    ensures Unlines(lines + [line]) == Unlines(lines) + line + "\n"
  {
    UnlinesAppend(lines, [line]);
    assert [line][1..] == [] && Unlines([line]) == line + "\n" + "";
    assert Unlines(lines) + (line + "\n" + "") == Unlines(lines) + line + "\n";
  }

  method WriteAll(out: string, ghost written: seq<string>, lines: seq<string>) returns (out': string)
    requires out == Unlines(written)
    ensures out' == Unlines(written + lines)
  {
    hide *;
    out' := out;
    assert written + lines[..0] == written;
    for n := 0 to |lines|
      invariant out' == Unlines(written + lines[..n])
    {
      UnlinesSnoc(written + lines[..n], lines[n]);
      assert written + lines[..n] + [lines[n]] == written + lines[..n + 1];
      out' := out' + lines[n] + "\n";
    }
    assert lines[..|lines|] == lines;
  }

  /** The writer: summary, one line per status, table header, one line per row. */
  method WriteReport(rows: seq<Row>) returns (out: string)
    ensures out == Unlines(ReportLines(rows))
  {
    hide Unlines, RowLines, SummaryLines, Decimal;
    UnlinesNothing();
    var head := ["## Case Summary", "", "- Total: " + Decimal(|rows|)];
    assert [] + head == head;
    out := WriteAll("", [], head);
    out := WriteAll(out, head, SummaryLines(rows));
    out := WriteAll(out, head + SummaryLines(rows), [""]);
    out := WriteAll(out, Preamble(rows), HEADER);
    out := WriteAll(out, Preamble(rows) + HEADER, RowLines(rows));
    if rows == [] {
      out := WriteAll(out, Preamble(rows) + HEADER + RowLines(rows), ["", EMPTY_NOTE]);
    } else {
      assert Preamble(rows) + HEADER + RowLines(rows) + [] == Preamble(rows) + HEADER + RowLines(rows);
    }
  }

  lemma UnlinesNothing()
    ensures Unlines([]) == ""
  {
  }

  // ----- splitting the written text

  ghost predicate OneLine(s: string) { forall k :: 0 <= k < |s| ==> !LineBreak(s[k]) }

  lemma UntilStopsAt(a: string, b: string, p: char -> bool)
    requires forall k :: 0 <= k < |a| ==> !p(a[k])
    requires b == "" || p(b[0])
    ensures Until(a + b, p) == |a|
  {
    var n := Until(a + b, p);
    assert forall k :: 0 <= k < |a| ==> (a + b)[k] == a[k];
    assert b != "" ==> (a + b)[|a|] == b[0];
  }

  lemma SplitFirstLine(line: string, rest: string)
    requires OneLine(line)
    ensures SplitLines(line + "\n" + rest) == [line] + SplitLines(rest)
  {
    var t := line + "\n" + rest;
    assert t == line + ("\n" + rest);
    UntilStopsAt(line, "\n" + rest, LineBreak);
    assert t[..|line|] == line && t[|line| + 1..] == rest && t[|line|] == '\n';
  }

  lemma Regroup(a: string, b: string, c: string, d: string)
    ensures a + b + c + d == a + b + (c + d)
  {
  }

  lemma {:induction false} SplitWritten(lines: seq<string>, rest: string)
    requires forall k :: 0 <= k < |lines| ==> OneLine(lines[k])
    ensures SplitLines(Unlines(lines) + rest) == lines + SplitLines(rest)
  {
    hide SplitLines, OneLine;
    if lines == [] {
      assert "" + rest == rest && [] + SplitLines(rest) == SplitLines(rest);
    } else {
      SplitWritten(lines[1..], rest);
      SplitFirstLine(lines[0], Unlines(lines[1..]) + rest);
      Regroup(lines[0], "\n", Unlines(lines[1..]), rest);
      assert [lines[0]] + lines[1..] == lines;
      assert [lines[0]] + (lines[1..] + SplitLines(rest)) == [lines[0]] + lines[1..] + SplitLines(rest);
    }
  }

  lemma {:induction false} ReadAppend(r: Reader, a: seq<string>, b: seq<string>)
    ensures ReadLines(r, a + b) == match ReadLines(r, a) case Err(e) => Err(e) case Ok(r') => ReadLines(r', b)
    decreases |a|
  {
    hide ReadLine;
    if a == [] {
      assert a + b == b;
    } else {
      assert (a + b)[1..] == a[1..] + b;
      var step := ReadLine(r, a[0]);
      if step.Ok? {
        ReadAppend(step.value, a[1..], b);
      }
    }
  }

  lemma ReadOne(r: Reader, line: string)
    ensures ReadLines(r, [line]) == ReadLine(r, line)
  {
    hide ReadLine;
    assert [line][1..] == [];
  }

  /** Lines outside a table only close the current column. */
  lemma {:induction false} ReadProse(r: Reader, lines: seq<string>)
    requires r.column.None? && forall k :: 0 <= k < |lines| ==> !("|" <= lines[k])
    ensures ReadLines(r, lines) == Ok(r)
    decreases |lines|
  {
    if lines != [] {
      ReadProse(r, lines[1..]);
    }
  }

  // ----- the cells of a written row

  predicate NoBar(s: string) { forall k :: 0 <= k < |s| ==> s[k] != '|' }

  lemma SplitFirstBar(a: string, rest: string)
    requires NoBar(a)
    ensures SplitBars(a + "|" + rest) == [a] + SplitBars(rest)
  {
    var t := a + "|" + rest;
    assert t == a + ("|" + rest);
    UntilStopsAt(a, "|" + rest, Bar);
    assert t[..|a|] == a && t[|a| + 1..] == rest;
  }

  lemma SplitNoBar(a: string)
    requires NoBar(a)
    ensures SplitBars(a) == [a]
  {
    assert a + "" == a;
    UntilStopsAt(a, "", Bar);
  }

  function Padded(s: string): string { " " + s + " " }

  lemma TrimBars(inner: string)
    requires inner != "" && inner[0] == ' ' && inner[|inner| - 1] == ' '
    ensures Trim("|" + inner + "|", Bar) == inner
  {
    var line, left := "|" + inner + "|", "|" + inner;
    assert line[..|line| - 1] == left && TrimRight(left, Bar) == left;
    assert TrimRight(line, Bar) == left;
    assert left[1..] == inner && TrimLeft(inner, Bar) == inner;
  }

  lemma TrimTableLine(inner: string)
    requires inner != "" && inner[0] == ' ' && inner[|inner| - 1] == ' '
    ensures var line := "|" + inner + "|"; Trim(Trim(line, Space), Bar) == inner
  {
    var line := "|" + inner + "|";
    assert TrimRight(line, Space) == line && Trim(line, Space) == line;
    TrimBars(inner);
  }

  lemma CellsOfTableLine(a: string, b: string, c: string)
    requires NoBar(a) && NoBar(b) && NoBar(c)
    ensures Cells(TableLine(a, b, c)) == CleanCells([Padded(a), Padded(b), Padded(c)])
  {
    hide Trim, SplitBars, CleanCell, Cells, TableLine;
    var last := Padded(b) + "|" + Padded(c);
    var inner := Padded(a) + "|" + last;
    TableLineInner(a, b, c);
    TrimTableLine(inner);
    SplitFirstBar(Padded(a), last);
    SplitFirstBar(Padded(b), Padded(c));
    SplitNoBar(Padded(c));
    hide *;
    CellsFrom(TableLine(a, b, c), inner, [Padded(a), Padded(b), Padded(c)]);
  }

  lemma CellsFrom(line: string, inner: string, cells: seq<string>)
    requires Trim(Trim(line, Space), Bar) == inner && SplitBars(inner) == cells
    ensures Cells(line) == CleanCells(cells)
  {
  }

  lemma TableLineInner(a: string, b: string, c: string)
    ensures TableLine(a, b, c) == "|" + (Padded(a) + "|" + (Padded(b) + "|" + Padded(c))) + "|"
  {
    var x, y, z := "| " + a + " ", "| " + b + " ", "| " + c + " ";
    assert x == "|" + Padded(a) && y == "|" + Padded(b) && z == "|" + Padded(c);
    assert TableLine(a, b, c) == x + y + z + "|";
    assert "|" + (Padded(a) + "|" + (Padded(b) + "|" + Padded(c))) == "|" + Padded(a) + ("|" + Padded(b)) + ("|" + Padded(c));
  }

  /** A cell with solid ends is read back as it was written. */
  predicate Solid(s: string) {
    && s != "" && NoBar(s)
    && !Space(s[0]) && !Star(s[0]) && !Space(s[|s| - 1]) && !Star(s[|s| - 1])
  }

  lemma CleanSolid(s: string)
    requires Solid(s)
    ensures CleanCell(Padded(s)) == s
  {
    var t, left := Padded(s), " " + s;
    assert t[..|t| - 1] == left && TrimRight(left, Space) == left;
    assert TrimRight(t, Space) == left;
    assert left[1..] == s && TrimLeft(s, Space) == s;
    assert Trim(s, Star) == s;
  }

  /** The case ids the log expressions accept: an upper-case name, a dash, digits. */
  ghost predicate CaseId(id: string) {
    exists d :: CaseIdAt(id, d)
  }

  predicate CaseIdAt(id: string, d: int) {
    && 0 < d < |id| - 1 && id[d] == '-' && Upper(id[0])
    && (forall k :: 1 <= k < d ==> Upper(id[k]) || Digit(id[k]))
    && (forall k :: d < k < |id| ==> Digit(id[k]))
  }

  lemma CaseIdIsSolid(id: string)
    requires CaseId(id)
    ensures Solid(id) && Escape(id) == id && OneLine(id)
    ensures !HeaderWord(id)
  {
    var d :| CaseIdAt(id, d);
    DashIsNoHeader(id, d);
    hide HeaderWord, Escape;
    forall k | 0 <= k < |id| ensures id[k] != '|' && id[k] != '*' && !Space(id[k]) {
      assert Upper(id[k]) || Digit(id[k]) || id[k] == '-';
    }
    hide Space, LineBreak, CaseIdAt;
    SpacesHoldBreaks();
    EscapeKeeps(id);
  }

  lemma DashIsNoHeader(id: string, d: int)
    requires 0 <= d < |id| && id[d] == '-'
    ensures !HeaderWord(id)
  {
    assert forall k :: 0 <= k < 4 ==> "Case"[k] != '-' && "Step"[k] != '-';
    assert forall k :: 0 <= k < 8 ==> "Topology"[k] != '-';
  }

  lemma SpacesHoldBreaks()
    ensures forall c :: LineBreak(c) ==> Space(c)
  {
  }

  lemma {:induction false} EscapeKeeps(s: string)
    requires NoBar(s)
    ensures Escape(s) == s
  {
    if s != "" {
      EscapeKeeps(s[1..]);
      assert [s[0]] + s[1..] == s;
    }
  }

  lemma StatusIsSolid(s: Status)
    ensures var w := StatusWord(s);
            Solid(w) && Escape(w) == w && OneLine(w) && !Dashes(w)
  {
    var w := StatusWord(s);
    UpperStatus(s);
    hide StatusWord;
    UpperIsSolid(w);
    EscapeKeeps(w);
    NotDashes(w);
  }

  lemma UpperStatus(s: Status)
    ensures var w := StatusWord(s); w != "" && forall k :: 0 <= k < |w| ==> Upper(w[k])
  {
  }

  lemma UpperIsSolid(w: string)
    requires w != "" && forall k :: 0 <= k < |w| ==> Upper(w[k])
    ensures Solid(w) && OneLine(w)
  {
  }

  lemma NotDashes(w: string)
    requires w != "" && forall k :: 0 <= k < |w| ==> Upper(w[k])
    ensures !Dashes(w)
  {
    assert w[0] != ':' && DropFirstColon(w) == w;
    assert w[|w| - 1] != ':' && w[0] != '-';
  }

  // ----- reading back a written row

  lemma RowLineIsTableLine(row: Row)
    requires CaseId(row.id)
    ensures RowLine(row) == TableLine(row.id, Escape(row.name), StatusWord(row.status))
  {
    CaseIdIsSolid(row.id);
    StatusIsSolid(row.status);
  }

  lemma CellsOfRow(row: Row)
    requires CaseId(row.id)
    ensures var cells := Cells(RowLine(row));
            |cells| == 3 && cells[0] == row.id && cells[2] == StatusWord(row.status)
  {
    RowLineIsTableLine(row);
    CaseIdIsSolid(row.id);
    StatusIsSolid(row.status);
    CleanSolid(row.id);
    CleanSolid(StatusWord(row.status));
    hide Escape, RowLine, TableLine, Padded, CleanCell, Cells;
    CellsOfTableLine(row.id, Escape(row.name), StatusWord(row.status));
  }

  function Add(c: Counts, s: Status): Counts {
    match s
    case Pass => c.(pass := c.pass + 1)
    case Fail => c.(fail := c.fail + 1)
    case Unsupported => c.(unsupported := c.unsupported + 1)
    case Running => c.(running := c.running + 1)
  }

  lemma ReadRow(c: Counts, row: Row)
    requires CaseId(row.id)
    ensures ReadLine(Reader(Some(2), c), RowLine(row)) == Ok(Reader(Some(2), Add(c, row.status)))
  {
    CellsOfRow(row);
    CaseIdIsSolid(row.id);
    StatusIsSolid(row.status);
    assert "|" <= RowLine(row);
    BumpStatus(c, row.status);
    hide *;
    ReadStatus(c, RowLine(row), StatusWord(row.status), Add(c, row.status));
  }

  lemma BumpStatus(c: Counts, s: Status)
    ensures Bump(c, StatusWord(s)) == Some(Add(c, s))
  {
  }

  lemma ReadStatus(c: Counts, line: string, word: string, c': Counts)
    requires var cells := Cells(line);
             && "|" <= line && |cells| == 3 && cells[2] == word && !Dashes(word)
             && !HeaderWord(cells[0])
    requires Bump(c, word) == Some(c')
    ensures ReadLine(Reader(Some(2), c), line) == Ok(Reader(Some(2), c'))
  {
    hide Cells, Dashes, Bump;
  }

  function Tally(rows: seq<Row>): Counts {
    Counts(CountStatus(rows, Pass), CountStatus(rows, Fail), 0, CountStatus(rows, Unsupported), CountStatus(rows, Running))
  }

  lemma {:induction false} ReadRows(rows: seq<Row>)
    requires forall k :: 0 <= k < |rows| ==> CaseId(rows[k].id)
    ensures ReadLines(Reader(Some(2), ZERO), RowLines(rows)) == Ok(Reader(Some(2), Tally(rows)))
  {
    hide ReadLine, RowLine, CaseId;
    if rows != [] {
      var n := |rows| - 1;
      var front := rows[..n];
      ReadRows(front);
      assert RowLines(rows) == RowLines(front) + [RowLine(rows[n])];
      ReadAppend(Reader(Some(2), ZERO), RowLines(front), [RowLine(rows[n])]);
      ReadOne(Reader(Some(2), Tally(front)), RowLine(rows[n]));
      ReadRow(Tally(front), rows[n]);
    }
  }

  // ----- a name with a line break

  lemma {:induction false} TrimRightTail(a: string, w: string, p: char -> bool)
    requires a != "" && !p(a[|a| - 1])
    ensures TrimRight(a + w, p) == a + TrimRight(w, p)
    decreases |w|
  {
    if w == "" {
      assert a + w == a && a + TrimRight(w, p) == a;
    } else {
      assert (a + w)[..|a + w| - 1] == a + w[..|w| - 1] && (a + w)[|a + w| - 1] == w[|w| - 1];
      TrimRightTail(a, w[..|w| - 1], p);
    }
  }

  lemma TrimOpenBars(inner: string, w: string)
    requires inner != "" && inner[0] == ' ' && w != "" && NoBar(w)
    ensures Trim("|" + inner + "|" + w, Bar) == inner + "|" + w
  {
    var t := "|" + inner + "|" + w;
    assert t[|t| - 1] == w[|w| - 1] && TrimRight(t, Bar) == t;
    assert t[1..] == inner + "|" + w && TrimLeft(t[1..], Bar) == t[1..];
  }

  /** A row cut off inside its name has at most two cells. */
  lemma CellsOfBrokenRow(id: string, q: string)
    requires Solid(id) && NoBar(q)
    ensures var cells := Cells("| " + id + " | " + q); |cells| <= 2 && cells[0] == id
  {
    var a, w := "|" + Padded(id) + "|", " " + q;
    var line := "| " + id + " | " + q;
    assert line == a + w by {
      assert "| " + id + " " == "|" + Padded(id);
    }
    CleanSolid(id);
    TrimRightTail(a, w, Space);
    var w' := TrimRight(w, Space);
    assert Trim(line, Space) == a + w' by {
      assert (a + w')[0] == '|';
    }
    hide *;
    BrokenCells(line, id, w');
  }

  lemma BrokenCells(line: string, id: string, w: string)
    requires Trim(line, Space) == "|" + Padded(id) + "|" + w && NoBar(id) && NoBar(w)
    requires CleanCell(Padded(id)) == id
    ensures |Cells(line)| <= 2 && Cells(line)[0] == id
  {
    hide Trim, CleanCell, Cells, SplitBars;
    if w == "" {
      assert "|" + Padded(id) + "|" + w == "|" + Padded(id) + "|";
      TrimBars(Padded(id));
      SplitNoBar(Padded(id));
      CellsFrom(line, Padded(id), [Padded(id)]);
    } else {
      TrimOpenBars(Padded(id), w);
      SplitFirstBar(Padded(id), w);
      SplitNoBar(w);
      CellsFrom(line, Padded(id) + "|" + w, [Padded(id), w]);
    }
  }

  lemma {:induction false} EscapeConcat(a: string, b: string)
    ensures Escape(a + b) == Escape(a) + Escape(b)
  {
    if a == "" {
      assert a + b == b;
    } else {
      assert (a + b)[1..] == a[1..] + b;
      EscapeConcat(a[1..], b);
    }
  }

  lemma {:induction false} EscapeOneLine(s: string)
    requires OneLine(s)
    ensures OneLine(Escape(s))
  {
    if s != "" {
      EscapeOneLine(s[1..]);
    }
  }

  lemma OneLineConcat(a: string, b: string)
    ensures OneLine(a + b) <==> OneLine(a) && OneLine(b)
  {
    if OneLine(a + b) {
      assert forall k :: 0 <= k < |a| ==> a[k] == (a + b)[k];
      assert forall k :: 0 <= k < |b| ==> b[k] == (a + b)[|a| + k];
    }
  }

  lemma RowOneLine(row: Row)
    requires CaseId(row.id) && OneLine(row.name)
    ensures OneLine(RowLine(row))
  {
    CaseIdIsSolid(row.id);
    StatusIsSolid(row.status);
    EscapeOneLine(row.name);
    RowParts("| ", " | ", " |");
    hide OneLine, Escape, StatusWord, CaseId, Solid;
    OneLineConcat("| ", Escape(row.id));
    OneLineConcat("| " + Escape(row.id), " | ");
    OneLineConcat("| " + Escape(row.id) + " | ", Escape(row.name));
    OneLineConcat("| " + Escape(row.id) + " | " + Escape(row.name), " | ");
    OneLineConcat("| " + Escape(row.id) + " | " + Escape(row.name) + " | ", Escape(StatusWord(row.status)));
    OneLineConcat("| " + Escape(row.id) + " | " + Escape(row.name) + " | " + Escape(StatusWord(row.status)), " |");
  }

  lemma RowParts(a: string, b: string, c: string)
    requires a == "| " && b == " | " && c == " |"
    ensures OneLine(a) && OneLine(b) && OneLine(c)
  {
  }

  lemma CutRow(i: string, e: string, f: string, s: string, rest: string)
    ensures "| " + i + " | " + (e + f) + " | " + s + " |" + rest == ("| " + i + " | " + e) + (f + " | " + s + " |" + rest)
  {
    var a := "| " + i + " | ";
    assert a + (e + f) == a + e + f;
    var b := " | " + s + " |" + rest;
    assert a + e + f + " | " + s + " |" + rest == a + e + f + b;
    assert f + " | " + s + " |" + rest == f + b;
  }

  /** The first line read from a row whose name holds a line break. */
  lemma SplitBrokenRow(row: Row, rest: string)
    requires CaseId(row.id) && !OneLine(row.name)
    ensures var lines := SplitLines(RowLine(row) + rest);
            lines != [] && lines[0] == "| " + row.id + " | " + Escape(row.name[..Until(row.name, LineBreak)])
  {
    hide OneLine;
    var k := Until(row.name, LineBreak);
    BreakExists(row.name);
    assert row.name == row.name[..k] + row.name[k..];
    EscapeConcat(row.name[..k], row.name[k..]);
    EscapeOneLine(row.name[..k]);
    CaseIdIsSolid(row.id);
    var first := "| " + row.id + " | " + Escape(row.name[..k]);
    var tail := Escape(row.name[k..]) + " | " + Escape(StatusWord(row.status)) + " |" + rest;
    CutRow(row.id, Escape(row.name[..k]), Escape(row.name[k..]), Escape(StatusWord(row.status)), rest);
    assert tail[0] == Escape(row.name[k..])[0] == row.name[k];
    FirstPartOneLine(row.id, Escape(row.name[..k]));
    SplitAtBreak(first, tail);
  }

  lemma BreakExists(s: string)
    ensures var k := Until(s, LineBreak);
            OneLine(s[..k]) && (!OneLine(s) ==> k < |s| && LineBreak(s[k]) && s[k] != '|')
  {
  }

  lemma FirstPartOneLine(id: string, e: string)
    requires OneLine(id) && OneLine(e)
    ensures OneLine("| " + id + " | " + e)
  {
    RowParts("| ", " | ", " |");
    hide OneLine;
    OneLineConcat("| ", id);
    OneLineConcat("| " + id, " | ");
    OneLineConcat("| " + id + " | ", e);
  }

  lemma SplitAtBreak(first: string, tail: string)
    requires OneLine(first) && tail != "" && LineBreak(tail[0])
    ensures var lines := SplitLines(first + tail); lines != [] && lines[0] == first
  {
    UntilStopsAt(first, tail, LineBreak);
    assert (first + tail)[..|first|] == first;
  }

  lemma ReadBrokenRow(c: Counts, row: Row, rest: string)
    requires CaseId(row.id) && !OneLine(row.name)
    ensures ReadLines(Reader(Some(2), c), SplitLines(RowLine(row) + rest)) == Err(IncompleteRow)
  {
    SplitBrokenRow(row, rest);
    CaseIdIsSolid(row.id);
    var q := Escape(row.name[..Until(row.name, LineBreak)]);
    CellsOfBrokenRow(row.id, q);
    var line := "| " + row.id + " | " + q;
    hide Cells, SplitLines;
    assert "|" <= line && HeaderColumn(Cells(line)).None?;
    assert ReadLine(Reader(Some(2), c), line) == Err(IncompleteRow);
  }

  // ----- the whole report

  lemma ReadHeader(c: Counts)
    ensures ReadLines(Reader(None, c), HEADER) == Ok(Reader(Some(2), c))
  {
    assert "|" <= HEADER[0] && "|" <= HEADER[1];
    assert Solid("Case") && Solid("Name") && Solid("Status") && Solid("---");
    hide *;
    CellsOfSolid("Case", "Name", "Status");
    CellsOfSolid("---", "---", "---");
    HeaderIndex();
    ReadHeaderLines(c, HEADER[0], HEADER[1]);
  }

  lemma CellsOfSolid(a: string, b: string, c: string)
    requires Solid(a) && Solid(b) && Solid(c)
    ensures Cells(TableLine(a, b, c)) == [a, b, c]
  {
    hide Cells, TableLine, Padded, CleanCell;
    CellsOfTableLine(a, b, c);
    CleanSolid(a);
    CleanSolid(b);
    CleanSolid(c);
  }

  lemma HeaderIndex()
    ensures HeaderColumn(["Case", "Name", "Status"]) == Some(2)
  {
    var cells := ["Case", "Name", "Status"];
    assert |"Case"| == 4 && |"Name"| == 4 && |"Status"| == 6;
    assert cells[1..] == ["Name", "Status"];
    assert ["Name", "Status"][1..] == ["Status"];
    assert ["Status"][0] == "Status" && IndexOf(["Status"], "Status") == Some(0);
    assert IndexOf(["Name", "Status"], "Status") == Some(1);
  }

  lemma DashRow()
    ensures Dashes("---") && HeaderColumn(["---", "---", "---"]).None?
  {
    var w := "---";
    assert w[0] == '-' && w[1] == '-' && w[2] == '-' && |w| == 3;
    assert DropFirstColon(w) == w && DropLastColon(w) == w && AllDashes(w);
    assert |"ID"| == 2 && |"Case"| == 4 && |"Topology"| == 8 && |"Step"| == 4;
    assert !HeaderWord(w);
  }

  lemma ReadHeaderLines(c: Counts, first: string, second: string)
    requires "|" <= first && HeaderColumn(Cells(first)) == Some(2)
    requires "|" <= second && Cells(second) == ["---", "---", "---"]
    ensures ReadLines(Reader(None, c), [first, second]) == Ok(Reader(Some(2), c))
  {
    DashRow();
    hide Cells, HeaderColumn, Dashes, ReadLine;
    assert ReadLine(Reader(None, c), first) == Ok(Reader(Some(2), c)) by { ReadAsHeader(c, first); }
    assert ReadLine(Reader(Some(2), c), second) == Ok(Reader(Some(2), c)) by { ReadAsDashes(c, second); }
    ReadAppend(Reader(None, c), [first], [second]);
    ReadOne(Reader(None, c), first);
    ReadOne(Reader(Some(2), c), second);
    assert [first] + [second] == [first, second];
  }

  lemma ReadAsHeader(c: Counts, line: string)
    requires "|" <= line && HeaderColumn(Cells(line)) == Some(2)
    ensures ReadLine(Reader(None, c), line) == Ok(Reader(Some(2), c))
  {
    hide Cells, HeaderColumn;
  }

  lemma ReadAsDashes(c: Counts, line: string)
    requires "|" <= line && Cells(line) == ["---", "---", "---"]
    ensures ReadLine(Reader(Some(2), c), line) == Ok(Reader(Some(2), c))
  {
    DashRow();
    hide Cells, HeaderColumn, Dashes;
  }

  /** Neither the summary nor the empty-report note looks like a table. */
  lemma ProseLines(rows: seq<Row>)
    ensures forall k :: 0 <= k < |Preamble(rows)| ==> OneLine(Preamble(rows)[k]) && !("|" <= Preamble(rows)[k])
    ensures OneLine("") && OneLine(EMPTY_NOTE) && !("|" <= "") && !("|" <= EMPTY_NOTE)
  {
    var lines := Preamble(rows);
    NoteOneLine();
    forall k | 0 <= k < |STATUSES|
      ensures OneLine(SummaryLines(rows)[k]) && SummaryLines(rows)[k][0] == '-'
    {
      SummaryOneLine(STATUSES[k], CountStatus(rows, STATUSES[k]));
    }
    hide SummaryLines, CountStatus;
    TotalOneLine(|rows|);
    forall k | 0 <= k < |lines| ensures OneLine(lines[k]) && !("|" <= lines[k]) {
      assert lines[0][0] == '#';
    }
  }

  lemma NoteOneLine()
    ensures OneLine(EMPTY_NOTE) && EMPTY_NOTE != "" && EMPTY_NOTE[0] == 'N'
  {
    hide OneLine;
    var a, b, c := "No case execution ", "was recorded; ", "the log is missing, ";
    var d, e := "empty, or stopped ", "before the cases.";
    NoteParts();
    OneLineConcat(a, b);
    OneLineConcat(a + b, c);
    OneLineConcat(a + b + c, d);
    OneLineConcat(a + b + c + d, e);
  }

  lemma NoteParts()
    ensures OneLine("No case execution ") && OneLine("was recorded; ") && OneLine("the log is missing, ")
    ensures OneLine("empty, or stopped ") && OneLine("before the cases.")
  {
  }

  lemma DigitsOneLine(n: nat)
    ensures OneLine(Decimal(n))
  {
  }

  lemma TotalOneLine(n: nat)
    ensures OneLine("- Total: " + Decimal(n)) && ("- Total: " + Decimal(n))[0] == '-'
  {
    DigitsOneLine(n);
    OneLineConcat("- Total: ", Decimal(n));
  }

  lemma SummaryOneLine(s: Status, n: nat)
    ensures var line := "- " + StatusWord(s) + ": " + Decimal(n); OneLine(line) && line[0] == '-'
  {
    assert OneLine("- ") && OneLine(": ");
    hide OneLine, StatusWord, Decimal;
    DigitsOneLine(n);
    StatusIsSolid(s);
    OneLineConcat("- ", StatusWord(s));
    OneLineConcat("- " + StatusWord(s), ": ");
    OneLineConcat("- " + StatusWord(s) + ": ", Decimal(n));
  }

  lemma HeaderOneLine()
    ensures OneLine(HEADER[0]) && OneLine(HEADER[1])
  {
  }

  /** What is written before the rows, and what it leaves the reader with. */
  lemma ReadHead(rows: seq<Row>)
    ensures var head := Preamble(rows) + HEADER;
            && (forall k :: 0 <= k < |head| ==> OneLine(head[k]))
            && ReadLines(Reader(None, ZERO), head) == Ok(Reader(Some(2), ZERO))
  {
    ProseLines(rows);
    HeaderOneLine();
    hide OneLine, Preamble, ReadLine;
    ReadProse(Reader(None, ZERO), Preamble(rows));
    ReadHeader(ZERO);
    ReadAppend(Reader(None, ZERO), Preamble(rows), HEADER);
  }

  lemma ReadClean(rows: seq<Row>)
    requires forall k :: 0 <= k < |rows| ==> CaseId(rows[k].id) && OneLine(rows[k].name)
    ensures Read(Unlines(ReportLines(rows))) == Ok(Tally(rows))
  {
    hide OneLine, CaseId, ReadLines, ReportLines, SplitLines, Unlines, Tally;
    LinesAreSingle(rows);
    LinesReadAs(rows);
    SplitNothing();
    var lines := ReportLines(rows);
    SplitWritten(lines, "");
    assert Unlines(lines) + "" == Unlines(lines) && lines + [] == lines;
  }

  lemma LinesAreSingle(rows: seq<Row>)
    requires forall k :: 0 <= k < |rows| ==> CaseId(rows[k].id) && OneLine(rows[k].name)
    ensures forall k :: 0 <= k < |ReportLines(rows)| ==> OneLine(ReportLines(rows)[k])
  {
    hide OneLine, CaseId, Preamble, RowLine;
    var head, body := Preamble(rows) + HEADER, RowLines(rows);
    ReadHead(rows);
    ProseLines(rows);
    forall k | 0 <= k < |rows| ensures OneLine(body[k]) {
      RowOneLine(rows[k]);
    }
    hide RowLines, ReadLines;
  }

  lemma LinesReadAs(rows: seq<Row>)
    requires forall k :: 0 <= k < |rows| ==> CaseId(rows[k].id)
    ensures var r := ReadLines(Reader(None, ZERO), ReportLines(rows)); r.Ok? && r.value.counts == Tally(rows)
  {
    hide OneLine, CaseId, Preamble, RowLines, ReadLine, ReadLines, Tally;
    var head, body := Preamble(rows) + HEADER, RowLines(rows);
    var note := if rows == [] then ["", EMPTY_NOTE] else [];
    ReadHead(rows);
    ReadRows(rows);
    ReadAppend(Reader(None, ZERO), head, body);
    ReadAppend(Reader(None, ZERO), head + body, note);
    ReadNote(Reader(Some(2), Tally(rows)), note);
  }

  lemma SplitNothing()
    ensures SplitLines("") == []
  {
  }

  lemma ReadNote(r: Reader, note: seq<string>)
    requires note == [] || note == ["", EMPTY_NOTE]
    ensures ReadLines(r, note).Ok? && ReadLines(r, note).value.counts == r.counts
  {
    if note != [] {
      NoteOneLine();
      assert !("|" <= "") && !("|" <= EMPTY_NOTE);
      ReadAppend(r, [""], [EMPTY_NOTE]);
      ReadOne(r, "");
      ReadOne(r.(column := None), EMPTY_NOTE);
      assert [""] + [EMPTY_NOTE] == note;
    }
  }

  /** The first row whose name holds a line break makes the whole read fail. */
  lemma ReadBroken(rows: seq<Row>, n: nat)
    requires n < |rows| && !OneLine(rows[n].name)
    requires forall k :: 0 <= k < |rows| ==> CaseId(rows[k].id)
    requires forall k :: 0 <= k < n ==> OneLine(rows[k].name)
    ensures Read(Unlines(ReportLines(rows))) == Err(IncompleteRow)
  {
    var front := rows[..n];
    var lines := Preamble(rows) + HEADER + RowLines(front);
    var more := "\n" + Unlines(RowLines(rows[n + 1..]));
    ReadHead(rows);
    forall k | 0 <= k < n ensures OneLine(RowLines(front)[k]) {
      RowOneLine(rows[k]);
    }
    ReadRows(front);
    hide OneLine, Preamble, RowLines, ReportLines, RowLine, ReadLine, Tally, SplitLines, CaseId;
    TextAround(rows, n);
    SplitWritten(lines, RowLine(rows[n]) + more);
    ReadAppend(Reader(None, ZERO), Preamble(rows) + HEADER, RowLines(front));
    ReadAppend(Reader(None, ZERO), lines, SplitLines(RowLine(rows[n]) + more));
    ReadBrokenRow(Tally(front), rows[n], more);
  }

  lemma TextAround(rows: seq<Row>, n: nat)
    requires n < |rows|
    ensures Unlines(ReportLines(rows)) ==
            Unlines(Preamble(rows) + HEADER + RowLines(rows[..n])) + (RowLine(rows[n]) + ("\n" + Unlines(RowLines(rows[n + 1..]))))
  {
    hide Preamble, RowLine;
    var lines, line, more := Preamble(rows) + HEADER + RowLines(rows[..n]), RowLine(rows[n]), RowLines(rows[n + 1..]);
    assert RowLines(rows) == RowLines(rows[..n]) + ([line] + more);
    assert ReportLines(rows) == lines + ([line] + more);
    UnlinesAppend(lines, [line] + more);
    assert ([line] + more)[1..] == more;
    assert line + "\n" + Unlines(more) == line + ("\n" + Unlines(more));
  }

  ghost predicate NamesOneLine(rows: seq<Row>) { forall k :: 0 <= k < |rows| ==> OneLine(rows[k].name) }

  lemma FirstBrokenRow(rows: seq<Row>) returns (n: nat)
    requires !NamesOneLine(rows)
    ensures n < |rows| && !OneLine(rows[n].name) && forall k :: 0 <= k < n ==> OneLine(rows[k].name)
  {
    hide OneLine;
    n := 0;
    while OneLine(rows[n].name)
      invariant n < |rows| && forall k :: 0 <= k < n ==> OneLine(rows[k].name)
      decreases |rows| - n
    {
      n := n + 1;
    }
  }

  /** Reading the written table gives back the writer's own counts, with nothing
      skipped, exactly when no name holds a line break; otherwise it is refused. */
  lemma ReadBack(rows: seq<Row>)
    requires forall k :: 0 <= k < |rows| ==> CaseId(rows[k].id)
    ensures Read(Unlines(ReportLines(rows))) ==
            if NamesOneLine(rows) then Ok(Tally(rows)) else Err(IncompleteRow)
  {
    if NamesOneLine(rows) {
      ReadClean(rows);
    } else {
      var n := FirstBrokenRow(rows);
      ReadBroken(rows, n);
    }
  }

  // ----- from the log to the counts

  /** Every id is one the log expressions accept. */
  ghost predicate CaseIds(es: seq<Event>) {
    forall k :: 0 <= k < |es| && (es[k].Start? || es[k].Done?) ==> CaseId(es[k].id)
  }

  lemma {:induction false} RowIds(es: seq<Event>)
    requires CaseIds(es)
    ensures forall k :: 0 <= k < |Run(es).rows| ==> CaseId(Run(es).rows[k].id)
  {
    hide CaseId;
    if es != [] {
      RowIds(es[..|es| - 1]);
      assert es[|es| - 1].Start? || es[|es| - 1].Done? ==> CaseId(es[|es| - 1].id);
    }
  }

  /** The context in force at the end of a log: that of its last context line. */
  ghost function ContextOf(es: seq<Event>): string {
    if es == [] then "context not recorded"
    else if es[|es| - 1].Context? then es[|es| - 1].text
    else ContextOf(es[..|es| - 1])
  }

  lemma {:induction false} ContextIsLast(es: seq<Event>)
    ensures Run(es).context == ContextOf(es)
  {
    if es != [] {
      ContextIsLast(es[..|es| - 1]);
    }
  }

  /** The start's name, and the context in force at a start or a done, hold no line break. */
  ghost predicate EventOneLine(es: seq<Event>, k: int)
    requires 0 <= k < |es|
  {
    && (es[k].Start? ==> OneLine(es[k].name))
    && (es[k].Start? || es[k].Done? ==> OneLine(ContextOf(es[..k])))
  }

  ghost predicate LogOneLine(es: seq<Event>) {
    forall k :: 0 <= k < |es| ==> EventOneLine(es, k)
  }

  lemma LogOneLineGrows(front: seq<Event>, e: Event)
    ensures LogOneLine(front + [e]) <==>
            && LogOneLine(front) && (e.Start? ==> OneLine(e.name))
            && (e.Start? || e.Done? ==> OneLine(ContextOf(front)))
  {
    hide OneLine, ContextOf;
    var es, n := front + [e], |front|;
    forall k | 0 <= k < n ensures EventOneLine(es, k) <==> EventOneLine(front, k) {
      assert es[..k] == front[..k];
    }
    assert es[n] == e && es[..n] == front;
    assert EventOneLine(es, n) <==>
      (e.Start? ==> OneLine(e.name)) && (e.Start? || e.Done? ==> OneLine(ContextOf(front)));
  }

  /** While a start is open its context stays in force. */
  lemma {:induction false} OpenKeepsContext(es: seq<Event>, i: int)
    requires Open(es, i)
    ensures ContextOf(es) == ContextOf(es[..i])
  {
    var n := |es| - 1;
    if i < n {
      assert !es[n].Concerns(es[i].id);
      assert es[..n][..i] == es[..i];
      OpenKeepsContext(es[..n], i);
    }
  }

  lemma StartName(name: string, context: string)
    ensures OneLine(name + " (" + context + ")") <==> OneLine(name) && OneLine(context)
  {
    assert OneLine(" (") && OneLine(")");
    hide OneLine;
    OneLineConcat(name, " (");
    OneLineConcat(name + " (", context);
    OneLineConcat(name + " (" + context, ")");
  }

  lemma DoneName(id: string, context: string)
    requires CaseId(id)
    ensures OneLine(id + " (" + context + "; start not recorded)") <==> OneLine(context)
  {
    var note := "; start not recorded)";
    assert OneLine(" (") && OneLine(note);
    CaseIdIsSolid(id);
    hide OneLine, CaseId;
    OneLineConcat(id, " (");
    OneLineConcat(id + " (", context);
    OneLineConcat(id + " (" + context, note);
  }

  /** Which names the machine adds when the log grows by `e`. */
  lemma NamesGrow(m: Machine, e: Event)
    requires PendingOk(m) && (e.Done? ==> CaseId(e.id))
    ensures NamesOneLine(Next(m, e).rows) <==>
            && NamesOneLine(m.rows) && (e.Start? ==> OneLine(e.name))
            && (e.Start? || (e.Done? && e.id !in m.pending) ==> OneLine(m.context))
  {
    hide OneLine, CaseId;
    var rows, rows' := m.rows, Next(m, e).rows;
    match e
    case Start(id, name) =>
      StartName(name, m.context);
      assert rows'[|rows|].name == name + " (" + m.context + ")";
      assert forall k :: 0 <= k < |rows| ==> rows'[k] == rows[k];
    case Done(_, id) =>
      if id in m.pending {
        assert forall k :: 0 <= k < |rows| ==> rows'[k].name == rows[k].name;
      } else {
        DoneName(id, m.context);
        assert rows'[|rows|].name == id + " (" + m.context + "; start not recorded)";
        assert forall k :: 0 <= k < |rows| ==> rows'[k] == rows[k];
      }
    case _ =>
  }

  /** The names of the report hold no line break exactly when the log's names and contexts in use do not. */
  lemma {:induction false} NamesOneLineExactly(es: seq<Event>)
    requires CaseIds(es) && AllWellFormed(es)
    ensures NamesOneLine(Run(es).rows) <==> LogOneLine(es)
  {
    if es != [] {
      hide OneLine, CaseId, NamesOneLine, LogOneLine, Next, PendingOk;
      var front, e := es[..|es| - 1], es[|es| - 1];
      assert front + [e] == es;
      NamesOneLineExactly(front);
      LogOneLineGrows(front, e);
      PendingThroughout(front);
      ContextIsLast(front);
      NamesGrow(Run(front), e);
      if e.Done? && e.id in Run(front).pending && LogOneLine(front) {
        PendingContext(front, e.id);
      }
    }
  }

  lemma PendingContext(es: seq<Event>, id: string)
    requires AllWellFormed(es) && id in Run(es).pending && LogOneLine(es)
    ensures OneLine(ContextOf(es))
  {
    hide OneLine, Run, ContextOf;
    PendingIsOpenThroughout(es);
    var i :| Open(es, i) && es[i].id == id;
    OpenKeepsContext(es, i);
    assert EventOneLine(es, i);
  }

  /** The table written for a log is read back as the machine's own counts exactly when no name
      and no context in use holds a line break, and is refused otherwise; a clean log shows no
      failing, running or skipped case. */
  lemma LogRoundTrip(es: seq<Event>)
    requires CaseIds(es) && AllWellFormed(es)
    ensures Read(Unlines(ReportLines(Run(es).rows))) == if LogOneLine(es) then Ok(Tally(Run(es).rows)) else Err(IncompleteRow)
    ensures CleanLog(es) ==> var c := Tally(Run(es).rows); c.fail == c.running == c.skip == 0
  {
    hide Read, Unlines, ReportLines, Run, NamesOneLine, LogOneLine, CaseId, CleanLog;
    RowIds(es);
    ReadBack(Run(es).rows);
    NamesOneLineExactly(es);
    ValidExactlyOnCleanLogs(es);
  }

  lemma {:induction false} ContextsOneLine(es: seq<Event>)
    requires forall k :: 0 <= k < |es| && es[k].Context? ==> OneLine(es[k].text)
    ensures OneLine(ContextOf(es))
  {
    if es != [] {
      hide OneLine;
      ContextsOneLine(es[..|es| - 1]);
    }
  }

  /** In particular a log without line breaks in any name or context is read back. */
  lemma PlainLogIsOneLine(es: seq<Event>)
    requires forall k :: 0 <= k < |es| && es[k].Context? ==> OneLine(es[k].text)
    requires forall k :: 0 <= k < |es| && es[k].Start? ==> OneLine(es[k].name)
    ensures LogOneLine(es)
  {
    hide OneLine;
    forall k | 0 <= k < |es| ensures EventOneLine(es, k) {
      ContextsOneLine(es[..k]);
    }
  }

  // ----- what the recorded counts can tell

  /** The count test of `record`, on what the reader makes of a report. */
  predicate RecordAccepts(r: Result<Counts>) {
    r.Ok? && r.value.pass > 0 && r.value.fail == 0 && r.value.running == 0
  }

  /** What the reader makes of the report written for a log. */
  function ReadReport(es: seq<Event>): Result<Counts> { Read(Unlines(ReportLines(Run(es).rows))) }

  /** The recorded counts of the written report are accepted exactly when no line break is in
      use and the log has a pass, no failure and every start closed. */
  lemma RecordAcceptsExactly(es: seq<Event>)
    requires CaseIds(es) && AllWellFormed(es)
    ensures RecordAccepts(ReadReport(es)) <==>
            LogOneLine(es) && !NoDoneOf(es, Pass) && NoDoneOf(es, Fail) && AllClosed(es)
  {
    hide Read, Unlines, ReportLines, Run, LogOneLine, CaseIds, NoDoneOf, AllClosed;
    LogRoundTrip(es);
    CountsAcceptExactly(es);
  }

  /** A log whose recorded counts are accepted has a valid report exactly when every done
      closes a start: the counts do not see a done that no start announced. */
  lemma AcceptedRecordIsValidExactly(es: seq<Event>)
    requires CaseIds(es) && AllWellFormed(es) && RecordAccepts(ReadReport(es))
    ensures Verdict(Run(es), false) <==> AllExpected(es)
  {
    RecordAcceptsExactly(es);
    hide ReadReport, Run, LogOneLine, CaseIds, AllExpected, AllClosed;
    TracksThroughout(es);
    NothingRuns(es);
    NoneCounted(Run(es).rows, Fail);
    assert NoRowOf(Run(es), Fail) <==> NoDoneOf(es, Fail);
    assert SomeCase(es) by {
      var k :| 0 <= k < |es| && es[k].Done? && es[k].status == Pass;
    }
  }

  /** So a log that the report itself calls invalid is recorded as passing. */
  lemma RecordMissesUnstartedCase()
    ensures var es := [Done(Pass, "A-1")]; RecordAccepts(ReadReport(es)) && !Verdict(Run(es), false)
  {
    var es := [Done(Pass, "A-1")];
    LoneDone(es);
    hide *;
    CountsMissUnstartedCase();
    CountsAcceptExactly(es);
    RecordAcceptsExactly(es);
  }

  lemma LoneDone(es: seq<Event>)
    requires es == [Done(Pass, "A-1")]
    ensures CaseIds(es) && AllWellFormed(es) && LogOneLine(es)
  {
    assert CaseIdAt("A-1", 1);
    hide OneLine, ContextOf, CaseIdAt;
    PlainLogIsOneLine(es);
  }

  /** A case whose name holds a next-line character makes the table unreadable, although the
      log is clean. */
  lemma LineBreakIsRefused()
    ensures var es := [Start("A-1", "a\U{0085}b"), Done(Pass, "A-1")];
            CaseIds(es) && CleanLog(es) && ReadReport(es) == Err(IncompleteRow)
  {
    var es := [Start("A-1", "a\U{0085}b"), Done(Pass, "A-1")];
    assert CaseIdAt("A-1", 1);
    assert LineBreak("a\U{0085}b"[1]) && !EventOneLine(es, 0);
    assert Closes(es, 0, 1) && Expected(es, 1);
    assert CaseIds(es) && AllWellFormed(es) && CleanLog(es) && !LogOneLine(es);
    hide *;
    LogReadsBack(es);
  }

  lemma LogReadsBack(es: seq<Event>)
    requires CaseIds(es) && AllWellFormed(es)
    ensures ReadReport(es).Ok? <==> LogOneLine(es)
    ensures ReadReport(es).Err? ==> ReadReport(es) == Err(IncompleteRow)
  {
    hide Read, Unlines, ReportLines, Run, LogOneLine, CaseIds;
    LogRoundTrip(es);
  }
}
