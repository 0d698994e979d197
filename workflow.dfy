/** The string logic of the workflow builder: importing nodes from a CSV
    file and the CSV export of the ordered steps. */
module Workflow {
  import opened Collections
  import opened Text
  import Csv

  // ---------------------------------------------------------------------
  // Import

  /** A node created on the canvas: its step type, position and title. */
  datatype Node = Node(kind: string, x: int, y: int, title: string)

  /** `String.prototype.toLowerCase` on ASCII letters. */
  function ToLower(s: string): (r: string)
    ensures |r| == |s|
    ensures forall k :: 0 <= k < |r| ==> !('A' <= r[k] <= 'Z')
    ensures forall k :: 0 <= k < |s| ==>
              r[k] == if 'A' <= s[k] <= 'Z' then (s[k] as int - 'A' as int + 'a' as int) as char else s[k]
  {
    seq(|s|, k requires 0 <= k < |s| => if 'A' <= s[k] <= 'Z' then (s[k] as int + 32) as char else s[k])
  }

  /** `type.charAt(0).toUpperCase() + type.slice(1)` on ASCII letters. */
  function Capitalize(s: string): (r: string)
    ensures |r| == |s|
    ensures s != [] ==> r[1..] == s[1..]
    ensures s != [] ==>
              r[0] == if 'a' <= s[0] <= 'z' then (s[0] as int - 'a' as int + 'A' as int) as char else s[0]
  {
    if s == [] then []
    else if 'a' <= s[0] <= 'z' then [(s[0] as int - 32) as char] + s[1..]
    else s
  }

  /** `createNode(type, x, y, customTitle)`: the title is the custom title,
      or the capitalised type when the custom title is empty. */
  function CreateNode(kind: string, x: int, y: int, customTitle: string): Node {
    Node(kind, x, y, if customTitle != [] then customTitle else Capitalize(kind))
  }

  /** A line is imported when its comma split has at least two parts. */
  predicate HasType(line: string) {
    |Split(line, ',')| >= 2
  }

  /** The node a line describes: the first part is the title, the trimmed
      and lower-cased second part the type. Only lines with a type become
      nodes; for any other line the type is left empty. */
  function NodeFor(line: string, y: int): Node {
    var parts := Split(line, ',');
    CreateNode(if |parts| >= 2 then ToLower(Trim(parts[1])) else [], 100, y, parts[0])
  }

  /** The data lines that become nodes: the trimmed non-empty lines after the
      header that have a comma. */
  function ImportRows(text: string): (rows: seq<string>)
    ensures forall k :: 0 <= k < |rows| ==> HasType(rows[k])
  {
    var lines := Csv.Lines(text);
    if lines == [] then [] else Filter(lines[1..], HasType)
  }

  /** The height of the `k`-th imported node: 40, then 80 further down per
      node. */
  function RowY(k: nat): int {
    40 + 80 * k
  }

  /** The nodes created for the given lines, the `k`-th of them for the
      `k`-th line at height `RowY(k)`. */
  function Placed(lines: seq<string>): (nodes: seq<Node>)
    ensures |nodes| == |lines|
  {
    seq(|lines|, k requires 0 <= k < |lines| => NodeFor(lines[k], RowY(k)))
  }

  /** One more line adds its node below the others. */
  lemma PlacedSnoc(lines: seq<string>, line: string)
    ensures Placed(lines + [line]) == Placed(lines) + [NodeFor(line, RowY(|lines|))]
  {
    var longer := lines + [line];
    forall k | 0 <= k < |lines| ensures longer[k] == lines[k] {
    }
  }

  /** The import handler after the file has been read: the `k`-th imported
      line becomes a node at `x = 100` and `y = 40 + 80 * k`. */
  method ImportNodes(text: string) returns (nodes: seq<Node>)
    ensures nodes == Placed(ImportRows(text))
  {
    var lines := Csv.Lines(text);
    if |lines| == 0 {
      return [];
    }
    nodes := PlaceRows(lines[1..]);
    ImportedIsPlaced(lines[1..]);
  }

  /** The nodes the loop builds, one line at a time: a line with a type adds
      its node below those already built. */
  function Imported(rows: seq<string>): (nodes: seq<Node>)
    decreases |rows|
  {
    if rows == [] then []
    else
      var front := Imported(rows[..|rows| - 1]);
      if HasType(rows[|rows| - 1]) then front + [NodeFor(rows[|rows| - 1], RowY(|front|))] else front
  }

  /** The nodes built are those of the lines with a type, placed in order. */
  lemma {:induction false} ImportedIsPlaced(rows: seq<string>)
    ensures Imported(rows) == Placed(Filter(rows, HasType))
    decreases |rows|
  {
    if rows != [] {
      var n := |rows| - 1;
      var front, line := rows[..n], rows[n];
      ImportedIsPlaced(front);
      ImportedSnoc(front, line);
    }
  }

  /** `Imported` and `Placed` after `Filter` grow alike by one line. */
  lemma ImportedSnoc(front: seq<string>, line: string)
    requires Imported(front) == Placed(Filter(front, HasType))
    ensures Imported(front + [line]) == Placed(Filter(front + [line], HasType))
  {
    var rows := front + [line];
    assert rows[..|front|] == front;
    var built, kept := Imported(front), Filter(front, HasType);
    FilterSnoc(front, line, HasType);
    if HasType(line) {
      assert Imported(rows) == built + [NodeFor(line, RowY(|built|))];
      assert Filter(rows, HasType) == kept + [line];
      PlacedSnoc(kept, line);
    } else {
      assert Imported(rows) == built;
      assert Filter(rows, HasType) == kept;
    }
  }

  /** The loop of the import handler over the data lines, with the running
      `y` coordinate. */
  method PlaceRows(rows: seq<string>) returns (nodes: seq<Node>)
    ensures nodes == Imported(rows)
  {
    nodes := [];
    var y := 40;
    var i := 0;
    while i < |rows|
      invariant 0 <= i <= |rows|
      invariant nodes == Imported(rows[..i])
      invariant y == RowY(|nodes|)
    {
      var added, next := PlaceLine(rows[i], y);
      ImportStep(rows, i, y, added, next);
      nodes, y, i := nodes + added, next, i + 1;
    }
    assert rows[..i] == rows;
  }

  /** The `forEach` callback for one line: a node at height `y` and the next
      height when the line has a type, nothing and the same height
      otherwise. */
  method PlaceLine(line: string, y: int) returns (added: seq<Node>, next: int)
    ensures HasType(line) ==> added == [NodeFor(line, y)] && next == y + 80
    ensures !HasType(line) ==> added == [] && next == y
  {
    var parts := Split(line, ',');
    if |parts| < 2 {
      return [], y;
    }
    var title := parts[0];
    var kind := ToLower(Trim(parts[1]));
    added, next := [CreateNode(kind, 100, y, title)], y + 80;
  }

  /** One step of the loop extends the nodes built so far as `Imported`
      does, and moves `y` down by one row per node. */
  lemma ImportStep(rows: seq<string>, i: nat, y: int, added: seq<Node>, next: int)
    requires i < |rows|
    requires y == RowY(|Imported(rows[..i])|)
    requires HasType(rows[i]) ==> added == [NodeFor(rows[i], y)] && next == y + 80
    requires !HasType(rows[i]) ==> added == [] && next == y
    ensures Imported(rows[..i + 1]) == Imported(rows[..i]) + added
    ensures next == RowY(|Imported(rows[..i + 1])|)
  {
    var front := rows[..i];
    assert rows[..i + 1][..i] == front;
    assert rows[..i + 1][i] == rows[i];
    var built := Imported(front);
    if HasType(rows[i]) {
      assert Imported(rows[..i + 1]) == built + [NodeFor(rows[i], RowY(|built|))];
    } else {
      assert Imported(rows[..i + 1]) == built;
    }
  }

  /** A line is imported exactly when it holds a comma. */
  lemma HasTypeIffComma(line: string)
    ensures HasType(line) <==> ',' in line
  {
  }

  /** The imported lines: at most one per data line, and exactly the data
      lines that hold a comma. */
  lemma ImportedLines(text: string, line: string)
    ensures |ImportRows(text)| <= if Csv.Lines(text) == [] then 0 else |Csv.Lines(text)| - 1
    ensures line in ImportRows(text) <==>
              Csv.Lines(text) != [] && line in Csv.Lines(text)[1..] && ',' in line
  {
    var lines := Csv.Lines(text);
    HasTypeIffComma(line);
    if lines != [] {
      FilterMembership(lines[1..], HasType, line);
    }
  }

  /** The `k`-th imported node: in the column `x = 100` at `y = 40 + 80 * k`
      (so the nodes go down the canvas in import order), of a trimmed
      lower-case type, titled by the first cell of its line or else by its
      type. */
  lemma ImportedNode(text: string, k: nat)
    requires k < |ImportRows(text)|
    ensures var n := Placed(ImportRows(text))[k];
            var parts := Split(ImportRows(text)[k], ',');
            && n.x == 100
            && n.y == 40 + 80 * k
            && n.kind == ToLower(Trim(parts[1]))
            && (forall c :: 0 <= c < |n.kind| ==> !('A' <= n.kind[c] <= 'Z'))
            && Trim(n.kind) == n.kind
            && n.title == (if parts[0] != [] then parts[0] else Capitalize(n.kind))
            && (n.title == [] <==> parts[0] == [] && n.kind == [])
  {
    var rows := ImportRows(text);
    var parts := Split(rows[k], ',');
    assert HasType(rows[k]);
    LowerKeepsTrim(Trim(parts[1]));
  }

  /** Lower-casing does not create or remove white space at the ends. */
  lemma LowerKeepsTrim(s: string)
    requires Trim(s) == s
    ensures Trim(ToLower(s)) == ToLower(s)
  {
    TrimFixed(s);
    var r := ToLower(s);
    if r != [] {
      assert !IsSpace(r[0]) && !IsSpace(r[|r| - 1]);
    }
    TrimFixed(r);
  }

  // ---------------------------------------------------------------------
  // Export

  /** One entry of the ordered step list, numbered from 1. */
  datatype WorkflowStep = WorkflowStep(
    step: nat,
    title: string,
    kind: string,
    description: string,
    owner: string,
    estimatedTime: string)

  /** The header line of the CSV export. */
  const CsvHeader: string := "Step,Title,Type,Owner,EstimatedTime,Description"

  /** `"${s}"`: wrapped in quotes without escaping. */
  function Quote(s: string): string {
    "\"" + s + "\""
  }

  /** `s.replace(/"/g, '""')`: every quote doubled. */
  function Escape(s: string): (r: string)
    ensures |r| >= |s|
    decreases |s|
  {
    if s == [] then []
    else EscapeChar(s[0]) + Escape(s[1..])
  }

  /** The cells of one exported row: only the description is escaped. */
  function Cells(s: WorkflowStep): seq<string> {
    [NatToString(s.step), Quote(s.title), s.kind, Quote(s.owner), Quote(s.estimatedTime), Quote(Escape(s.description))]
  }

  /** One exported row without its newline. */
  function CsvLine(s: WorkflowStep): string {
    Join(Cells(s), ',')
  }

  /** The CSV text for the steps. */
  function CsvText(steps: seq<WorkflowStep>): string
    decreases |steps|
  {
    if steps == [] then CsvHeader + "\n"
    else CsvText(steps[..|steps| - 1]) + CsvLine(steps[|steps| - 1]) + "\n"
  }

  /** The CSV branch of the export: the header, then one comma-joined row
      per step, each followed by a newline. */
  method ExportCsv(steps: seq<WorkflowStep>) returns (csv: string)
    ensures csv == CsvText(steps)
  {
    csv := CsvHeader + "\n";
    var i := 0;
    while i < |steps|
      invariant 0 <= i <= |steps|
      invariant csv == CsvText(steps[..i])
    {
      var s := steps[i];
      var row := [NatToString(s.step), "\"" + s.title + "\"", s.kind, "\"" + s.owner + "\"",
                  "\"" + s.estimatedTime + "\"", "\"" + Escape(s.description) + "\""];
      assert steps[..i + 1][..i] == steps[..i];
      assert row == Cells(s);
      csv := csv + Join(row, ',') + "\n";
      i := i + 1;
    }
    assert steps[..i] == steps;
  }

  /** Inside quotes an escaped run reads back as the original text. */
  lemma {:induction false} EscapedRun(d: string, rest: string)
    ensures Csv.RawFields(Escape(d) + rest, true) == Prepend(d, Csv.RawFields(rest, true))
    decreases |d|
  {
    if d == [] {
      assert Escape(d) + rest == rest;
      PrependEmpty(Csv.RawFields(rest, true));
    } else {
      var tail := Escape(d[1..]) + rest;
      EscapedRun(d[1..], rest);
      EscapedChar(d[0], tail);
      assert Escape(d) + rest == EscapeChar(d[0]) + tail;
      PrependTwice([d[0]], d[1..], Csv.RawFields(rest, true));
      assert [d[0]] + d[1..] == d;
    }
  }

  /** How `Escape` writes one character. */
  function EscapeChar(c: char): string {
    if c == '"' then "\"\"" else [c]
  }

  /** Inside quotes one escaped character reads back as itself. */
  lemma EscapedChar(c: char, tail: string)
    ensures Csv.RawFields(EscapeChar(c) + tail, true) == Prepend([c], Csv.RawFields(tail, true))
  {
    if c == '"' {
      Csv.PairPrefix(tail, true);
    } else {
      OrdinaryChar(c, tail, true);
    }
  }

  /** A character other than a quote, and other than a comma outside
      quotes, is copied into the current field. */
  lemma OrdinaryChar(c: char, rest: string, inQuotes: bool)
    requires c != '"' && (inQuotes || c != ',')
    ensures Csv.RawFields([c] + rest, inQuotes) == Prepend([c], Csv.RawFields(rest, inQuotes))
  {
    assert ([c] + rest)[0] == c;
    assert ([c] + rest)[1..] == rest;
  }

  /** The exported description cell reads back as the description when it
      is non-empty and does not start with a quote. */
  lemma DescriptionCell(d: string)
    requires d != [] && d[0] != '"'
    ensures Csv.RawFields(Quote(Escape(d)), false) == [d]
  {
    var e := Escape(d);
    assert e == EscapeChar(d[0]) + Escape(d[1..]);
    assert Quote(e) == "\"" + (e + "\"");
    Csv.LoneQuote(e + "\"", false);
    assert Csv.RawFields(e + "\"", true) == [d] by {
      EscapedRun(d, "\"");
      Csv.LoneQuote([], true);
      PrependCons(d, [], []);
      assert d + [] == d;
    }
  }

  /** The two description cells that do not read back: an empty description
      is exported as `""`, which reads as one quote, and one starting with a
      quote opens with a `""` pair, which is a literal quote outside the
      quoted state. */
  lemma DescriptionCellQuirks(d: string)
    requires d != [] && d[0] == '"'
    ensures Csv.RawFields(Quote(Escape([])), false) == ["\""]
    ensures Csv.RawFields(Quote(Escape(d)), false) ==
            Prepend("\"", Csv.RawFields(Escape(d)[1..] + "\"", false))
  {
    assert Quote(Escape([])) == "\"\"";
    Csv.PairOnly();
    var e := Escape(d);
    assert e == "\"\"" + Escape(d[1..]);
    assert Quote(e) == "\"\"" + (e[1..] + "\"");
    Csv.PairPrefix(e[1..] + "\"", false);
  }

  /** A quoted cell followed by a comma reads back as its content. */
  lemma QuotedCell(x: string, rest: string)
    requires x != [] && '"' !in x
    ensures Csv.RawFields(Quote(x) + ("," + rest), false) == [x] + Csv.RawFields(rest, false)
  {
    assert Quote(x) + ("," + rest) == "\"" + x + "\"" + ("," + rest);
    Csv.QuotedField(x, "," + rest);
    Csv.CommaPrefix(rest);
    PrependCons(x, [], Csv.RawFields(rest, false));
    assert x + [] == x;
  }

  /** A plain cell followed by a comma reads back as itself. */
  lemma PlainCell(p: string, rest: string)
    requires '"' !in p && ',' !in p
    ensures Csv.RawFields(p + ("," + rest), false) == [p] + Csv.RawFields(rest, false)
  {
    Csv.OrdinaryPrefix(p, "," + rest);
    Csv.CommaPrefix(rest);
    PrependCons(p, [], Csv.RawFields(rest, false));
    assert p + [] == p;
  }

  /** An exported row read back with the analyser's row splitter gives the
      step number and the five texts, trimmed, provided the unescaped cells
      hold no quote and are not empty (an empty `""` cell reads as a quote),
      the type holds no quote or comma, and the description is not empty
      and does not start with a quote. */
  lemma ExportRowFields(s: WorkflowStep)
    requires s.title != [] && '"' !in s.title
    requires s.owner != [] && '"' !in s.owner
    requires s.estimatedTime != [] && '"' !in s.estimatedTime
    requires '"' !in s.kind && ',' !in s.kind
    requires s.description != [] && s.description[0] != '"'
    ensures Csv.CsvFields(CsvLine(s)) ==
            [NatToString(s.step), Trim(s.title), Trim(s.kind), Trim(s.owner), Trim(s.estimatedTime), Trim(s.description)]
  {
    var d := NatToString(s.step);
    TrimUnchanged(d);
    var raw := [d, s.title, s.kind, s.owner, s.estimatedTime, s.description];
    ExportRowRaw(s);
    Csv.RowFields(CsvLine(s), raw);
    TrimSix(d, s.title, s.kind, s.owner, s.estimatedTime, s.description);
  }

  /** Trimming six cells, the first of which is already trimmed. */
  lemma TrimSix(a: string, b: string, c: string, d: string, e: string, f: string)
    requires Trim(a) == a
    ensures TrimAll([a, b, c, d, e, f]) == [a, Trim(b), Trim(c), Trim(d), Trim(e), Trim(f)]
  {
  }

  /** The raw fields of an exported row, before trimming. */
  lemma ExportRowRaw(s: WorkflowStep)
    requires s.title != [] && '"' !in s.title
    requires s.owner != [] && '"' !in s.owner
    requires s.estimatedTime != [] && '"' !in s.estimatedTime
    requires '"' !in s.kind && ',' !in s.kind
    requires s.description != [] && s.description[0] != '"'
    ensures Csv.RawFields(CsvLine(s), false) ==
            [NatToString(s.step), s.title, s.kind, s.owner, s.estimatedTime, s.description]
  {
    var d := NatToString(s.step);
    var cells := Cells(s);
    var tail := [s.kind, s.owner, s.estimatedTime, s.description];
    assert Csv.RawFields(Join(cells[1..], ','), false) == [s.title] + tail by {
      ExportRowTail(s);
      assert cells[1..] == [Quote(s.title)] + cells[2..];
      QuotedJoin(s.title, cells[2..]);
    }
    assert Csv.RawFields(Join(cells, ','), false) == [d] + ([s.title] + tail) by {
      assert cells == [d] + cells[1..];
      assert '"' !in d && ',' !in d;
      PlainJoin(d, cells[1..]);
    }
  }

  /** The raw fields of the last four cells of an exported row. */
  lemma ExportRowTail(s: WorkflowStep)
    requires s.owner != [] && '"' !in s.owner
    requires s.estimatedTime != [] && '"' !in s.estimatedTime
    requires '"' !in s.kind && ',' !in s.kind
    requires s.description != [] && s.description[0] != '"'
    ensures Csv.RawFields(Join(Cells(s)[2..], ','), false) ==
            [s.kind, s.owner, s.estimatedTime, s.description]
  {
    var qo, qm, qe := Quote(s.owner), Quote(s.estimatedTime), Quote(Escape(s.description));
    assert Cells(s)[2..] == [s.kind] + ([qo] + ([qm] + [qe]));
    assert Csv.RawFields(Join([qe], ','), false) == [s.description] by {
      DescriptionCell(s.description);
    }
    assert Csv.RawFields(Join([qm] + [qe], ','), false) == [s.estimatedTime] + [s.description] by {
      QuotedJoin(s.estimatedTime, [qe]);
    }
    assert Csv.RawFields(Join([qo] + ([qm] + [qe]), ','), false) ==
           [s.owner] + ([s.estimatedTime] + [s.description]) by {
      QuotedJoin(s.owner, [qm] + [qe]);
    }
    assert Csv.RawFields(Join([s.kind] + ([qo] + ([qm] + [qe])), ','), false) ==
           [s.kind] + ([s.owner] + ([s.estimatedTime] + [s.description])) by {
      PlainJoin(s.kind, [qo] + ([qm] + [qe]));
    }
  }

  /** A quoted cell in front of further cells reads back as its text
      followed by their fields. */
  lemma QuotedJoin(x: string, rest: seq<string>)
    requires x != [] && '"' !in x && rest != []
    ensures Csv.RawFields(Join([Quote(x)] + rest, ','), false) == [x] + Csv.RawFields(Join(rest, ','), false)
  {
    JoinCons(Quote(x), rest, ',');
    QuotedCell(x, Join(rest, ','));
  }

  /** A plain cell in front of further cells reads back as itself followed
      by their fields. */
  lemma PlainJoin(p: string, rest: seq<string>)
    requires '"' !in p && ',' !in p && rest != []
    ensures Csv.RawFields(Join([p] + rest, ','), false) == [p] + Csv.RawFields(Join(rest, ','), false)
  {
    JoinCons(p, rest, ',');
    PlainCell(p, Join(rest, ','));
  }
}
