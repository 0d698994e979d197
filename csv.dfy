/** The CSV front end of the loan analyser: `parseCSV` (text to lines),
    `splitCsvRow` (a quote-aware field splitter) and `rowsToObjects`
    (header-keyed records, rows of the wrong width dropped). */
module Csv {
  import opened Text
  import opened Collections

  /** The pieces of `text` between newlines, trimmed, empty ones dropped. */
  function Lines(text: string): (lines: seq<string>)
    ensures |lines| <= Occurrences(text, '\n') + 1
    ensures forall k :: 0 <= k < |lines| ==> lines[k] != [] && Trim(lines[k]) == lines[k]
  {
    NonEmptyTrimmed(Split(text, '\n'))
  }

  /** `.map(r => r.trim()).filter(r => r.length > 0)`. */
  function NonEmptyTrimmed(pieces: seq<string>): (lines: seq<string>)
    ensures |lines| <= |pieces|
    ensures forall k :: 0 <= k < |lines| ==> lines[k] != [] && Trim(lines[k]) == lines[k]
    decreases |pieces|
  {
    if pieces == [] then []
    else
      var front := NonEmptyTrimmed(pieces[..|pieces| - 1]);
      var line := Trim(pieces[|pieces| - 1]);
      TrimUnchanged(line);
      if line == [] then front else front + [line]
  }

  /** Pieces that are already trimmed and non-empty are all kept, and a
      trailing empty piece is dropped. */
  lemma {:induction false} NonEmptyTrimmedClean(pieces: seq<string>)
    requires forall k :: 0 <= k < |pieces| ==> pieces[k] != [] && Trim(pieces[k]) == pieces[k]
    ensures NonEmptyTrimmed(pieces) == pieces
    ensures NonEmptyTrimmed(pieces + [[]]) == pieces
    decreases |pieces|
  {
    assert (pieces + [[]])[..|pieces|] == pieces;
    TrimUnchanged([]);
    if pieces != [] {
      NonEmptyTrimmedClean(pieces[..|pieces| - 1]);
      assert pieces[..|pieces| - 1] + [pieces[|pieces| - 1]] == pieces;
    }
  }

  /** One more piece adds its trimmed form when that is not empty. */
  lemma NonEmptyTrimmedSnoc(pieces: seq<string>, x: string)
    ensures NonEmptyTrimmed(pieces + [x]) ==
            if Trim(x) == [] then NonEmptyTrimmed(pieces) else NonEmptyTrimmed(pieces) + [Trim(x)]
  {
    assert (pieces + [x])[..|pieces|] == pieces;
  }

  /** A line is kept exactly when it is the non-empty trimmed form of one of
      the pieces. */
  lemma {:induction false} NonEmptyTrimmedMembership(pieces: seq<string>, line: string)
    ensures line in NonEmptyTrimmed(pieces) <==>
            line != [] && exists k :: 0 <= k < |pieces| && Trim(pieces[k]) == line
    decreases |pieces|
  {
    if pieces != [] {
      var n := |pieces| - 1;
      var front, x := pieces[..n], pieces[n];
      assert pieces == front + [x];
      NonEmptyTrimmedMembership(front, line);
      NonEmptyTrimmedSnoc(front, x);
      TrimmedPieceIn(front, x, line);
    }
  }

  /** The witnesses of an extended sequence of pieces are those of the front
      and the last piece. */
  lemma TrimmedPieceIn(front: seq<string>, x: string, line: string)
    ensures (exists k :: 0 <= k < |front + [x]| && Trim((front + [x])[k]) == line) <==>
            (exists k :: 0 <= k < |front| && Trim(front[k]) == line) || Trim(x) == line
  {
    var s := front + [x];
    if exists k :: 0 <= k < |s| && Trim(s[k]) == line {
      var k :| 0 <= k < |s| && Trim(s[k]) == line;
      if k < |front| {
        assert front[k] == s[k];
      }
    }
    if exists k :: 0 <= k < |front| && Trim(front[k]) == line {
      var k :| 0 <= k < |front| && Trim(front[k]) == line;
      assert s[k] == front[k];
    }
    if Trim(x) == line {
      assert s[|front|] == x;
    }
  }

  /** The raw (untrimmed) fields of a row as `splitCsvRow` scans it, for a
      scan that starts in quote state `inQuotes`. The cases are tried in the
      source's order: a `""` pair is one literal quote whatever the state, a
      lone quote toggles the state, a comma outside quotes ends a field, and
      any other character belongs to the current field. */
  function RawFields(row: string, inQuotes: bool): (fields: seq<string>)
    ensures fields != []
    decreases |row|
  {
    if row == [] then [[]]
    else if row[0] == '"' && |row| > 1 && row[1] == '"' then Prepend("\"", RawFields(row[2..], inQuotes))
    else if row[0] == '"' then RawFields(row[1..], !inQuotes)
    else if row[0] == ',' && !inQuotes then [[]] + RawFields(row[1..], inQuotes)
    else Prepend([row[0]], RawFields(row[1..], inQuotes))
  }

  /** The fields `splitCsvRow` returns, trimmed. */
  function CsvFields(row: string): (fields: seq<string>)
    ensures fields != []
    ensures forall k :: 0 <= k < |fields| ==> Trim(fields[k]) == fields[k]
  {
    var raw := RawFields(row, false);
    forall k | 0 <= k < |raw| ensures Trim(Trim(raw[k])) == Trim(raw[k]) {
      TrimUnchanged(Trim(raw[k]));
    }
    TrimAll(raw)
  }

  /** script.js `splitCsvRow`: an index loop over the row with a running
      field, a quote flag and the list of finished fields. */
  method SplitCsvRow(row: string) returns (fields: seq<string>)
    ensures fields == CsvFields(row)
  {
    var result: seq<string> := [];
    var current: string := [];
    var inQuotes := false;
    var i := 0;
    assert row[i..] == row;
    PrependEmpty(RawFields(row, false));
    while i < |row|
      invariant 0 <= i <= |row|
      invariant result + Prepend(current, RawFields(row[i..], inQuotes)) == RawFields(row, false)
      decreases |row| - i
    {
      var ch := row[i];
      if ch == '"' && i + 1 < |row| && row[i + 1] == '"' {
        assert row[i..][2..] == row[i + 2..];
        PrependTwice(current, "\"", RawFields(row[i + 2..], inQuotes));
        current := current + "\"";
        i := i + 2;
      } else if ch == '"' {
        assert row[i..][1..] == row[i + 1..];
        inQuotes := !inQuotes;
        i := i + 1;
      } else if ch == ',' && !inQuotes {
        assert row[i..][1..] == row[i + 1..];
        var rest := RawFields(row[i + 1..], inQuotes);
        PrependCons(current, [], rest);
        assert current + [] == current;
        PrependEmpty(rest);
        result := result + [current];
        current := [];
        i := i + 1;
      } else {
        assert row[i..][1..] == row[i + 1..];
        PrependTwice(current, [ch], RawFields(row[i + 1..], inQuotes));
        current := current + [ch];
        i := i + 1;
      }
    }
    assert row[i..] == [];
    PrependCons(current, [], []);
    assert current + [] == current;
    result := result + [current];
    assert result == RawFields(row, false);
    fields := seq(|result|, k requires 0 <= k < |result| => Trim(result[k]));
  }

  /** Without any quote character a row splits exactly as a plain
      `split(",")` does, so it has one field more than it has commas. */
  lemma {:induction false} QuoteFreeRow(row: string)
    requires '"' !in row
    ensures RawFields(row, false) == Split(row, ',')
    ensures |CsvFields(row)| == Occurrences(row, ',') + 1
    decreases |row|
  {
    if row != [] {
      assert '"' !in row[1..] by {
        forall k | 0 <= k < |row[1..]| ensures row[1..][k] != '"' {
          assert row[1..][k] == row[k + 1];
        }
      }
      QuoteFreeRow(row[1..]);
    }
  }

  /** The commas the scan meets outside quotes, with `""` pairs skipped as
      the scan skips them. */
  function OutsideCommas(row: string, inQuotes: bool): nat
    decreases |row|
  {
    if row == [] then 0
    else if row[0] == '"' && |row| > 1 && row[1] == '"' then OutsideCommas(row[2..], inQuotes)
    else if row[0] == '"' then OutsideCommas(row[1..], !inQuotes)
    else if row[0] == ',' && !inQuotes then 1 + OutsideCommas(row[1..], inQuotes)
    else OutsideCommas(row[1..], inQuotes)
  }

  /** A row has one field more than the commas met outside quotes. */
  lemma {:induction false} FieldCount(row: string, inQuotes: bool)
    ensures |RawFields(row, inQuotes)| == OutsideCommas(row, inQuotes) + 1
    ensures !inQuotes ==> |CsvFields(row)| == OutsideCommas(row, false) + 1
    decreases |row|
  {
    if row != [] {
      if row[0] == '"' && |row| > 1 && row[1] == '"' {
        FieldCount(row[2..], inQuotes);
      } else if row[0] == '"' {
        FieldCount(row[1..], !inQuotes);
      } else {
        FieldCount(row[1..], inQuotes);
      }
    }
  }

  /** Inside quotes, a run of characters with no quote, closed by a quote
      that is not followed by another, is taken whole into the current field,
      commas included. */
  lemma {:induction false} QuotedRun(x: string, rest: string)
    requires '"' !in x
    requires rest == [] || rest[0] != '"'
    ensures RawFields(x + "\"" + rest, true) == Prepend(x, RawFields(rest, false))
    decreases |x|
  {
    if x == [] {
      assert x + "\"" + rest == "\"" + rest;
      assert ("\"" + rest)[1..] == rest;
      PrependEmpty(RawFields(rest, false));
    } else {
      var s := x + "\"" + rest;
      assert s[0] == x[0];
      assert s[1..] == x[1..] + "\"" + rest;
      assert '"' !in x[1..];
      QuotedRun(x[1..], rest);
      PrependTwice([x[0]], x[1..], RawFields(rest, false));
      assert [x[0]] + x[1..] == x;
    }
  }

  /** A non-empty field without quotes, wrapped in quotes, comes back whole,
      even when it holds commas. */
  lemma QuotedField(x: string, rest: string)
    requires x != [] && '"' !in x
    requires rest == [] || rest[0] != '"'
    ensures RawFields("\"" + x + "\"" + rest, false) == Prepend(x, RawFields(rest, false))
  {
    var s := "\"" + x + "\"" + rest;
    assert s[1] == x[0];
    assert s[1..] == x + "\"" + rest;
    QuotedRun(x, rest);
  }

  /** A `""` pair is one literal quote in either quote state. */
  lemma PairPrefix(rest: string, inQuotes: bool)
    ensures RawFields("\"\"" + rest, inQuotes) == Prepend("\"", RawFields(rest, inQuotes))
  {
    assert ("\"\"" + rest)[2..] == rest;
  }

  /** A quote not followed by another toggles the quote state. */
  lemma LoneQuote(rest: string, inQuotes: bool)
    requires rest == [] || rest[0] != '"'
    ensures RawFields("\"" + rest, inQuotes) == RawFields(rest, !inQuotes)
  {
    assert ("\"" + rest)[1..] == rest;
  }

  /** A comma outside quotes closes the current field. */
  lemma CommaPrefix(rest: string)
    ensures RawFields("," + rest, false) == [[]] + RawFields(rest, false)
  {
    assert ("," + rest)[1..] == rest;
  }

  /** Characters other than quote and comma are copied into the current
      field. */
  lemma {:induction false} OrdinaryPrefix(p: string, rest: string)
    requires '"' !in p && ',' !in p
    ensures RawFields(p + rest, false) == Prepend(p, RawFields(rest, false))
    decreases |p|
  {
    if p == [] {
      assert p + rest == rest;
      PrependEmpty(RawFields(rest, false));
    } else {
      assert (p + rest)[0] == p[0];
      assert (p + rest)[1..] == p[1..] + rest;
      assert '"' !in p[1..] && ',' !in p[1..];
      OrdinaryPrefix(p[1..], rest);
      PrependTwice([p[0]], p[1..], RawFields(rest, false));
      assert [p[0]] + p[1..] == p;
    }
  }

  /** Two plain trailing fields after a comma: `,amount,currency`. */
  lemma TrailingFields(amount: string, currency: string)
    requires '"' !in amount && ',' !in amount
    requires '"' !in currency && ',' !in currency
    ensures RawFields("," + (amount + "," + currency), false) == ["", amount, currency]
  {
    var tail := amount + "," + currency;
    OneField(currency);
    CommaPrefix(currency);
    OrdinaryPrefix(amount, "," + currency);
    PrependCons(amount, [], [currency]);
    assert amount + [] == amount;
    assert amount + ("," + currency) == tail;
    CommaPrefix(tail);
  }

  /** A quoted first field may hold commas: `"Acme, Inc.",100,USD` has
      exactly three fields, `Acme, Inc.`, `100` and `USD`. */
  lemma QuotedFirstField(name: string, amount: string, currency: string)
    requires name != [] && '"' !in name
    requires '"' !in amount && ',' !in amount
    requires '"' !in currency && ',' !in currency
    ensures CsvFields("\"" + name + "\"," + amount + "," + currency) ==
            [Trim(name), Trim(amount), Trim(currency)]
  {
    var tail := "," + (amount + "," + currency);
    var row := "\"" + name + "\"," + amount + "," + currency;
    assert row == "\"" + name + "\"" + tail;
    assert RawFields(row, false) == [name, amount, currency] by {
      TrailingFields(amount, currency);
      QuotedField(name, tail);
      PrependCons(name, [], [amount, currency]);
      assert name + [] == name;
    }
    RowFields(row, [name, amount, currency]);
    TrimThree(name, amount, currency);
  }

  /** Trimming three fields one by one. */
  lemma TrimThree(a: string, b: string, c: string)
    ensures TrimAll([a, b, c]) == [Trim(a), Trim(b), Trim(c)]
  {
  }

  /** A row of ordinary characters is a single field. */
  lemma OneField(p: string)
    requires '"' !in p && ',' !in p
    ensures RawFields(p, false) == [p]
  {
    assert p + [] == p;
    OrdinaryPrefix(p, []);
    PrependCons(p, [], []);
  }

  /** A row that is just a `""` pair is the one-field row `"`. */
  lemma PairOnly()
    ensures RawFields("\"\"", false) == ["\""]
  {
    PairPrefix([], false);
    PrependCons("\"", [], []);
    assert "\"\"" + [] == "\"\"" && "\"" + [] == "\"";
  }

  /** `""hi""` is the one field `"hi"`. */
  lemma DoubledQuoteWord()
    ensures RawFields("\"\"hi\"\"", false) == ["\"hi\""]
  {
    var d, h := "\"\"", "hi";
    assert "\"\"hi\"\"" == d + (h + d);
    PairOnly();
    OrdinaryPrefix(h, d);
    assert ["\""] == ["\""] + [];
    PrependCons(h, "\"", []);
    assert h + "\"" == "hi\"";
    assert RawFields(h + d, false) == ["hi\""];
    PairPrefix(h + d, false);
    assert ["hi\""] == ["hi\""] + [];
    PrependCons("\"", "hi\"", []);
    assert "\"" + "hi\"" == "\"hi\"";
  }

  /** The doubled quotes of `He said ""hi""` each become one quote. */
  lemma DoubledQuoteExample()
    ensures RawFields("He said \"\"hi\"\"", false) == ["He said \"hi\""]
  {
    var p, q := "He said ", "\"\"hi\"\"";
    assert RawFields(p + q, false) == [p + "\"hi\""] by {
      DoubledQuoteWord();
      OrdinaryPrefix(p, q);
      assert ["\"hi\""] == ["\"hi\""] + [];
      PrependCons(p, "\"hi\"", []);
    }
    assert "He said \"\"hi\"\"" == p + q;
    assert p + "\"hi\"" == "He said \"hi\"";
  }

  /** An empty quoted field `""` is read as one literal quote, not as the
      empty string: `a,"",b` has the fields `a`, `"` and `b`. */
  lemma EmptyQuotedFieldIsAQuote()
    ensures RawFields("\"\"", false) == ["\""]
    ensures CsvFields("a,\"\",b") == ["a", "\"", "b"]
  {
    PairOnly();
    var raw := ["a", "\"", "b"];
    assert forall k :: 0 <= k < |raw| ==> Trim(raw[k]) == raw[k] by {
      TrimUnchanged("a");
      TrimUnchanged("\"");
      TrimUnchanged("b");
    }
    EmptyQuotedRow();
    CleanRow("a,\"\",b", raw);
  }

  /** A row whose raw fields are already trimmed reads back as those fields. */
  lemma CleanRow(row: string, raw: seq<string>)
    requires RawFields(row, false) == raw
    requires forall k :: 0 <= k < |raw| ==> Trim(raw[k]) == raw[k]
    ensures CsvFields(row) == raw
  {
  }

  /** The fields of a row are its raw fields trimmed. */
  lemma RowFields(row: string, raw: seq<string>)
    requires RawFields(row, false) == raw
    ensures CsvFields(row) == TrimAll(raw)
  {
  }

  /** The raw fields of `a,"",b`. */
  lemma EmptyQuotedRow()
    ensures RawFields("a,\"\",b", false) == ["a", "\"", "b"]
  {
    QuoteThenB();
    CommaPrefix("\"\",b");
    assert "a,\"\",b" == "a" + ",\"\",b";
    OrdinaryPrefix("a", ",\"\",b");
    PrependCons("a", [], ["\"", "b"]);
    assert "a" + [] == "a";
  }

  /** `"",b` has the fields `"` and `b`. */
  lemma QuoteThenB()
    ensures RawFields("\"\",b", false) == ["\"", "b"]
  {
    OneField("b");
    CommaPrefix("b");
    PairPrefix(",b", false);
    PrependCons("\"", [], ["b"]);
    assert "\"" + [] == "\"";
  }

  /** A record: field values keyed by header name. */
  type Record = map<string, string>

  /** The header names: the first line split with a plain `split(",")` (no
      quote handling) and trimmed. */
  function Header(line: string): (names: seq<string>)
    ensures |names| == Occurrences(line, ',') + 1
  {
    TrimAll(Split(line, ','))
  }

  /** `header.forEach((key, i) => { obj[key] = parts[i]; })`. */
  function ZipObject(keys: seq<string>, values: seq<string>): Record
    requires |keys| == |values|
    decreases |keys|
  {
    if keys == [] then map[]
    else ZipObject(keys[..|keys| - 1], values[..|values| - 1])[keys[|keys| - 1] := values[|values| - 1]]
  }

  /** Every header name becomes a key, and each key holds the value of the
      last column with that name. */
  lemma {:induction false} ZipObjectLookup(keys: seq<string>, values: seq<string>)
    requires |keys| == |values|
    ensures ZipObject(keys, values).Keys == set k | k in keys
    ensures forall i :: 0 <= i < |keys| && (forall j :: i < j < |keys| ==> keys[j] != keys[i]) ==>
              ZipObject(keys, values)[keys[i]] == values[i]
    decreases |keys|
  {
    if keys != [] {
      var n := |keys| - 1;
      var ks, vs := keys[..n], values[..n];
      ZipObjectLookup(ks, vs);
      var m := ZipObject(ks, vs);
      assert ZipObject(keys, values) == m[keys[n] := values[n]];
      assert (set k | k in keys) == (set k | k in ks) + {keys[n]} by {
        assert keys == ks + [keys[n]];
      }
      forall i | 0 <= i < |keys| && (forall j :: i < j < |keys| ==> keys[j] != keys[i])
        ensures ZipObject(keys, values)[keys[i]] == values[i]
      {
        if i < n {
          assert keys[n] != keys[i];
          assert ks[i] == keys[i] && vs[i] == values[i];
          assert forall j :: i < j < |ks| ==> ks[j] != ks[i] by {
            forall j | i < j < |ks| ensures ks[j] != ks[i] {
              assert ks[j] == keys[j];
            }
          }
          assert m[ks[i]] == vs[i];
        }
      }
    }
  }

  /** The records built from the data rows whose field count equals the
      header's; the other rows are dropped. */
  function Kept(header: seq<string>, data: seq<string>): (objs: seq<Record>)
    ensures |objs| <= |data|
    decreases |data|
  {
    if data == [] then []
    else
      var front := Kept(header, data[..|data| - 1]);
      var parts := CsvFields(data[|data| - 1]);
      if |parts| == |header| then front + [ZipObject(header, parts)] else front
  }

  /** Every kept record has exactly the header names as keys. */
  lemma {:induction false} KeptKeys(header: seq<string>, data: seq<string>)
    ensures forall k :: 0 <= k < |Kept(header, data)| ==> Kept(header, data)[k].Keys == set h | h in header
    decreases |data|
  {
    if data != [] {
      var n := |data| - 1;
      KeptKeys(header, data[..n]);
      var parts := CsvFields(data[n]);
      if |parts| == |header| {
        ZipObjectLookup(header, parts);
      }
    }
  }

  /** script.js `rowsToObjects` as a value: nothing for no lines; otherwise
      the first line is the header and never a data row. */
  function ObjectsOf(lines: seq<string>): (objs: seq<Record>)
    ensures |lines| <= 1 ==> objs == []
    ensures lines != [] ==> |objs| < |lines|
  {
    if lines == [] then [] else Kept(Header(lines[0]), lines[1..])
  }

  /** One more data row adds its record when its width is the header's. */
  lemma KeptSnoc(header: seq<string>, data: seq<string>, row: string)
    ensures Kept(header, data + [row]) == Kept(header, data) + Kept(header, [row])
  {
    assert (data + [row])[..|data|] == data;
    assert [row][..0] == [];
  }

  /** `row` is of the header's width and its record is `obj`. */
  predicate Produces(header: seq<string>, row: string, obj: Record) {
    var parts := CsvFields(row);
    |parts| == |header| && obj == ZipObject(header, parts)
  }

  /** A record is produced exactly for the data rows whose `splitCsvRow`
      field count equals the header's length. */
  lemma {:induction false} KeptMembership(header: seq<string>, data: seq<string>, obj: Record)
    ensures obj in Kept(header, data) <==> exists k :: 0 <= k < |data| && Produces(header, data[k], obj)
    decreases |data|
  {
    if data != [] {
      var n := |data| - 1;
      var front, row := data[..n], data[n];
      assert data == front + [row];
      KeptMembership(header, front, obj);
      KeptSnoc(header, front, row);
      ProducedIn(header, front, row, obj);
    }
  }

  /** The witnesses of an extended sequence of data rows are those of the
      front and the last row. */
  lemma ProducedIn(header: seq<string>, front: seq<string>, row: string, obj: Record)
    ensures (exists k :: 0 <= k < |front + [row]| && Produces(header, (front + [row])[k], obj)) <==>
            (exists k :: 0 <= k < |front| && Produces(header, front[k], obj)) || Produces(header, row, obj)
  {
    var s := front + [row];
    if exists k :: 0 <= k < |s| && Produces(header, s[k], obj) {
      var k :| 0 <= k < |s| && Produces(header, s[k], obj);
      if k < |front| {
        assert front[k] == s[k];
      }
    }
    if exists k :: 0 <= k < |front| && Produces(header, front[k], obj) {
      var k :| 0 <= k < |front| && Produces(header, front[k], obj);
      assert s[k] == front[k];
    }
    if Produces(header, row, obj) {
      assert s[|front|] == row;
    }
  }

  /** The `header.forEach` callback of `rowsToObjects`: one assignment per
      header column. */
  method BuildObject(header: seq<string>, parts: seq<string>) returns (obj: Record)
    requires |header| == |parts|
    ensures obj == ZipObject(header, parts)
  {
    obj := map[];
    var i := 0;
    while i < |header|
      invariant 0 <= i <= |header|
      invariant obj == ZipObject(header[..i], parts[..i])
    {
      assert header[..i + 1][..i] == header[..i];
      assert parts[..i + 1][..i] == parts[..i];
      obj := obj[header[i] := parts[i]];
      i := i + 1;
    }
    assert header[..i] == header && parts[..i] == parts;
  }

  /** The body of the `rowsToObjects` loop for one data row: the record of
      the row when it has the header's width, nothing otherwise. */
  method KeepRow(header: seq<string>, row: string) returns (kept: seq<Record>)
    ensures kept == Kept(header, [row])
  {
    assert [row][..0] == [];
    var parts := SplitCsvRow(row);
    if |parts| == |header| {
      var obj := BuildObject(header, parts);
      kept := [obj];
    } else {
      kept := [];
    }
  }

  /** The loop of `rowsToObjects` over the data rows: one record pushed per
      row of the header's width. */
  method KeepRows(header: seq<string>, dataRows: seq<string>) returns (objects: seq<Record>)
    ensures objects == Kept(header, dataRows)
  {
    objects := [];
    var n := 0;
    while n < |dataRows|
      invariant 0 <= n <= |dataRows|
      invariant objects == Kept(header, dataRows[..n])
    {
      TakeSnoc(dataRows, n);
      KeptSnoc(header, dataRows[..n], dataRows[n]);
      var kept := KeepRow(header, dataRows[n]);
      objects := objects + kept;
      n := n + 1;
    }
    assert dataRows[..n] == dataRows;
  }

  /** script.js `rowsToObjects`: no records without lines; otherwise the
      first line is the header and the rest are the data rows. */
  method RowsToObjects(rows: seq<string>) returns (objects: seq<Record>)
    ensures objects == ObjectsOf(rows)
  {
    if rows == [] {
      return [];
    }
    var header := TrimAll(Split(rows[0], ','));
    objects := KeepRows(header, rows[1..]);
  }
}
