/** The CSV printer and the header scanner that reads its files back. */
module Csv {
  import opened Registry
  import opened Strings

  const BOM := '\U{feff}'

  // ---------------------------------------------------------------- printing

  /** `replaceAll('"', '""')` */
  function Doubled(v: string): string {
    if v == "" then "" else (if v[0] == '"' then ['"', '"'] else [v[0]]) + Doubled(v[1..])
  }

  function Escape(v: string): string { ['"'] + Doubled(v) + ['"'] }

  function Join(parts: seq<string>, separator: string): string {
    if parts == [] then "" else if |parts| == 1 then parts[0] else parts[0] + separator + Join(parts[1..], separator)
  }

  function Escaped(cells: seq<string>): seq<string> { seq(|cells|, i requires 0 <= i < |cells| => Escape(cells[i])) }

  function Line(cells: seq<string>): string { Join(Escaped(cells), ",") }

  function Lines(rows: seq<seq<string>>): seq<string> { seq(|rows|, i requires 0 <= i < |rows| => Line(rows[i])) }

  /** The text `downloadCSV` saves. */
  function Print(head: seq<string>, rows: seq<seq<string>>): string { [BOM] + Join(Lines([head] + rows), "\r\n") }

  // ---------------------------------------------------------------- scanning

  /** Where the scan stands when its loop ends. */
  datatype Scanned = Scanned(headers: seq<string>, cell: string, quoted: bool)

  function Scan(s: string, at: Scanned): Scanned
    decreases |s|
  {
    if s == "" then at
    else if s[0] == '"' then
      if at.quoted && |s| > 1 && s[1] == '"' then Scan(s[2..], at.(cell := at.cell + ['"']))
      else Scan(s[1..], at.(quoted := !at.quoted))
    else if !at.quoted && s[0] == ',' then Scan(s[1..], at.(headers := at.headers + [at.cell], cell := ""))
    else if !at.quoted && (s[0] == '\n' || s[0] == '\r') then at.(headers := at.headers + [at.cell], cell := "")
    else Scan(s[1..], at.(cell := at.cell + [s[0]]))
  }

  predicate Valid(headers: seq<string>) {
    |headers| <= 30 && (forall i :: 0 <= i < |headers| ==> 1 <= |headers[i]| <= 80) && Distinct(headers)
  }

  function Collected(at: Scanned): seq<string> {
    if at.headers == [] || at.cell != "" then at.headers + [at.cell] else at.headers
  }

  function WithoutBom(text: string): string { if text != "" && text[0] == BOM then text[1..] else text }

  function Parse(text: string): Option<seq<string>> {
    var at := Scan(WithoutBom(text), Scanned([], "", false));
    if at.quoted || !Valid(Collected(at)) then None else Some(Collected(at))
  }

  /** `csvHeaders` */
  method CsvHeaders(text: string) returns (result: Option<seq<string>>)
    ensures result == Parse(text)
  {
    var line := WithoutBom(text);
    var cell: string, quoted: bool, headers: seq<string> := "", false, [];
    var i := 0;
    ghost var end := Scan(line, Scanned([], "", false));
    assert line[0..] == line;
    while i < |line|
      invariant 0 <= i <= |line|
      invariant Scan(line[i..], Scanned(headers, cell, quoted)) == end
    {
      var c := line[i];
      assert line[i..][1..] == line[i + 1..];
      if c == '"' {
        if quoted && i + 1 < |line| && line[i + 1] == '"' {
          assert line[i..][2..] == line[i + 2..];
          cell := cell + ['"'];
          i := i + 1;
        } else {
          quoted := !quoted;
        }
      } else if !quoted && (c == ',' || c == '\n' || c == '\r') {
        headers := headers + [cell];
        cell := "";
        if c != ',' {
          assert Scanned(headers, cell, quoted) == end;
          i := |line|;
          break;
        }
      } else {
        cell := cell + [c];
      }
      i := i + 1;
    }
    if headers == [] || cell != "" { headers := headers + [cell]; }
    return if quoted || !Valid(headers) then None else Some(headers);
  }

  // ---------------------------------------------------------------- round trip

  lemma {:induction false} ScanInside(v: string, rest: string, at: Scanned)
    requires at.quoted && (rest == "" || rest[0] != '"')
    ensures Scan(Doubled(v) + ['"'] + rest, at) == Scan(rest, at.(cell := at.cell + v, quoted := false))
  {
    var s := Doubled(v) + ['"'] + rest;
    if v == "" {
      assert s[1..] == rest;
      assert at.cell + v == at.cell;
    } else {
      var tail := Doubled(v[1..]) + ['"'] + rest;
      var next := at.(cell := at.cell + [v[0]]);
      assert if v[0] == '"' then s[2..] == tail else s[1..] == tail;
      ScanInside(v[1..], rest, next);
      assert next.cell + v[1..] == at.cell + v;
    }
  }

  lemma ScanCell(v: string, rest: string, headers: seq<string>)
    requires rest == "" || rest[0] != '"'
    ensures Scan(Escape(v) + rest, Scanned(headers, "", false)) == Scan(rest, Scanned(headers, v, false))
  {
    assert (Escape(v) + rest)[1..] == Doubled(v) + ['"'] + rest;
    ScanInside(v, rest, Scanned(headers, "", true));
    assert "" + v == v;
  }

  lemma {:induction false} ScanLine(head: seq<string>, rest: string, headers: seq<string>)
    requires head != [] && (rest == "" || rest[0] == '\r')
    ensures Scan(Line(head) + rest, Scanned(headers, "", false))
      == Scan(rest, Scanned(headers + head[..|head| - 1], head[|head| - 1], false))
  {
    if |head| == 1 {
      ScanCell(head[0], rest, headers);
      assert headers + head[..0] == headers;
    } else {
      var tail := head[1..];
      assert Escaped(head)[1..] == Escaped(tail);
      assert Line(head) + rest == Escape(head[0]) + ("," + Line(tail) + rest);
      ScanCell(head[0], "," + Line(tail) + rest, headers);
      assert ("," + Line(tail) + rest)[1..] == Line(tail) + rest;
      ScanLine(tail, rest, headers + [head[0]]);
      assert headers + [head[0]] + tail[..|tail| - 1] == headers + head[..|head| - 1];
    }
  }

  /** What the scanner makes of a printed file, for any header list and any rows: the header list
      itself when it is valid; and otherwise an error, except that a trailing empty header of a file
      without rows is silently dropped. */
  lemma ParsePrinted(head: seq<string>, rows: seq<seq<string>>)
    ensures Parse(Print(head, rows)) ==
      if head != [] && Valid(head) then Some(head)
      else if rows == [] && |head| > 1 && head[|head| - 1] == "" && Valid(head[..|head| - 1])
      then Some(head[..|head| - 1])
      else None
  {
    var rest := if rows == [] then "" else "\r\n" + Join(Lines(rows), "\r\n");
    PrintedIs(head, rows, rest);
    if head == [] {
      assert Line(head) == "" && "" + rest == rest;
      NoHeader(rest);
    } else {
      ScanLine(head, rest, []);
      var front := head[..|head| - 1];
      assert [] + front == front;
      AfterHeader(head, front, rest);
    }
  }

  lemma AfterHeader(head: seq<string>, front: seq<string>, rest: string)
    requires head != [] && front == head[..|head| - 1] && (rest == "" || rest[0] == '\r')
    ensures var at := Scan(rest, Scanned(front, head[|head| - 1], false));
      && !at.quoted
      && Collected(at) == if rest == "" && |head| > 1 && head[|head| - 1] == "" then front else head
    ensures head[|head| - 1] == "" ==> !Valid(head)
  {
    assert front + [head[|head| - 1]] == head;
  }

  lemma NoHeader(rest: string)
    requires rest == "" || rest[0] == '\r'
    ensures var at := Scan(rest, Scanned([], "", false)); !Valid(Collected(at))
  {
    var at := Scan(rest, Scanned([], "", false));
    assert Collected(at)[0] == "";
  }

  lemma PrintedIs(head: seq<string>, rows: seq<seq<string>>, rest: string)
    requires rest == if rows == [] then "" else "\r\n" + Join(Lines(rows), "\r\n")
    ensures WithoutBom(Print(head, rows)) == Line(head) + rest
  {
    var lines := Lines([head] + rows);
    assert lines[0] == Line(head);
    assert lines[1..] == Lines(rows);
    if rows == [] { assert Line(head) + "" == Line(head); }
  }

  /** Any valid header row comes back, whatever commas, quotes and line breaks it holds. */
  lemma HeaderRoundTrip(head: seq<string>, rows: seq<seq<string>>)
    requires head != [] && Valid(head)
    ensures Parse(Print(head, rows)) == Some(head)
  {
    ParsePrinted(head, rows);
  }

  /** The header `a` and an empty one, without rows, come back as `a` alone; with a row they are refused. */
  lemma TrailingHeaderDropped(row: seq<string>)
    ensures Parse(Print(["a", ""], [])) == Some(["a"]) && Parse(Print(["a", ""], [row])) == None
  {
    assert ["a", ""][..1] == ["a"] && Valid(["a"]);
    assert |["a", ""][1]| == 0;
    ParsePrinted(["a", ""], []);
    ParsePrinted(["a", ""], [row]);
  }

  /** A header list comes back exactly when it holds 1 to 30 distinct names of 1 to 80 characters. */
  lemma ReturnsIff(head: seq<string>, rows: seq<seq<string>>)
    ensures Parse(Print(head, rows)) == Some(head) <==>
      && 1 <= |head| <= 30 && (forall i :: 0 <= i < |head| ==> 1 <= |head[i]| <= 80)
      && (forall i, j :: 0 <= i < j < |head| ==> head[i] != head[j])
  {
    ParsePrinted(head, rows);
    if |head| > 1 { assert |head[..|head| - 1]| != |head|; }
  }

  // ---------------------------------------------------------------- headers written without quotes

  /** A name that needs no quotes. */
  predicate Bare(v: string) { forall i :: 0 <= i < |v| ==> v[i] !in {'"', ',', '\n', '\r'} }

  lemma {:induction false} ScanBare(v: string, rest: string, at: Scanned)
    requires Bare(v) && !at.quoted
    ensures Scan(v + rest, at) == Scan(rest, at.(cell := at.cell + v))
  {
    if v == "" {
      assert v + rest == rest && at.cell + v == at.cell;
    } else {
      assert (v + rest)[1..] == v[1..] + rest;
      ScanBare(v[1..], rest, at.(cell := at.cell + [v[0]]));
      assert at.cell + [v[0]] + v[1..] == at.cell + v;
    }
  }

  lemma ScanComma(rest: string, headers: seq<string>, cell: string)
    ensures Scan("," + rest, Scanned(headers, cell, false)) == Scan(rest, Scanned(headers + [cell], "", false))
  {
    assert ("," + rest)[1..] == rest;
  }

  lemma {:induction false} ScanFirst(name: string, rest: string, headers: seq<string>)
    requires Bare(name)
    ensures Scan(name + rest, Scanned(headers, "", false)) == Scan(rest, Scanned(headers, name, false))
  {
    ScanBare(name, rest, Scanned(headers, "", false));
    assert "" + name == name;
  }

  lemma {:induction false} ScanBareLine(head: seq<string>, rest: string, headers: seq<string>)
    requires head != [] && (forall i :: 0 <= i < |head| ==> Bare(head[i]))
    requires rest == "" || rest[0] == '\r' || rest[0] == '\n'
    ensures Scan(Join(head, ",") + rest, Scanned(headers, "", false))
      == Scan(rest, Scanned(headers + head[..|head| - 1], head[|head| - 1], false))
  {
    if |head| == 1 {
      ScanFirst(head[0], rest, headers);
      assert headers + head[..0] == headers;
    } else {
      var tail := head[1..];
      var after := Join(tail, ",") + rest;
      assert Join(head, ",") + rest == head[0] + ("," + after);
      ScanFirst(head[0], "," + after, headers);
      ScanComma(after, headers, head[0]);
      ScanBareLine(tail, rest, headers + [head[0]]);
      assert headers + [head[0]] + tail[..|tail| - 1] == headers + head[..|head| - 1];
    }
  }

  lemma HeadFirst(head: seq<string>)
    requires head != [] && head[0] != ""
    ensures Join(head, ",") != "" && Join(head, ",")[0] == head[0][0]
  {
  }

  lemma MarkGone(line: string, mark: bool)
    requires line != "" && line[0] != BOM
    ensures WithoutBom((if mark then [BOM] else "") + line) == line
  {
    if mark { assert ([BOM] + line)[1..] == line; } else { assert "" + line == line; }
  }

  /** Where the scan of a header line stands at the line break or the end. */
  lemma HeaderEnds(head: seq<string>, rest: string)
    requires head != [] && head[|head| - 1] != "" && (rest == "" || rest[0] == '\r' || rest[0] == '\n')
    ensures var at := Scan(rest, Scanned(head[..|head| - 1], head[|head| - 1], false));
      !at.quoted && Collected(at) == head
  {
    assert head[..|head| - 1] + [head[|head| - 1]] == head;
  }

  /** Names without quotes, commas or line breaks, joined by commas and ended by any line break or the end of the text,
      with or without a byte order mark, come back as they are when they are valid. */
  lemma BareHeaderReturns(head: seq<string>, rest: string, mark: bool)
    requires head != [] && Valid(head) && head[0][0] != BOM && (forall i :: 0 <= i < |head| ==> Bare(head[i]))
    requires rest == "" || rest[0] == '\r' || rest[0] == '\n'
    ensures Parse((if mark then [BOM] else "") + (Join(head, ",") + rest)) == Some(head)
  {
    HeadFirst(head);
    MarkGone(Join(head, ",") + rest, mark);
    ScanBareLine(head, rest, []);
    HeaderEnds(head, rest);
    assert [] + head[..|head| - 1] == head[..|head| - 1];
  }

  // ---------------------------------------------------------------- the whole file read back

  /** Where a reader of CSV (section 2 of RFC 4180) stands: the rows and cells behind it and the cell it is in. */
  datatype Place = Place(rows: seq<seq<string>>, cells: seq<string>, cell: string, quoted: bool)

  function ReadAll(s: string, at: Place): seq<seq<string>>
    decreases |s|
  {
    if s == "" then at.rows + [at.cells + [at.cell]]
    else if at.quoted then
      if s[0] != '"' then ReadAll(s[1..], at.(cell := at.cell + [s[0]]))
      else if |s| > 1 && s[1] == '"' then ReadAll(s[2..], at.(cell := at.cell + ['"']))
      else ReadAll(s[1..], at.(quoted := false))
    else if s[0] == '"' then ReadAll(s[1..], at.(quoted := true))
    else if s[0] == ',' then ReadAll(s[1..], at.(cells := at.cells + [at.cell], cell := ""))
    else if |s| > 1 && s[0] == '\r' && s[1] == '\n' then
      ReadAll(s[2..], Place(at.rows + [at.cells + [at.cell]], [], "", false))
    else ReadAll(s[1..], at.(cell := at.cell + [s[0]]))
  }

  lemma {:induction false} ReadInside(v: string, rest: string, at: Place)
    requires at.quoted && (rest == "" || rest[0] != '"')
    ensures ReadAll(Doubled(v) + ['"'] + rest, at) == ReadAll(rest, at.(cell := at.cell + v, quoted := false))
  {
    var s := Doubled(v) + ['"'] + rest;
    if v == "" {
      assert s[1..] == rest;
      assert at.cell + v == at.cell;
    } else {
      var tail := Doubled(v[1..]) + ['"'] + rest;
      var next := at.(cell := at.cell + [v[0]]);
      assert if v[0] == '"' then s[2..] == tail else s[1..] == tail;
      ReadInside(v[1..], rest, next);
      assert next.cell + v[1..] == at.cell + v;
    }
  }

  lemma ReadCell(v: string, rest: string, rows: seq<seq<string>>, cells: seq<string>)
    requires rest == "" || rest[0] != '"'
    ensures ReadAll(Escape(v) + rest, Place(rows, cells, "", false)) == ReadAll(rest, Place(rows, cells, v, false))
  {
    assert (Escape(v) + rest)[1..] == Doubled(v) + ['"'] + rest;
    ReadInside(v, rest, Place(rows, cells, "", true));
    assert "" + v == v;
  }

  lemma {:induction false} ReadLine(line: seq<string>, rest: string, rows: seq<seq<string>>, cells: seq<string>)
    requires line != [] && (rest == "" || rest[0] == '\r')
    ensures ReadAll(Line(line) + rest, Place(rows, cells, "", false))
      == ReadAll(rest, Place(rows, cells + line[..|line| - 1], line[|line| - 1], false))
  {
    if |line| == 1 {
      ReadCell(line[0], rest, rows, cells);
      assert cells + line[..0] == cells;
    } else {
      var tail := line[1..];
      assert Escaped(line)[1..] == Escaped(tail);
      assert Line(line) + rest == Escape(line[0]) + ("," + Line(tail) + rest);
      ReadCell(line[0], "," + Line(tail) + rest, rows, cells);
      assert ("," + Line(tail) + rest)[1..] == Line(tail) + rest;
      ReadLine(tail, rest, rows, cells + [line[0]]);
      assert cells + [line[0]] + tail[..|tail| - 1] == cells + line[..|line| - 1];
    }
  }

  lemma {:induction false} ReadLines(lines: seq<seq<string>>, rows: seq<seq<string>>)
    requires lines != [] && forall i :: 0 <= i < |lines| ==> lines[i] != []
    ensures ReadAll(Join(Lines(lines), "\r\n"), Place(rows, [], "", false)) == rows + lines
  {
    var line := lines[0];
    var cells := [] + line[..|line| - 1];
    assert cells + [line[|line| - 1]] == line;
    if |lines| == 1 {
      assert Line(line) + "" == Line(line);
      ReadLine(line, "", rows, []);
      assert rows + [line] == rows + lines;
    } else {
      var tail := lines[1..];
      assert Lines(lines)[1..] == Lines(tail);
      var rest := "\r\n" + Join(Lines(tail), "\r\n");
      assert Join(Lines(lines), "\r\n") == Line(line) + rest;
      ReadLine(line, rest, rows, []);
      assert rest[2..] == Join(Lines(tail), "\r\n");
      ReadLines(tail, rows + [line]);
      assert rows + [line] + tail == rows + lines;
    }
  }

  /** Reading the whole file gives back its header and every one of its rows, cell by cell, whatever they hold. */
  lemma FileRoundTrip(head: seq<string>, rows: seq<seq<string>>)
    requires head != [] && forall i :: 0 <= i < |rows| ==> rows[i] != []
    ensures var text := Print(head, rows);
      text[0] == BOM && ReadAll(text[1..], Place([], [], "", false)) == [head] + rows
  {
    var lines := [head] + rows;
    assert Print(head, rows)[1..] == Join(Lines(lines), "\r\n");
    ReadLines(lines, []);
    assert [] + lines == lines;
  }
}
