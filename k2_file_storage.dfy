/** The pipe-delimited text files of `kidtask.persistence.FileStorage`: a
    header line, then one line per row. The file itself is the sequence of
    its lines, so the JDK's reader and writer are not part of this model. */
module K2FileStorage {
  import opened Base
  import opened Text
  import opened Seqs
  import opened Numbers
  import opened Failures

  const Delimiter: char := '|'
  const DataDir: string := "data"

  /** A field the escaping leaves alone: no delimiter, backslash or line
      break inside. */
  predicate Plain(s: string)
  {
    '|' !in s && '\\' !in s && '\n' !in s && '\r' !in s
  }

  /** How `formatLine` writes one field: null as the empty field, otherwise
      with backslash, delimiter and line breaks escaped. */
  function Escape(field: Option<string>): (e: string)
    ensures field.None? ==> e == ""
    ensures field.Some? && Plain(field.value) ==> e == field.value
    ensures '\n' !in e && '\r' !in e
  {
    match field
    case None => ""
    case Some(s) =>
      var e1 := ReplaceChar(s, '\\', "\\\\");
      var e2 := ReplaceChar(e1, '|', "\\|");
      var e3 := ReplaceChar(e2, '\n', "\\n");
      ReplaceCharKeepsOut(e3, '\r', "\\r", '\n');
      ReplaceChar(e3, '\r', "\\r")
  }

  /** How `parseLine` reads one piece between delimiters: trimmed, then the
      escapes for delimiter and line breaks undone (a doubled backslash is
      left doubled). */
  function Unescape(part: string): (f: string)
    ensures Untrimmed(part) && '\\' !in part ==> f == part
  {
    var t := Trim(part);
    ReplacePair(ReplacePair(ReplacePair(t, '\\', '|', '|'), '\\', 'n', '\n'), '\\', 'r', '\r')
  }

  /** The line `formatLine` writes for a row. */
  function LineOf(fields: seq<Option<string>>): (line: string)
    ensures '\n' !in line && '\r' !in line
  {
    var escaped := Map(fields, Escape);
    JoinKeepsOut(escaped, '\n');
    JoinKeepsOut(escaped, '\r');
    Join(escaped, Delimiter)
  }

  lemma {:induction false} JoinKeepsOut(parts: seq<string>, c: char)
    requires c != Delimiter
    requires forall i :: 0 <= i < |parts| ==> c !in parts[i]
    ensures c !in Join(parts, Delimiter)
  {
    if |parts| > 1 {
      JoinKeepsOut(parts[1..], c);
    }
  }

  /** The fields `parseLine` reads from a line: every delimiter cuts, even
      an escaped one. */
  function FieldsOf(line: string): (fields: seq<string>)
    ensures |fields| >= 1
  {
    Map(Split(line, Delimiter), Unescape)
  }

  /** A header field as `validateHeader` compares it. */
  function Normal(f: string): string
  {
    ToLower(Trim(f))
  }

  /** Whether two header fields agree once normalised, compared character
      by character (`FieldsMatchIff` relates it to `Normal`). */
  predicate FieldsMatch(x: string, y: string)
  {
    SameLower(Trim(x), Trim(y))
  }

  lemma FieldsMatchIff(x: string, y: string)
    ensures FieldsMatch(x, y) <==> Normal(x) == Normal(y)
  {
    SameLowerIff(Trim(x), Trim(y));
  }

  /** The first position from `from` on where the two headers' fields
      differ once normalised. */
  function FirstMismatch(expected: seq<string>, actual: seq<string>, from: nat): (k: Option<nat>)
    requires |expected| == |actual| && from <= |expected|
    ensures k.Some? ==> from <= k.value < |expected| && !FieldsMatch(expected[k.value], actual[k.value])
    ensures forall j :: from <= j < |expected| && (k.None? || j < k.value) ==> FieldsMatch(expected[j], actual[j])
    decreases |expected| - from
  {
    if from == |expected| then None
    else if !FieldsMatch(expected[from], actual[from]) then Some(from)
    else FirstMismatch(expected, actual, from + 1)
  }

  /** The failures `validateHeader` reports for the file at `path`. */
  function HeaderMissing(path: string): Failure
  {
    Storage("File header is missing: " + path)
  }

  function FieldCountMismatch(path: string, expected: nat, found: nat): Failure
  {
    Storage("Header field count mismatch in " + path + ". Expected " + IntText(expected)
      + " fields, found " + IntText(found))
  }

  function FieldMismatch(path: string, position: nat, expected: string, found: string): Failure
  {
    Storage("Header field mismatch at position " + IntText(position) + " in " + path
      + ". Expected '" + expected + "', found '" + found + "'")
  }

  /** What `validateHeader` decides about the header line of the file at
      `path`. */
  function HeaderCheck(path: string, actual: string, expected: string): Outcome<Failure>
  {
    if TrimsToEmpty(actual) then Fail(HeaderMissing(path))
    else
      var a := Split(actual, Delimiter);
      var e := Split(expected, Delimiter);
      if |a| != |e| then Fail(FieldCountMismatch(path, |e|, |a|))
      else
        match FirstMismatch(e, a, 0)
        case None => Pass
        case Some(i) => Fail(FieldMismatch(path, i + 1, e[i], a[i]))
  }

  /** A header is accepted exactly when it is not blank, has as many fields
      as the expected one, and agrees with it field by field up to case and
      surrounding whitespace. */
  lemma HeaderCheckPasses(path: string, actual: string, expected: string)
    ensures HeaderCheck(path, actual, expected) == Pass <==>
      (&& !TrimsToEmpty(actual)
       && |Split(actual, Delimiter)| == |Split(expected, Delimiter)|
       && forall i :: 0 <= i < |Split(actual, Delimiter)| ==>
            Normal(Split(actual, Delimiter)[i]) == Normal(Split(expected, Delimiter)[i]))
  {
    var a := Split(actual, Delimiter);
    var e := Split(expected, Delimiter);
    if |a| == |e| {
      forall i | 0 <= i < |a|
        ensures FieldsMatch(e[i], a[i]) <==> Normal(a[i]) == Normal(e[i])
      {
        FieldsMatchIff(e[i], a[i]);
      }
    }
  }

  /** The data rows after the header: each line trimmed, blank lines
      skipped, the others cut into fields. */
  function DataRows(lines: seq<string>): (rows: seq<seq<string>>)
    ensures |rows| <= |lines|
  {
    if lines == [] then []
    else
      var line := Trim(lines[|lines| - 1]);
      DataRows(lines[..|lines| - 1]) + (if line == [] then [] else [FieldsOf(line)])
  }

  /** What `readAll` returns for a file holding `file`: no rows for an
      empty file, the header's failure, or the data rows. */
  function RowsOf(path: string, file: seq<string>, expected: string): Result<seq<seq<string>>, Failure>
  {
    if file == [] then Ok([])
    else
      match HeaderCheck(path, file[0], expected)
      case Fail(e) => Err(e)
      case Pass => Ok(DataRows(file[1..]))
  }

  /** The lines `writeAll` puts in the file. */
  function FileLines(header: string, rows: seq<seq<Option<string>>>): (file: seq<string>)
    ensures |file| == |rows| + 1 && file[0] == header
    ensures forall i :: 0 <= i < |rows| ==> file[i + 1] == LineOf(rows[i])
  {
    [header] + Map(rows, LineOf)
  }

  /** A row `writeAll` can store and `readAll` give back unchanged: every
      field plain and without surrounding whitespace, and the line not
      empty. */
  predicate Storable(row: seq<string>)
  {
    && |row| >= 1
    && (|row| >= 2 || row[0] != "")
    && forall i :: 0 <= i < |row| ==> Plain(row[i]) && Untrimmed(row[i])
  }

  /** A number or date as the JDK prints it is a field the file keeps as
      it is. */
  lemma TokenStorable(s: string)
    requires Token(s)
    ensures Plain(s) && Untrimmed(s) && s != []
  {
  }

  /** The row as the repositories hand it to `writeAll`, no field null. */
  function Present(row: seq<string>): (fields: seq<Option<string>>)
    ensures |fields| == |row|
    ensures forall i :: 0 <= i < |row| ==> fields[i] == Some(row[i])
  {
    seq(|row|, i requires 0 <= i < |row| => Some(row[i]))
  }

  /** One storable row survives formatting and parsing, and its line is
      neither blank nor changed by trimming. */
  lemma LineRoundTrip(row: seq<string>)
    requires Storable(row)
    ensures Trim(LineOf(Present(row))) == LineOf(Present(row))
    ensures LineOf(Present(row)) != []
    ensures FieldsOf(LineOf(Present(row))) == row
  {
    var escaped := Map(Present(row), Escape);
    assert escaped == row;
    var line := Join(row, Delimiter);
    JoinUntrimmed(row, Delimiter);
    TrimOfUntrimmed(line);
    if |row| >= 2 {
      assert line == row[0] + [Delimiter] + Join(row[1..], Delimiter);
    }
    SplitJoin(row, Delimiter);
  }

  /** Rows of storable fields come back from the file they were written to,
      in order. */
  lemma RoundTrip(path: string, header: string, rows: seq<seq<string>>)
    requires !TrimsToEmpty(header)
    requires forall i :: 0 <= i < |rows| ==> Storable(rows[i])
    ensures RowsOf(path, FileLines(header, Map(rows, Present)), header) == Ok(rows)
  {
    HeaderCheckPasses(path, header, header);
    var file := FileLines(header, Map(rows, Present));
    DataRowsOfLines(rows, file[1..]);
  }

  lemma {:induction false} DataRowsOfLines(rows: seq<seq<string>>, lines: seq<string>)
    requires forall i :: 0 <= i < |rows| ==> Storable(rows[i])
    requires |lines| == |rows|
    requires forall i :: 0 <= i < |rows| ==> lines[i] == LineOf(Present(rows[i]))
    ensures DataRows(lines) == rows
  {
    if rows != [] {
      var n := |rows| - 1;
      forall i | 0 <= i < n
        ensures Storable(rows[..n][i]) && lines[..n][i] == LineOf(Present(rows[..n][i]))
      {
        assert rows[..n][i] == rows[i] && lines[..n][i] == lines[i];
      }
      DataRowsOfLines(rows[..n], lines[..n]);
      LineRoundTrip(rows[n]);
      DataRowsSnoc(lines, rows[n]);
      LastSplit(rows);
    }
  }

  /** A last line that is neither blank nor changed by trimming adds its
      fields as one more row. */
  lemma DataRowsSnoc(lines: seq<string>, row: seq<string>)
    requires lines != []
    requires Trim(lines[|lines| - 1]) == lines[|lines| - 1] != []
    requires FieldsOf(lines[|lines| - 1]) == row
    ensures DataRows(lines) == DataRows(lines[..|lines| - 1]) + [row]
  {
  }

  /** A delimiter inside a field is escaped on writing but still cuts the
      field in two on reading: for plain fields `x` and `y`, the field
      `x|y` comes back as the two fields `x\` and `y`. */
  lemma DelimiterInFieldSplits(x: string, y: string)
    requires Plain(x) && Untrimmed(x) && Plain(y) && Untrimmed(y)
    ensures FieldsOf(LineOf([Some(x + [Delimiter] + y)])) == [x + ['\\'], y]
  {
    LineOfOne(Some(x + [Delimiter] + y));
    EscapeOfDelimiter(x, y);
    assert x + ['\\', Delimiter] + y == (x + ['\\']) + [Delimiter] + y;
    FieldsOfEscapedDelimiter(x, y);
  }

  lemma LineOfOne(f: Option<string>)
    ensures LineOf([f]) == Escape(f)
  {
  }

  lemma FieldsOfEscapedDelimiter(x: string, y: string)
    requires Plain(x) && Untrimmed(x) && Plain(y) && Untrimmed(y)
    ensures FieldsOf((x + ['\\']) + [Delimiter] + y) == [x + ['\\'], y]
  {
    var x' := x + ['\\'];
    SplitTwo(x', y);
    FieldsOfTwo(x' + [Delimiter] + y, x', y);
    UnescapeTrailingBackslash(x);
    assert Unescape(y) == y;
  }

  lemma FieldsOfTwo(line: string, a: string, b: string)
    requires Split(line, Delimiter) == [a, b]
    ensures FieldsOf(line) == [Unescape(a), Unescape(b)]
  {
    var m := Map([a, b], Unescape);
    assert m[0] == Unescape(a) && m[1] == Unescape(b);
  }

  lemma UnescapeTrailingBackslash(x: string)
    requires Plain(x) && Untrimmed(x)
    ensures Unescape(x + ['\\']) == x + ['\\']
  {
    var x' := x + ['\\'];
    TrimOfUntrimmed(x');
    assert '|' !in x';
    ReplacePairAbsent(x', '\\', 'n', '\n');
    ReplacePairAbsent(x', '\\', 'r', '\r');
  }

  lemma EscapeOfDelimiter(x: string, y: string)
    requires Plain(x) && Plain(y)
    ensures Escape(Some(x + [Delimiter] + y)) == x + ['\\', Delimiter] + y
  {
    var s := x + [Delimiter] + y;
    assert '\\' !in s;
    ReplaceCharConcat(x + [Delimiter], y, '|', "\\|");
    ReplaceCharConcat(x, [Delimiter], '|', "\\|");
    var e := x + ['\\', Delimiter] + y;
    assert ReplaceChar(s, '|', "\\|") == e;
    assert '\n' !in e && '\r' !in e;
  }

  /** Two pieces without a delimiter, joined by one. */
  lemma {:induction false} SplitTwo(x: string, y: string)
    requires Delimiter !in x && Delimiter !in y
    ensures Split(x + [Delimiter] + y, Delimiter) == [x, y]
  {
    SplitAfterPiece(x, y, Delimiter);
    SplitWithoutDelimiter(y, Delimiter);
  }

  /** A header always matches itself unless it is blank. */
  lemma HeaderMatchesItself(path: string, header: string)
    requires !TrimsToEmpty(header)
    ensures HeaderCheck(path, header, header) == Pass
  {
    HeaderCheckPasses(path, header, header);
  }

  /** The reading half of `readAll`, on the lines of an existing file. */
  method ReadLines(filePath: string, lines: seq<string>, expectedHeader: string) returns (r: Result<seq<seq<string>>, Failure>)
    ensures r == RowsOf(filePath, lines, expectedHeader)
  {
    if |lines| == 0 {
      return Ok([]);
    }
    var check := ValidateHeader(filePath, lines[0], expectedHeader);
    if check.Fail? {
      return Err(check.error);
    }
    var body := lines[1..];
    var rows: seq<seq<string>> := [];
    var i := 0;
    while i < |body|
      invariant 0 <= i <= |body|
      invariant rows == DataRows(body[..i])
    {
      assert body[..i + 1][..i] == body[..i];
      var line := Trim(body[i]);
      if line != [] {
        var fields := ParseLine(line);
        rows := rows + [fields];
      }
      i := i + 1;
    }
    assert body[..|body|] == body;
    return Ok(rows);
  }

  /** `validateHeader`. */
  method ValidateHeader(filePath: string, actual: string, expected: string) returns (r: Outcome<Failure>)
    ensures r == HeaderCheck(filePath, actual, expected)
  {
    if TrimsToEmpty(actual) {
      return Fail(HeaderMissing(filePath));
    }
    var a := Split(actual, Delimiter);
    var e := Split(expected, Delimiter);
    if |a| != |e| {
      return Fail(FieldCountMismatch(filePath, |e|, |a|));
    }
    var i := 0;
    while i < |e|
      invariant 0 <= i <= |e|
      invariant FirstMismatch(e, a, 0) == FirstMismatch(e, a, i)
    {
      if !FieldsMatch(e[i], a[i]) {
        return Fail(FieldMismatch(filePath, i + 1, e[i], a[i]));
      }
      i := i + 1;
    }
    return Pass;
  }

  /** `parseLine`. */
  method ParseLine(line: string) returns (fields: seq<string>)
    ensures fields == FieldsOf(line)
  {
    var parts := Split(line, Delimiter);
    fields := [];
    var i := 0;
    while i < |parts|
      invariant 0 <= i <= |parts|
      invariant fields == Map(parts[..i], Unescape)
    {
      MapSnoc(parts, i, Unescape);
      fields := fields + [Unescape(parts[i])];
      i := i + 1;
    }
    assert parts[..|parts|] == parts;
  }

  /** `formatLine`. */
  method FormatLine(fields: seq<Option<string>>) returns (line: string)
    ensures line == LineOf(fields)
  {
    var escaped: seq<string> := [];
    var i := 0;
    while i < |fields|
      invariant 0 <= i <= |fields|
      invariant escaped == Map(fields[..i], Escape)
    {
      MapSnoc(fields, i, Escape);
      escaped := escaped + [Escape(fields[i])];
      i := i + 1;
    }
    assert fields[..|fields|] == fields;
    line := Join(escaped, Delimiter);
  }

  /** `FileStorage`: one file under the data directory. `file` is what the
      disk holds for it, `None` while the file does not exist. */
  class FileStorage {
    const filePath: string
    var file: Option<seq<string>>

    constructor (fileName: string, disk: Option<seq<string>>)
      ensures filePath == DataDir + "/" + fileName
      ensures file == disk
    {
      filePath := DataDir + "/" + fileName;
      file := disk;
    }

    /** `readAll`: creates a missing file holding only the header, then
        validates the header and reads the data rows. */
    method ReadAll(expectedHeader: string) returns (r: Result<seq<seq<string>>, Failure>)
      modifies this
      ensures old(file).None? ==> file == Some([expectedHeader])
      ensures old(file).Some? ==> file == old(file)
      ensures r == RowsOf(filePath, file.value, expectedHeader)
    {
      if file.None? {
        file := Some([expectedHeader]);
      }
      r := ReadLines(filePath, file.value, expectedHeader);
    }

    /** `writeAll`: replaces the file with the header and one line per
        row. */
    method WriteAll(header: string, rows: seq<seq<Option<string>>>)
      modifies this
      ensures file == Some(FileLines(header, rows))
    {
      var lines := [header];
      var i := 0;
      while i < |rows|
        invariant 0 <= i <= |rows|
        invariant lines == [header] + Map(rows[..i], LineOf)
      {
        MapSnoc(rows, i, LineOf);
        var line := FormatLine(rows[i]);
        lines := lines + [line];
        i := i + 1;
      }
      assert rows[..|rows|] == rows;
      file := Some(lines);
    }
  }
}
