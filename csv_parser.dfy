/**
 * The quote-aware CSV tokenizer of the analysis pipeline (`parseCSV`).
 * The text is trimmed and split on newlines; the first line is split on
 * every comma into headers, and every other line is scanned character by
 * character: a quote toggles the in-quotes flag and is dropped, a comma
 * outside quotes closes a field, and each field is trimmed.
 */
module CsvParser {
  import opened Strings
  import opened Seqs

  /** The tokenizer's state: the fields closed so far, the field being read,
      and whether a quote is open. */
  datatype ScanState = ScanState(values: seq<string>, current: string, inQuotes: bool)

  /** The effect of reading one character. */
  function Step(st: ScanState, c: char): ScanState
  {
    if c == '"' then st.(inQuotes := !st.inQuotes)
    else if c == ',' && !st.inQuotes then ScanState(st.values + [Trim(st.current)], [], st.inQuotes)
    else st.(current := st.current + [c])
  }

  /** The state after reading `line` from its start. */
  function Scan(line: string): ScanState
  {
    if line == [] then ScanState([], [], false)
    else Step(Scan(line[..|line| - 1]), line[|line| - 1])
  }

  /** The fields of one data line: the closed fields, then the trimmed last one. There is
      one more field than there are commas outside quotes, and each field is trimmed and
      holds no quote character. */
  function Fields(line: string): (r: seq<string>)
    ensures |r| == 1 + UnquotedCommas(line)
    ensures forall i :: 0 <= i < |r| ==> CleanField(r[i])
  {
    var st := Scan(line);
    ScanInvariant(line);
    TrimIdempotent(st.current);
    st.values + [Trim(st.current)]
  }

  /** The number of commas read while no quote is open (an even number of quotes precedes them). */
  function UnquotedCommas(line: string): nat
  {
    if line == [] then 0
    else
      var prefix := line[..|line| - 1];
      UnquotedCommas(prefix) + (if line[|line| - 1] == ',' && Occurrences(prefix, '"') % 2 == 0 then 1 else 0)
  }

  /** A field as the tokenizer emits it: no quote character, nothing left to trim. */
  predicate CleanField(f: string) {
    '"' !in f && Trim(f) == f
  }

  /** What scanning maintains, for a state reached after reading `line`. */
  predicate ScanFacts(st: ScanState, line: string) {
    (st.inQuotes <==> Occurrences(line, '"') % 2 == 1) &&
    |st.values| == UnquotedCommas(line) &&
    '"' !in st.current &&
    forall i :: 0 <= i < |st.values| ==> CleanField(st.values[i])
  }

  /** The counts over `prefix + [c]`, one character at a time. */
  lemma CountsSnoc(prefix: string, c: char)
    ensures Occurrences(prefix + [c], '"') == Occurrences(prefix, '"') + (if c == '"' then 1 else 0)
    ensures UnquotedCommas(prefix + [c]) ==
      UnquotedCommas(prefix) + (if c == ',' && Occurrences(prefix, '"') % 2 == 0 then 1 else 0)
  {
    assert (prefix + [c])[..|prefix|] == prefix;
  }

  /** Closing a quote-free field appends a clean field. */
  lemma CloseField(values: seq<string>, current: string)
    requires forall i :: 0 <= i < |values| ==> CleanField(values[i])
    requires '"' !in current
    ensures forall i :: 0 <= i < |values| + 1 ==> CleanField((values + [Trim(current)])[i])
  {
    TrimIdempotent(current);
  }

  /** Reading one more character keeps the facts. */
  lemma StepFacts(st: ScanState, prefix: string, c: char)
    requires ScanFacts(st, prefix)
    ensures ScanFacts(Step(st, c), prefix + [c])
  {
    CountsSnoc(prefix, c);
    if c == '"' {
    } else if c == ',' && !st.inQuotes {
      CloseField(st.values, st.current);
    } else {
      assert '"' !in st.current + [c];
    }
  }

  /** What scanning maintains: the quote flag is the parity of the quotes read, one
      field is closed per unquoted comma, and no quote ever enters a field. */
  lemma {:induction false} ScanInvariant(line: string)
    ensures ScanFacts(Scan(line), line)
  {
    if line != [] {
      var prefix := line[..|line| - 1];
      ScanInvariant(prefix);
      StepFacts(Scan(prefix), prefix, line[|line| - 1]);
      assert line == prefix + [line[|line| - 1]];
    }
  }

  /** `fields.map(f => f.trim())`. */
  function TrimAll(fields: seq<string>): (r: seq<string>)
    ensures |r| == |fields|
    ensures forall i :: 0 <= i < |r| ==> r[i] == Trim(fields[i])
  {
    seq(|fields|, i requires 0 <= i < |fields| => Trim(fields[i]))
  }

  /** The state a quote-free scan is in once the text read so far splits into `p`:
      every part but the last closed and trimmed, the last one still open. */
  function OpenParts(p: seq<string>): ScanState
    requires |p| >= 1
  {
    ScanState(TrimAll(p[..|p| - 1]), p[|p| - 1], false)
  }

  /** Trimming every part, the last one separately. */
  lemma TrimAllSnoc(p: seq<string>)
    requires |p| >= 1
    ensures TrimAll(p) == TrimAll(p[..|p| - 1]) + [Trim(p[|p| - 1])]
  {
    var q := TrimAll(p[..|p| - 1]) + [Trim(p[|p| - 1])];
    assert forall i :: 0 <= i < |p| - 1 ==> q[i] == TrimAll(p[..|p| - 1])[i];
  }

  /** Trimming parts that are already trimmed changes nothing. */
  lemma TrimAllTrimmed(p: seq<string>)
    requires forall i :: 0 <= i < |p| ==> Trim(p[i]) == p[i]
    ensures TrimAll(p) == p
  {
  }

  /** One character other than a quote moves the tokenizer and the split in step. */
  lemma StepOpenParts(p: seq<string>, c: char)
    requires |p| >= 1
    requires c != '"'
    ensures Step(OpenParts(p), c) == OpenParts(Extend(p, c, ','))
  {
    var p' := Extend(p, c, ',');
    if c == ',' {
      assert p'[..|p'| - 1] == p;
      TrimAllSnoc(p);
    } else {
      assert p'[..|p'| - 1] == p[..|p| - 1];
    }
  }

  /** On a line without quotes the tokenizer agrees with splitting on every comma. */
  lemma {:induction false} ScanWithoutQuotes(line: string)
    requires '"' !in line
    ensures Scan(line) == OpenParts(Split(line, ','))
  {
    if line != [] {
      var prefix := line[..|line| - 1];
      var c := line[|line| - 1];
      ScanWithoutQuotes(prefix);
      StepOpenParts(Split(prefix, ','), c);
    }
  }

  /** On a line without quotes the fields are the trimmed comma-separated parts. */
  lemma FieldsWithoutQuotes(line: string)
    requires '"' !in line
    ensures Fields(line) == TrimAll(Split(line, ','))
  {
    var p := Split(line, ',');
    calc {
      Fields(line);
      Scan(line).values + [Trim(Scan(line).current)];
      { ScanWithoutQuotes(line); }
      OpenParts(p).values + [Trim(OpenParts(p).current)];
      TrimAll(p[..|p| - 1]) + [Trim(p[|p| - 1])];
      { TrimAllSnoc(p); }
      TrimAll(p);
    }
  }

  lemma {:induction false} JoinWithoutQuotes(parts: seq<string>)
    requires forall i :: 0 <= i < |parts| ==> '"' !in parts[i]
    ensures '"' !in Join(parts, ',')
  {
    if |parts| > 1 {
      JoinWithoutQuotes(parts[..|parts| - 1]);
    }
  }

  /** Round trip: joining clean, comma-free fields with commas and tokenizing the
      line gives the fields back. */
  lemma FieldsOfJoin(fields: seq<string>)
    requires |fields| >= 1
    requires forall i :: 0 <= i < |fields| ==> CleanField(fields[i]) && ',' !in fields[i]
    ensures Fields(Join(fields, ',')) == fields
  {
    var line := Join(fields, ',');
    JoinWithoutQuotes(fields);
    FieldsWithoutQuotes(line);
    SplitJoin(fields, ',');
    TrimAllTrimmed(fields);
  }

  /** Tokenizes one data line, character by character. */
  method ParseLine(line: string) returns (values: seq<string>)
    ensures values == Fields(line)
    ensures |values| == 1 + UnquotedCommas(line)
    ensures forall i :: 0 <= i < |values| ==> CleanField(values[i])
  {
    values := [];
    var current := "";
    var inQuotes := false;
    for i := 0 to |line|
      invariant Scan(line[..i]) == ScanState(values, current, inQuotes)
    {
      var c := line[i];
      assert line[..i + 1][..i] == line[..i];
      if c == '"' {
        inQuotes := !inQuotes;
      } else if c == ',' && !inQuotes {
        values := values + [Trim(current)];
        current := "";
      } else {
        current := current + [c];
      }
    }
    assert line[..|line|] == line;
    values := values + [Trim(current)];
  }

  /** `content.trim().split('\n')`. */
  function Lines(content: string): (r: seq<string>)
    ensures |r| == 1 + Occurrences(Trim(content), '\n')
  {
    SplitCount(Trim(content), '\n');
    Split(Trim(content), '\n')
  }

  /** The header line split on every comma, each part trimmed and then stripped of quotes. */
  function HeaderFields(line: string): (r: seq<string>)
    ensures |r| == 1 + Occurrences(line, ',')
    ensures forall i :: 0 <= i < |r| ==> '"' !in r[i]
  {
    SplitCount(line, ',');
    var parts := Split(line, ',');
    seq(|parts|, i requires 0 <= i < |parts| => RemoveAll(Trim(parts[i]), '"'))
  }

  /** Every line after the first, tokenized. */
  function TokenizeRest(lines: seq<string>): (rows: seq<seq<string>>)
    requires |lines| >= 1
    ensures |rows| == |lines| - 1
    ensures forall i :: 0 <= i < |rows| ==> rows[i] == Fields(lines[i + 1])
  {
    seq(|lines| - 1, i requires 0 <= i < |lines| - 1 => Fields(lines[i + 1]))
  }

  /** The data rows `parseCSV` returns. */
  function DataRows(content: string): (rows: seq<seq<string>>)
    ensures |rows| == Occurrences(Trim(content), '\n')
  {
    TokenizeRest(Lines(content))
  }

  /** `parseCSV`: the headers from the first line and one tokenized row per further line. */
  method ParseCsv(content: string) returns (headers: seq<string>, rows: seq<seq<string>>)
    ensures headers == HeaderFields(Lines(content)[0])
    ensures |rows| == Occurrences(Trim(content), '\n')
    ensures forall i :: 0 <= i < |rows| ==> rows[i] == Fields(Lines(content)[i + 1])
    ensures forall i, j :: 0 <= i < |rows| && 0 <= j < |rows[i]| ==> CleanField(rows[i][j])
    ensures rows == DataRows(content)
  {
    var lines := Lines(content);
    headers := HeaderFields(lines[0]);
    rows := [];
    for k := 1 to |lines|
      invariant |rows| == k - 1
      invariant forall i :: 0 <= i < |rows| ==> rows[i] == Fields(lines[i + 1])
    {
      var values := ParseLine(lines[k]);
      rows := rows + [values];
    }
  }
}
