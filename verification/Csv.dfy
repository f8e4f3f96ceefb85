/** Printing cells as CSV, and a reader by the rules of section 2 of RFC 4180. */
module Csv {
  import opened Seqs

  predicate StartsFormula(c: char) {
    c in {'=', '+', '-', '@', '\t', '\r'}
  }

  /** The characters that need a field to be quoted. */
  predicate Special(c: char) {
    c in {'"', ',', '\r', '\n'}
  }

  /** A text a spreadsheet will not run. */
  function Guarded(value: string): string {
    if value != "" && StartsFormula(value[0]) then "'" + value else value
  }

  function Escaped(value: string): string {
    if value == "" then ""
    else (if value[0] == '"' then "\"\"" else [value[0]]) + Escaped(value[1..])
  }

  function Cell(value: string): string {
    var safe := Guarded(value);
    if exists c | c in safe :: Special(c) then "\"" + Escaped(safe) + "\"" else safe
  }

  function Join(parts: seq<string>, sep: string): string {
    if parts == [] then "" else if |parts| == 1 then parts[0] else parts[0] + sep + Join(parts[1..], sep)
  }

  const CRLF := "\r\n"

  function Record(cells: seq<string>): string {
    Join(Map(cells, Cell), ",")
  }

  // ---- the reader ----

  /** A quoted field, after its opening quote. */
  function ReadQuoted(s: string): (r: Option<(string, string)>)
    ensures r.Some? ==> |r.value.1| < |s|
  {
    if s == "" then None
    else if s[0] != '"' then
      var r := ReadQuoted(s[1..]);
      if r.Some? then Some(([s[0]] + r.value.0, r.value.1)) else None
    else if |s| >= 2 && s[1] == '"' then
      var r := ReadQuoted(s[2..]);
      if r.Some? then Some((['"'] + r.value.0, r.value.1)) else None
    else Some(("", s[1..]))
  }

  function ReadPlain(s: string): (r: (string, string))
    ensures |r.1| <= |s|
  {
    if s == "" || Special(s[0]) then ("", s)
    else var r := ReadPlain(s[1..]); ([s[0]] + r.0, r.1)
  }

  function ReadField(s: string): (r: Option<(string, string)>)
    ensures r.Some? ==> |r.value.1| <= |s|
  {
    if s != "" && s[0] == '"' then ReadQuoted(s[1..]) else Some(ReadPlain(s))
  }

  function ReadRecord(s: string): (r: Option<(seq<string>, string)>)
    ensures r.Some? ==> |r.value.1| <= |s|
    decreases |s|
  {
    var f := ReadField(s);
    if f.None? then None
    else if f.value.1 != "" && f.value.1[0] == ',' then
      var more := ReadRecord(f.value.1[1..]);
      if more.Some? then Some(([f.value.0] + more.value.0, more.value.1)) else None
    else Some(([f.value.0], f.value.1))
  }

  /** Records one after the other, each ended by a line break, the last one perhaps not. */
  function ReadFile(s: string): Option<seq<seq<string>>>
    decreases |s|
  {
    if s == "" then Some([])
    else
      var record := ReadRecord(s);
      if record.None? then None
      else if record.value.1 == "" then Some([record.value.0])
      else if CRLF <= record.value.1 then
        var more := ReadFile(record.value.1[2..]);
        if more.Some? then Some([record.value.0] + more.value) else None
      else None
  }

  // ---- printing, then reading ----

  /** What may follow a field. */
  predicate Ends(rest: string) {
    rest == "" || rest[0] == ',' || rest[0] == '\r'
  }

  lemma {:induction false} QuotedReadsBack(v: string, rest: string)
    requires Ends(rest)
    ensures ReadQuoted(Escaped(v) + "\"" + rest) == Some((v, rest))
  {
    var s := Escaped(v) + "\"" + rest;
    if v == "" {
      assert s == "\"" + rest && s[1..] == rest;
    } else {
      QuotedReadsBack(v[1..], rest);
      var tail := Escaped(v[1..]) + "\"" + rest;
      assert v == [v[0]] + v[1..];
      if v[0] == '"' {
        assert s == "\"\"" + tail && s[2..] == tail;
      } else {
        assert s == [v[0]] + tail && s[1..] == tail;
      }
    }
  }

  lemma {:induction false} PlainReadsBack(v: string, rest: string)
    requires Ends(rest) && forall c | c in v :: !Special(c)
    ensures ReadPlain(v + rest) == (v, rest)
  {
    if v == "" {
      assert v + rest == rest;
    } else {
      PlainReadsBack(v[1..], rest);
      assert v == [v[0]] + v[1..] && (v + rest)[0] == v[0] && (v + rest)[1..] == v[1..] + rest;
    }
  }

  /** One cell reads back as its guarded text, character for character. */
  lemma CellReadsBack(value: string, rest: string)
    requires Ends(rest)
    ensures ReadField(Cell(value) + rest) == Some((Guarded(value), rest))
  {
    var safe := Guarded(value);
    if exists c | c in safe :: Special(c) {
      QuotedReadsBack(safe, rest);
      assert (Cell(value) + rest)[1..] == Escaped(safe) + "\"" + rest;
    } else {
      PlainReadsBack(safe, rest);
      assert safe != "" ==> (safe + rest)[0] == safe[0];
    }
  }

  lemma CellThenMore(value: string, more: string)
    requires ReadRecord(more).Some?
    ensures var m := ReadRecord(more).value;
            ReadRecord(Cell(value) + ("," + more)) == Some(([Guarded(value)] + m.0, m.1))
  {
    CellReadsBack(value, "," + more);
    assert ("," + more)[1..] == more;
  }

  lemma RecordStep(cells: seq<string>, rest: string)
    requires |cells| > 1
    ensures Record(cells) + rest == Cell(cells[0]) + ("," + (Record(cells[1..]) + rest))
    ensures Map(cells, Guarded) == [Guarded(cells[0])] + Map(cells[1..], Guarded)
  {
    assert Map(cells, Cell)[1..] == Map(cells[1..], Cell);
    assert Record(cells) == Cell(cells[0]) + "," + Record(cells[1..]);
  }

  lemma {:induction false} RecordReadsBack(cells: seq<string>, rest: string)
    requires cells != [] && (rest == "" || rest[0] == '\r')
    ensures ReadRecord(Record(cells) + rest) == Some((Map(cells, Guarded), rest))
  {
    if |cells| == 1 {
      CellReadsBack(cells[0], rest);
      assert Map(cells, Guarded) == [Guarded(cells[0])];
    } else {
      RecordReadsBack(cells[1..], rest);
      CellThenMore(cells[0], Record(cells[1..]) + rest);
      RecordStep(cells, rest);
    }
  }

  /** Lines joined and closed by a line break. */
  function Printed(records: seq<seq<string>>): string {
    Join(Map(records, Record), CRLF) + CRLF
  }

  function GuardAll(record: seq<string>): seq<string> {
    Map(record, Guarded)
  }

  lemma LineThenMore(record: seq<string>, more: string)
    requires record != [] && ReadFile(more).Some?
    ensures ReadFile(Record(record) + (CRLF + more)) == Some([GuardAll(record)] + ReadFile(more).value)
  {
    RecordReadsBack(record, CRLF + more);
    assert CRLF <= CRLF + more && (CRLF + more)[2..] == more;
    assert Record(record) + (CRLF + more) != "";
  }

  lemma PrintedStep(records: seq<seq<string>>)
    requires |records| > 1
    ensures Printed(records) == Record(records[0]) + (CRLF + Printed(records[1..]))
    ensures Map(records, GuardAll) == [GuardAll(records[0])] + Map(records[1..], GuardAll)
  {
    assert Map(records, Record)[1..] == Map(records[1..], Record);
  }

  /** Reading what was printed gives one record per record, each field guarded. */
  lemma {:induction false} FileReadsBack(records: seq<seq<string>>)
    requires records != [] && forall r | r in records :: r != []
    ensures ReadFile(Printed(records)) == Some(Map(records, GuardAll))
  {
    assert records[0] in records;
    if |records| == 1 {
      LineThenMore(records[0], "");
      assert CRLF + "" == CRLF && Printed(records) == Record(records[0]) + CRLF;
      assert Map(records, GuardAll) == [GuardAll(records[0])] + [];
    } else {
      assert forall r | r in records[1..] :: r in records;
      FileReadsBack(records[1..]);
      LineThenMore(records[0], Printed(records[1..]));
      PrintedStep(records);
    }
  }

  lemma GuardedIsNoFormula(value: string)
    ensures Guarded(value) != "" ==> !StartsFormula(Guarded(value)[0])
  {
  }

  /** What a guarded text is: an apostrophe in front of what a spreadsheet would run. */
  lemma GuardReads(value: string)
    ensures Guarded(value) == if value != "" && value[0] in ['=', '+', '-', '@', '\t', '\r'] then "'" + value else value
  {
  }

  /** A cell is quoted exactly when it holds a quote, a comma or a line break. */
  lemma CellIsQuotedWhenNeeded(value: string)
    ensures var safe := Guarded(value);
            if '"' in safe || ',' in safe || '\r' in safe || '\n' in safe then
              |Cell(value)| >= 2 && Cell(value)[0] == '"' && Cell(value)[|Cell(value)| - 1] == '"'
            else Cell(value) == safe
  {
    var safe := Guarded(value);
    if c :| c in safe && Special(c) {
      assert '"' in safe || ',' in safe || '\r' in safe || '\n' in safe;
    } else {
      forall c | c in ['"', ',', '\r', '\n'] ensures c !in safe { assert Special(c); }
    }
  }
}
