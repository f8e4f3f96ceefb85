/** The classify table: what a row shows once a person has corrected it, the
 * low-confidence view, the sort, and the CSV. */
module Classify {
  import opened Seqs
  import opened Sorting
  import opened Csv

  datatype Choice = Choice(value: string, words: string)

  datatype Row = Row(
    index: nat,
    item: string,
    path: Option<string>,
    answer: Option<string>,
    value: Option<string>,
    confidence: Option<real>,
    low: bool,
    note: Option<string>
  )

  datatype Data = Data(choices: seq<Choice>, rows: seq<Row>)

  /** A person's corrections, by row index. */
  type Corrections = map<nat, string>

  datatype Shown = Shown(answer: Option<string>, confidence: Option<real>, low: bool, corrected: bool)

  function LabelOf(data: Data, picked: string): string {
    var c := Find(data.choices, (c: Choice) => c.value == picked);
    if c.Some? then c.value.words else picked
  }

  function Show(row: Row, data: Data, corrections: Corrections): Shown {
    if row.index in corrections && row.value != Some(corrections[row.index]) then
      Shown(Some(LabelOf(data, corrections[row.index])), None, false, true)
    else
      var confirmed := row.index in corrections;
      Shown(row.answer, row.confidence, row.low && !confirmed, false)
  }

  function IsLow(data: Data, corrections: Corrections): Row -> bool {
    (r: Row) => Show(r, data, corrections).low
  }

  function LowCount(data: Data, corrections: Corrections): nat {
    |Filter(data.rows, IsLow(data, corrections))|
  }

  // ---- the order ----

  datatype SortKey = ByItem | ByAnswer | ByConfidence
  datatype Sort = Sort(key: SortKey, ascending: bool)
  datatype View = All | Low
  datatype Key = Text(text: string) | Number(n: real)

  /** `toLowerCase` and `localeCompare`, of which only the order laws matter. */
  datatype Locale = Locale(lower: string -> string, compare: (string, string) -> int)

  ghost predicate TotalPreorder(l: Locale) {
    && (forall a, b :: l.compare(a, b) < 0 <==> l.compare(b, a) > 0)
    && (forall a, b, c :: l.compare(a, b) <= 0 && l.compare(b, c) <= 0 ==> l.compare(a, c) <= 0)
  }

  function KeyOf(r: Row, data: Data, corrections: Corrections, key: SortKey, l: Locale): Option<Key> {
    var s := Show(r, data, corrections);
    match key
    case ByItem => Some(Text(l.lower(r.item)))
    case ByAnswer => if s.answer.Some? then Some(Text(l.lower(s.answer.value))) else None
    case ByConfidence => if s.confidence.Some? then Some(Number(s.confidence.value)) else None
  }

  /** Keys of one column are all texts or all numbers. */
  function Order(a: Key, b: Key, l: Locale): int {
    match (a, b)
    case (Number(m), Number(n)) => if m < n then -1 else if m > n then 1 else 0
    case (Text(s), Text(t)) => l.compare(s, t)
    case (Number(_), Text(_)) => -1
    case (Text(_), Number(_)) => 1
  }

  /** The comparator handed to `sort`. */
  function Compare(a: Row, b: Row, ka: Option<Key>, kb: Option<Key>, ascending: bool, l: Locale): int {
    if ka.None? || kb.None? then
      if ka == kb then a.index - b.index else if ka.None? then 1 else -1
    else
      var order := Order(ka.value, kb.value, l);
      if order == 0 then a.index - b.index else if ascending then order else -order
  }

  function Before(data: Data, corrections: Corrections, sort: Sort, l: Locale): (Row, Row) -> bool {
    (a: Row, b: Row) =>
      Compare(a, b, KeyOf(a, data, corrections, sort.key, l), KeyOf(b, data, corrections, sort.key, l), sort.ascending, l) < 0
  }

  function Filtered(data: Data, corrections: Corrections, view: View): seq<Row> {
    if view == All then data.rows else Filter(data.rows, IsLow(data, corrections))
  }

  function Arrange(data: Data, corrections: Corrections, view: View, sort: Option<Sort>, l: Locale): seq<Row> {
    var rows := Filtered(data, corrections, view);
    if sort.None? then rows else Sorting.Sort(rows, Before(data, corrections, sort.value, l))
  }

  // ---- the comparator is a real order ----

  /** Numbers before texts, each in its own order. */
  lemma OrderLaws(a: Key, b: Key, c: Key, l: Locale)
    requires TotalPreorder(l)
    ensures Order(a, b, l) < 0 <==> Order(b, a, l) > 0
    ensures Order(a, b, l) <= 0 && Order(b, c, l) <= 0 ==> Order(a, c, l) <= 0
  {
  }

  /** Position of a row: rows without a key last, then by key, then by index. */
  lemma CompareLaws(a: Row, b: Row, c: Row, ka: Option<Key>, kb: Option<Key>, kc: Option<Key>, up: bool, l: Locale)
    requires TotalPreorder(l)
    ensures Compare(a, b, ka, kb, up, l) < 0 <==> Compare(b, a, kb, ka, up, l) > 0
    ensures Compare(a, b, ka, kb, up, l) <= 0 && Compare(b, c, kb, kc, up, l) <= 0 ==> Compare(a, c, ka, kc, up, l) <= 0
  {
    if ka.Some? && kb.Some? {
      OrderLaws(ka.value, kb.value, ka.value, l);
      if kc.Some? {
        OrderLaws(ka.value, kb.value, kc.value, l);
        OrderLaws(kc.value, kb.value, ka.value, l);
        OrderLaws(kb.value, kc.value, ka.value, l);
        OrderLaws(ka.value, kc.value, kb.value, l);
        OrderLaws(kc.value, ka.value, kb.value, l);
        OrderLaws(kb.value, ka.value, kc.value, l);
      }
    }
  }

  lemma CompareIsAnOrder(data: Data, corrections: Corrections, sort: Sort, l: Locale)
    requires TotalPreorder(l)
    ensures StrictWeak(Before(data, corrections, sort, l))
    ensures forall a: Row, b: Row | a.index != b.index ::
              Before(data, corrections, sort, l)(a, b) || Before(data, corrections, sort, l)(b, a)
  {
    var lt := Before(data, corrections, sort, l);
    var key := (r: Row) => KeyOf(r, data, corrections, sort.key, l);
    forall a, b, c
      ensures !lt(a, a)
      ensures lt(a, b) && lt(b, c) ==> lt(a, c)
      ensures lt(a, c) ==> lt(a, b) || lt(b, c)
      ensures a.index != b.index ==> lt(a, b) || lt(b, a)
    {
      CompareLaws(a, b, c, key(a), key(b), key(c), sort.ascending, l);
      CompareLaws(c, b, a, key(c), key(b), key(a), sort.ascending, l);
      CompareLaws(b, c, a, key(b), key(c), key(a), sort.ascending, l);
      CompareLaws(c, a, b, key(c), key(a), key(b), sort.ascending, l);
      CompareLaws(a, c, b, key(a), key(c), key(b), sort.ascending, l);
      CompareLaws(a, a, b, key(a), key(a), key(b), sort.ascending, l);
      CompareTies(a, b, key(a), key(b), sort.ascending, l);
    }
  }

  lemma CompareTies(a: Row, b: Row, ka: Option<Key>, kb: Option<Key>, up: bool, l: Locale)
    ensures Compare(a, b, ka, kb, up, l) == 0 ==> a.index == b.index
  {
  }

  /** The index of a row is its position, as `readClassify` numbers them. */
  ghost predicate Numbered(data: Data) {
    forall i | 0 <= i < |data.rows| :: data.rows[i].index == i
  }

  lemma RowsOfView(data: Data, corrections: Corrections, view: View)
    requires Numbered(data)
    ensures forall a, b | a in Filtered(data, corrections, view) && b in Filtered(data, corrections, view) && a != b ::
              a.index != b.index
  {
    forall a | a in Filtered(data, corrections, view) ensures a in data.rows {
      if view == Low { FilterIn(data.rows, IsLow(data, corrections), a); }
    }
  }

  /** The arranged rows are a sorted permutation of the view, and the only one: any
   * sort of the same rows by this comparator gives the same result. */
  lemma ArrangeIsTheSortedPermutation(
    data: Data, corrections: Corrections, view: View, sort: Sort, l: Locale, other: seq<Row>)
    requires TotalPreorder(l) && Numbered(data)
    ensures var r, lt := Arrange(data, corrections, view, Some(sort), l), Before(data, corrections, sort, l);
            && multiset(r) == multiset(Filtered(data, corrections, view))
            && Sorted(r, lt)
            && (multiset(other) == multiset(r) && Sorted(other, lt) ==> other == r)
  {
    var rows, lt := Filtered(data, corrections, view), Before(data, corrections, sort, l);
    var r := Arrange(data, corrections, view, Some(sort), l);
    CompareIsAnOrder(data, corrections, sort, l);
    SortSorts(rows, lt);
    SortPermutes(rows, lt);
    RowsOfView(data, corrections, view);
    forall a, b | a in r && b in r && a != b ensures lt(a, b) || lt(b, a) {
      assert a in multiset(r) && b in multiset(r);
    }
    if multiset(other) == multiset(r) && Sorted(other, lt) {
      SortedPermutationIsUnique(r, other, lt);
    }
  }

  /** Where two rows stand: one without a key goes last in both directions, keys go
   * up or down as asked, and ties keep the order of the list. */
  lemma ArrangedRows(data: Data, corrections: Corrections, view: View, sort: Sort, l: Locale, i: nat, j: nat)
    requires TotalPreorder(l) && Numbered(data)
    requires i < j < |Arrange(data, corrections, view, Some(sort), l)|
    ensures var r := Arrange(data, corrections, view, Some(sort), l);
            var ka, kb := KeyOf(r[i], data, corrections, sort.key, l), KeyOf(r[j], data, corrections, sort.key, l);
            && (ka.None? ==> kb.None?)
            && (ka.Some? && kb.Some? ==>
                  var order := Order(ka.value, kb.value, l);
                  && (if sort.ascending then order <= 0 else order >= 0)
                  && (order == 0 ==> r[i].index <= r[j].index))
            && (ka.None? && kb.None? ==> r[i].index <= r[j].index)
  {
    var r := Arrange(data, corrections, view, Some(sort), l);
    ArrangeIsTheSortedPermutation(data, corrections, view, sort, l, r);
    assert !Before(data, corrections, sort, l)(r[j], r[i]);
    var ka, kb := KeyOf(r[i], data, corrections, sort.key, l), KeyOf(r[j], data, corrections, sort.key, l);
    CompareLaws(r[i], r[j], r[i], ka, kb, ka, sort.ascending, l);
    if ka.Some? && kb.Some? { OrderLaws(ka.value, kb.value, ka.value, l); }
  }

  // ---- the low view and corrections ----

  /** The count on the button is the size of the view behind it, sorted or not. */
  lemma LowCountIsTheSizeOfTheLowView(data: Data, corrections: Corrections, sort: Option<Sort>, l: Locale)
    ensures LowCount(data, corrections) == |Arrange(data, corrections, Low, sort, l)|
  {
    if sort.Some? {
      var rows, lt := Filtered(data, corrections, Low), Before(data, corrections, sort.value, l);
      SortPermutes(rows, lt);
      assert |multiset(Sorting.Sort(rows, lt))| == |multiset(rows)|;
    }
  }

  /** Correcting or confirming row `i` takes it out of the low view and leaves every
   * other row as it was. */
  lemma CorrectionSettlesOneRow(data: Data, corrections: Corrections, i: nat, picked: string, r: Row)
    ensures IsLow(data, corrections[i := picked])(r) == (IsLow(data, corrections)(r) && r.index != i)
  {
  }

  /** So the low view after it is the low view before, without that row. */
  lemma CorrectionFiltersTheLowView(data: Data, corrections: Corrections, i: nat, picked: string)
    ensures Filtered(data, corrections[i := picked], Low)
            == Filter(Filtered(data, corrections, Low), (r: Row) => r.index != i)
  {
    var low, low', rest := IsLow(data, corrections), IsLow(data, corrections[i := picked]), (r: Row) => r.index != i;
    FilterTwice(data.rows, low, rest);
    forall r | r in data.rows ensures Both(low, rest)(r) == low'(r) {
      CorrectionSettlesOneRow(data, corrections, i, picked, r);
    }
    FilterSame(data.rows, Both(low, rest), low');
  }

  /** A correction lowers the count by one when its row was still low, and otherwise
   * leaves it: it never raises it. */
  lemma CorrectionNeverRaisesTheCount(data: Data, corrections: Corrections, i: nat, picked: string)
    requires Numbered(data)
    ensures var before, after := LowCount(data, corrections), LowCount(data, corrections[i := picked]);
            after == if i < |data.rows| && IsLow(data, corrections)(data.rows[i]) then before - 1 else before
  {
    var low, rest := IsLow(data, corrections), (r: Row) => r.index != i;
    CorrectionFiltersTheLowView(data, corrections, i, picked);
    if i < |data.rows| && low(data.rows[i]) {
      var a, b := data.rows[..i], data.rows[i + 1..];
      assert data.rows == a + [data.rows[i]] + b;
      forall r | r in a + b ensures rest(r) {
        var n :| 0 <= n < |a + b| && (a + b)[n] == r;
        assert (a + b)[n] == data.rows[if n < i then n else n + 1];
      }
      FilterDropsOne(a, data.rows[i], b, low, rest);
    } else {
      var view := Filter(data.rows, low);
      forall r | r in view ensures rest(r) { FilterIn(data.rows, low, r); }
      FilterAll(view, rest);
    }
  }

  /** Filtering out the one element in the middle makes what was left one shorter. */
  lemma FilterDropsOne(a: seq<Row>, x: Row, b: seq<Row>, p: Row -> bool, q: Row -> bool)
    requires p(x) && !q(x) && forall y | y in a + b :: q(y)
    ensures |Filter(Filter(a + [x] + b, p), q)| == |Filter(a + [x] + b, p)| - 1
  {
    FilterTwice(a + [x] + b, p, q);
    FilterParts(a, x, b, p);
    FilterParts(a, x, b, Both(p, q));
    forall y | y in a ensures y in a + b { }
    forall y | y in b ensures y in a + b { }
    FilterSame(a, p, Both(p, q));
    FilterSame(b, p, Both(p, q));
  }

  lemma FilterParts(a: seq<Row>, x: Row, b: seq<Row>, p: Row -> bool)
    ensures Filter(a + [x] + b, p) == Filter(a, p) + (if p(x) then [x] else []) + Filter(b, p)
  {
    FilterAppend(a + [x], b, p);
    FilterAppend(a, [x], p);
    assert [x][1..] == [];
  }

  // ---- CSV ----

  predicate WithPath(data: Data) {
    exists r | r in data.rows :: r.path.Some? && r.path.value != ""
  }

  function Header(data: Data): seq<string> {
    ["item"] + (if WithPath(data) then ["path"] else []) + ["answer", "confidence", "status"]
  }

  function Status(r: Row, s: Shown): string {
    if r.note.Some? && r.note.value != "" then "not sorted: " + r.note.value
    else if s.corrected then "corrected"
    else if s.low then "low confidence"
    else ""
  }

  function Or(o: Option<string>, d: string): string {
    if o.Some? then o.value else d
  }

  /** The cells of one row; `fixed` renders a confidence with two decimals. */
  function Cells(data: Data, corrections: Corrections, fixed: real -> string): Row -> seq<string> {
    (r: Row) =>
      var s := Show(r, data, corrections);
      [r.item] + (if WithPath(data) then [Or(r.path, "")] else [])
        + [Or(s.answer, ""), if s.confidence.Some? then fixed(s.confidence.value) else "", Status(r, s)]
  }

  function Rows(data: Data, corrections: Corrections, fixed: real -> string): seq<seq<string>> {
    Map(data.rows, Cells(data, corrections, fixed))
  }

  function ToCsv(data: Data, corrections: Corrections, fixed: real -> string): string {
    Join([Join(Header(data), ",")] + Map(Rows(data, corrections, fixed), Record), CRLF) + CRLF
  }

  predicate Plain(h: string) {
    forall c | c in h :: 'a' <= c <= 'z'
  }

  lemma PlainIsItsOwnCell(h: string)
    requires Plain(h)
    ensures Cell(h) == h && Guarded(h) == h
  {
    assert h != "" ==> h[0] in h;
    forall c | c in h ensures !Special(c) && !StartsFormula(c) {
    }
  }

  lemma PlainRecord(header: seq<string>)
    requires forall h | h in header :: Plain(h)
    ensures Join(header, ",") == Record(header) && GuardAll(header) == header
  {
    forall h | h in header ensures Cell(h) == h && Guarded(h) == h {
      PlainIsItsOwnCell(h);
    }
    assert Map(header, Cell) == header;
  }

  lemma MapCons<T, U>(x: T, s: seq<T>, f: T -> U)
    ensures Map([x] + s, f) == [f(x)] + Map(s, f)
  {
  }

  lemma TableIsPrinted(header: seq<string>, rows: seq<seq<string>>)
    requires forall h | h in header :: Plain(h)
    ensures Join([Join(header, ",")] + Map(rows, Record), CRLF) + CRLF == Printed([header] + rows)
    ensures Map([header] + rows, GuardAll) == [header] + Map(rows, GuardAll)
  {
    PlainRecord(header);
    MapCons(header, rows, Record);
    MapCons(header, rows, GuardAll);
  }

  /** A plain header and rows with cells in them read back, the rows guarded. */
  lemma TableReadsBack(header: seq<string>, rows: seq<seq<string>>)
    requires header != [] && (forall h | h in header :: Plain(h)) && forall r | r in rows :: r != []
    ensures ReadFile(Join([Join(header, ",")] + Map(rows, Record), CRLF) + CRLF) == Some([header] + Map(rows, GuardAll))
  {
    TableIsPrinted(header, rows);
    FileReadsBack([header] + rows);
  }

  /** Guarding keeps the width, and what is guarded starts no formula. */
  lemma TableIsRectangularAndSafe(header: seq<string>, rows: seq<seq<string>>)
    requires (forall h | h in header :: Plain(h)) && forall r | r in rows :: |r| == |header|
    ensures forall record, f | record in [header] + Map(rows, GuardAll) && f in record ::
              |record| == |header| && (f != "" ==> !StartsFormula(f[0]))
    ensures forall record | record in [header] + Map(rows, GuardAll) :: |record| == |header|
  {
    var all := [header] + rows;
    PlainRecord(header);
    assert [header] + Map(rows, GuardAll) == Map(all, GuardAll);
    forall record | record in Map(all, GuardAll)
      ensures |record| == |header| && forall f | f in record :: f != "" ==> !StartsFormula(f[0])
    {
      var k :| 0 <= k < |all| && Map(all, GuardAll)[k] == record;
      assert all[k] in all;
      GuardedRecord(all[k]);
    }
  }

  lemma GuardedRecord(record: seq<string>)
    ensures |GuardAll(record)| == |record|
    ensures forall f | f in GuardAll(record) :: f != "" ==> !StartsFormula(f[0])
  {
    forall f | f in GuardAll(record) ensures f != "" ==> !StartsFormula(f[0]) {
      var k :| 0 <= k < |record| && GuardAll(record)[k] == f;
      GuardedIsNoFormula(record[k]);
    }
  }

  lemma HeaderIsPlain(data: Data)
    ensures Header(data) != [] && forall h | h in Header(data) :: Plain(h)
  {
  }

  lemma RowsHaveTheWidth(data: Data, corrections: Corrections, fixed: real -> string)
    ensures forall r | r in Rows(data, corrections, fixed) :: |r| == |Header(data)|
  {
    var rows := Rows(data, corrections, fixed);
    forall r | r in rows ensures |r| == |Header(data)| {
      var i :| 0 <= i < |rows| && rows[i] == r;
      assert r == Cells(data, corrections, fixed)(data.rows[i]);
    }
  }

  /** Reading the export back gives the header and one record per row, every field
   * the guarded cell character for character. */
  lemma CsvReadsBack(data: Data, corrections: Corrections, fixed: real -> string)
    ensures ReadFile(ToCsv(data, corrections, fixed))
            == Some([Header(data)] + Map(Rows(data, corrections, fixed), GuardAll))
  {
    HeaderIsPlain(data);
    RowsHaveTheWidth(data, corrections, fixed);
    TableReadsBack(Header(data), Rows(data, corrections, fixed));
  }

  /** All the records read back have one width, and no field starts a formula. */
  lemma CsvIsRectangularAndSafe(data: Data, corrections: Corrections, fixed: real -> string)
    ensures ReadFile(ToCsv(data, corrections, fixed)).Some?
    ensures forall record | record in ReadFile(ToCsv(data, corrections, fixed)).value :: |record| == |Header(data)|
    ensures forall record, f | record in ReadFile(ToCsv(data, corrections, fixed)).value && f in record ::
              f != "" ==> !StartsFormula(f[0])
  {
    CsvReadsBack(data, corrections, fixed);
    HeaderIsPlain(data);
    RowsHaveTheWidth(data, corrections, fixed);
    TableIsRectangularAndSafe(Header(data), Rows(data, corrections, fixed));
  }

  // ---- what a row shows, and where it is exported ----

  /** The label of the first choice of that value, else the value itself. */
  lemma {:induction false} LabelReads(choices: seq<Choice>, picked: string)
    ensures var c := Find(choices, (c: Choice) => c.value == picked);
            && (c.None? ==> forall d | d in choices :: d.value != picked)
            && (c.Some? ==> exists n :: 0 <= n < |choices| && choices[n] == c.value && c.value.value == picked
                                        && forall m | 0 <= m < n :: choices[m].value != picked)
  {
    if choices != [] && choices[0].value != picked {
      var p := (c: Choice) => c.value == picked;
      LabelReads(choices[1..], picked);
      if Find(choices[1..], p).Some? {
        var n :| 0 <= n < |choices[1..]| && choices[1..][n] == Find(choices[1..], p).value
                 && forall m | 0 <= m < n :: choices[1..][m].value != picked;
        assert choices[n + 1] == Find(choices, p).value;
        forall m | 0 <= m < n + 1 ensures choices[m].value != picked {
          assert m > 0 ==> choices[m] == choices[1..][m - 1];
        }
      }
    }
  }

  /** A row nobody touched shows the model's answer; one confirmed shows it too and is no
   * longer low; one corrected shows the person's answer, with no confidence. */
  lemma ShownReads(r: Row, data: Data, corrections: Corrections)
    ensures r.index !in corrections ==> Show(r, data, corrections) == Shown(r.answer, r.confidence, r.low, false)
    ensures r.index in corrections && r.value == Some(corrections[r.index]) ==>
              Show(r, data, corrections) == Shown(r.answer, r.confidence, false, false)
    ensures r.index in corrections && r.value != Some(corrections[r.index]) ==>
              var picked := corrections[r.index];
              var c := Find(data.choices, (c: Choice) => c.value == picked);
              Show(r, data, corrections) == Shown(Some(if c.Some? then c.value.words else picked), None, false, true)
  {
  }

  /** The cells of a row in the export, by column. */
  function ExportedCells(paths: bool, r: Row, s: Shown, fixed: real -> string): seq<string> {
    var path, answer := if r.path.Some? then r.path.value else "", if s.answer.Some? then s.answer.value else "";
    var sure := if s.confidence.Some? then fixed(s.confidence.value) else "";
    var status := if r.note.Some? && r.note.value != "" then "not sorted: " + r.note.value
                  else if s.corrected then "corrected" else if s.low then "low confidence" else "";
    if paths then [Guarded(r.item), Guarded(path), Guarded(answer), Guarded(sure), Guarded(status)]
    else [Guarded(r.item), Guarded(answer), Guarded(sure), Guarded(status)]
  }

  /** The export, read back: its columns by name, and in each row's record the item, the
   * path when any row has one, the answer as shown, its confidence, and its status. */
  lemma ExportReads(data: Data, corrections: Corrections, fixed: real -> string, i: nat)
    requires i < |data.rows|
    ensures ReadFile(ToCsv(data, corrections, fixed)).Some?
    ensures var read := ReadFile(ToCsv(data, corrections, fixed)).value;
            var paths := exists x :: x in data.rows && x.path.Some? && x.path.value != "";
            && |read| == |data.rows| + 1
            && read[0] == (if paths then ["item", "path", "answer", "confidence", "status"]
                           else ["item", "answer", "confidence", "status"])
            && read[i + 1] == ExportedCells(paths, data.rows[i], Show(data.rows[i], data, corrections), fixed)
  {
    ExportedRecord(data, corrections, fixed, i);
    HeaderReads(data);
    GuardedCells(data, corrections, fixed, data.rows[i]);
  }

  lemma HeaderReads(data: Data)
    ensures WithPath(data) <==> exists x :: x in data.rows && x.path.Some? && x.path.value != ""
    ensures Header(data) == if WithPath(data) then ["item", "path", "answer", "confidence", "status"]
                            else ["item", "answer", "confidence", "status"]
  {
  }

  lemma ExportedRecord(data: Data, corrections: Corrections, fixed: real -> string, i: nat)
    requires i < |data.rows|
    ensures ReadFile(ToCsv(data, corrections, fixed)).Some?
    ensures var read := ReadFile(ToCsv(data, corrections, fixed)).value;
            && |read| == |data.rows| + 1 && read[0] == Header(data)
            && read[i + 1] == GuardAll(Cells(data, corrections, fixed)(data.rows[i]))
  {
    CsvReadsBack(data, corrections, fixed);
    NthRecord(Header(data), Rows(data, corrections, fixed), i);
  }

  lemma NthRecord(header: seq<string>, rows: seq<seq<string>>, i: nat)
    requires i < |rows|
    ensures var read := [header] + Map(rows, GuardAll); |read| == |rows| + 1 && read[0] == header && read[i + 1] == GuardAll(rows[i])
  {
  }

  lemma GuardedCells(data: Data, corrections: Corrections, fixed: real -> string, r: Row)
    ensures GuardAll(Cells(data, corrections, fixed)(r))
            == ExportedCells(WithPath(data), r, Show(r, data, corrections), fixed)
  {
    var s := Show(r, data, corrections);
    var sure := if s.confidence.Some? then fixed(s.confidence.value) else "";
    assert Cells(data, corrections, fixed)(r)
        == if WithPath(data) then [r.item, Or(r.path, ""), Or(s.answer, ""), sure, Status(r, s)]
           else [r.item, Or(s.answer, ""), sure, Status(r, s)];
  }

  /** The arranged rows, column by column: items and answers by their lower-case text,
   * confidences by number, what has none last, ties by the place in the list. */
  lemma ArrangedByColumn(data: Data, corrections: Corrections, view: View, up: bool, l: Locale, key: SortKey, i: nat, j: nat)
    requires TotalPreorder(l) && Numbered(data)
    requires i < j < |Arrange(data, corrections, view, Some(Sort(key, up)), l)|
    ensures var rows := Arrange(data, corrections, view, Some(Sort(key, up)), l);
            var a, b := rows[i], rows[j];
            var x, y := Show(a, data, corrections), Show(b, data, corrections);
            match key
            case ByItem => InOrder(l.compare(l.lower(a.item), l.lower(b.item)), up, a.index, b.index)
            case ByAnswer =>
              if x.answer.Some? && y.answer.Some? then
                InOrder(l.compare(l.lower(x.answer.value), l.lower(y.answer.value)), up, a.index, b.index)
              else y.answer.None? && (x.answer.None? ==> a.index <= b.index)
            case ByConfidence =>
              if x.confidence.Some? && y.confidence.Some? then
                var m, n := x.confidence.value, y.confidence.value;
                InOrder(if m < n then -1 else if m > n then 1 else 0, up, a.index, b.index)
              else y.confidence.None? && (x.confidence.None? ==> a.index <= b.index)
  {
    ArrangedRows(data, corrections, view, Sort(key, up), l, i, j);
  }

  /** Two neighbours by a comparison: in the direction asked, and by index when it ties. */
  predicate InOrder(order: int, up: bool, m: nat, n: nat) {
    (if up then order <= 0 else order >= 0) && (order == 0 ==> m <= n)
  }
}
