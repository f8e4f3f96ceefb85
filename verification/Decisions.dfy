/** The Activity screen: one list of what happened, newest first, with background
 * decisions folded into one row per purpose and hour. */
module Decisions {
  import opened Seqs
  import opened Sorting
  import opened Text

  datatype Activity = Activity(id: string, createdAt: int)

  datatype Decision = Decision(
    id: string, purpose: string, words: string, background: bool, experiment: Option<string>, at: int)

  datatype Row =
    | ActivityRow(key: string, at: int, activity: Activity)
    | DecisionRow(key: string, at: int, decision: Decision)
    | GroupRow(key: string, at: int, hour: int, purpose: string, words: string, entries: seq<Decision>)

  const HOUR: int := 3_600_000

  /** The start of the hour; `/` rounds down here, as `Math.floor` does. */
  function HourOf(at: int): int {
    at / HOUR * HOUR
  }

  function MaxInt(a: int, b: int): int {
    if a > b then a else b
  }

  /** `Array.prototype.sort` with `b.at - a.at`. */
  function Newer(): (Row, Row) -> bool {
    (a: Row, b: Row) => b.at - a.at < 0
  }

  function OfActivity(): Activity -> Row {
    (a: Activity) => ActivityRow("a:" + a.id, a.createdAt, a)
  }

  function OfDecision(): Decision -> Row {
    (d: Decision) => DecisionRow("d:" + d.id, d.at, d)
  }

  // ---- what the rows are, said without the loop ----

  datatype Slot = Slot(purpose: string, hour: int)

  function SlotOf(d: Decision): Slot {
    Slot(d.purpose, HourOf(d.at))
  }

  function SlotKey(s: Slot): string {
    "g:" + s.purpose + ":" + Decimal(s.hour)
  }

  function Foreground(): Decision -> bool {
    (d: Decision) => !d.background
  }

  function InSlot(s: Slot): Decision -> bool {
    (d: Decision) => d.background && SlotOf(d) == s
  }

  /** The purposes and hours of the background decisions, in order of first appearance. */
  function Slots(ds: seq<Decision>): seq<Slot> {
    if ds == [] then []
    else
      var before, d := Slots(ds[..|ds| - 1]), ds[|ds| - 1];
      if d.background && SlotOf(d) !in before then before + [SlotOf(d)] else before
  }

  function Latest(ds: seq<Decision>): int
    requires ds != []
  {
    if |ds| == 1 then ds[0].at else MaxInt(Latest(ds[..|ds| - 1]), ds[|ds| - 1].at)
  }

  /** The group of a slot: its decisions in input order, the first one's label, the
   * last one's time. */
  function GroupOf(ds: seq<Decision>): Slot -> Row {
    (s: Slot) =>
      var entries := Filter(ds, InSlot(s));
      if entries == [] then GroupRow(SlotKey(s), 0, s.hour, s.purpose, "", [])
      else GroupRow(SlotKey(s), Latest(entries), s.hour, s.purpose, entries[0].words, entries)
  }

  function Unsorted(activity: seq<Activity>, ds: seq<Decision>): seq<Row> {
    Map(activity, OfActivity()) + Map(Filter(ds, Foreground()), OfDecision()) + Map(Slots(ds), GroupOf(ds))
  }

  function Listed(activity: seq<Activity>, ds: seq<Decision>): seq<Row> {
    Sort(Unsorted(activity, ds), Newer())
  }

  // ---- the loop ----

  /** A group's key names one purpose and one hour: a purpose may hold colons, but
   * the hour behind the last one holds none. */
  lemma SlotKeyInjective(a: Slot, b: Slot)
    requires SlotKey(a) == SlotKey(b)
    ensures a == b
  {
    var x, y := Decimal(a.hour), Decimal(b.hour);
    DecimalHasNo(a.hour, ':');
    DecimalHasNo(b.hour, ':');
    assert SlotKey(a) == ("g:" + a.purpose) + [':'] + x;
    assert SlotKey(b) == ("g:" + b.purpose) + [':'] + y;
    LastSeparator("g:" + a.purpose, "g:" + b.purpose, x, y, ':');
    assert ("g:" + a.purpose)[2..] == a.purpose && ("g:" + b.purpose)[2..] == b.purpose;
    DecimalInjective(a.hour, b.hour);
  }

  lemma {:induction false} SlotsSound(ds: seq<Decision>)
    ensures NoDup(Slots(ds))
    ensures forall d | d in ds && d.background :: SlotOf(d) in Slots(ds)
    ensures forall s | s in Slots(ds) :: Filter(ds, InSlot(s)) != []
  {
    if ds != [] {
      var init, d := ds[..|ds| - 1], ds[|ds| - 1];
      SlotsSound(init);
      assert ds == init + [d];
      forall s | s in Slots(ds) ensures Filter(ds, InSlot(s)) != [] {
        FilterAppend(init, [d], InSlot(s));
        assert [d][1..] == [];
      }
    }
  }

  /** One more decision changes the group of its own slot and no other. */
  lemma GroupStep(init: seq<Decision>, d: Decision, s: Slot)
    ensures var before, after := Filter(init, InSlot(s)), Filter(init + [d], InSlot(s));
            if InSlot(s)(d) then after == before + [d] else after == before
  {
    FilterAppend(init, [d], InSlot(s));
    assert [d][1..] == [];
  }

  lemma SlotsStep(init: seq<Decision>, d: Decision)
    ensures Slots(init + [d]) == if d.background && SlotOf(d) !in Slots(init) then Slots(init) + [SlotOf(d)] else Slots(init)
  {
    assert (init + [d])[..|init|] == init;
  }

  /** The `Map` of groups, as its keys in insertion order and its values. */
  ghost predicate Holds(order: seq<string>, groups: map<string, Row>, slots: seq<Slot>, group: Slot -> Row) {
    && |order| == |slots|
    && (forall i | 0 <= i < |order| :: order[i] == SlotKey(slots[i]))
    && (forall i | 0 <= i < |order| :: order[i] in groups && groups[order[i]] == group(slots[i]))
    && forall k | k in groups :: k in order
  }

  lemma KeyIsHeld(order: seq<string>, groups: map<string, Row>, slots: seq<Slot>, group: Slot -> Row, s: Slot)
    requires Holds(order, groups, slots, group)
    ensures SlotKey(s) in groups <==> s in slots
    ensures s in slots ==> groups[SlotKey(s)] == group(s)
  {
    if SlotKey(s) in groups {
      var i :| 0 <= i < |order| && order[i] == SlotKey(s);
      SlotKeyInjective(slots[i], s);
    }
    if s in slots {
      var i :| 0 <= i < |slots| && slots[i] == s;
      assert order[i] == SlotKey(s);
    }
  }

  lemma OtherKeys(order: seq<string>, groups: map<string, Row>, slots: seq<Slot>, group: Slot -> Row, s: Slot)
    requires Holds(order, groups, slots, group)
    ensures forall i | 0 <= i < |slots| && slots[i] != s :: order[i] != SlotKey(s)
  {
    forall i | 0 <= i < |slots| && slots[i] != s ensures order[i] != SlotKey(s) {
      if order[i] == SlotKey(s) { SlotKeyInjective(slots[i], s); }
    }
  }

  /** Setting the group of a slot, known or new, leaves the groups of the others. */
  lemma SetKnownGroup(order: seq<string>, groups: map<string, Row>, slots: seq<Slot>, group: Slot -> Row,
                      s: Slot, group': Slot -> Row)
    requires Holds(order, groups, slots, group) && s in slots
    requires forall x | x in slots && x != s :: group'(x) == group(x)
    ensures Holds(order, groups[SlotKey(s) := group'(s)], slots, group')
  {
    OtherKeys(order, groups, slots, group, s);
    var i :| 0 <= i < |slots| && slots[i] == s;
    assert order[i] == SlotKey(s);
  }

  lemma SetNewGroup(order: seq<string>, groups: map<string, Row>, slots: seq<Slot>, group: Slot -> Row,
                    s: Slot, group': Slot -> Row)
    requires Holds(order, groups, slots, group) && s !in slots
    requires forall x | x in slots :: group'(x) == group(x)
    ensures Holds(order + [SlotKey(s)], groups[SlotKey(s) := group'(s)], slots + [s], group')
  {
    OtherKeys(order, groups, slots, group, s);
    assert (order + [SlotKey(s)])[|order|] == SlotKey(s);
  }

  lemma OtherGroups(ds: seq<Decision>, d: Decision, s: Slot)
    requires !InSlot(s)(d)
    ensures GroupOf(ds + [d])(s) == GroupOf(ds)(s)
  {
    GroupStep(ds, d, s);
  }

  /** What the loop makes of the group of a background decision. */
  lemma OwnGroup(ds: seq<Decision>, d: Decision)
    requires d.background
    ensures var s := SlotOf(d); var g, g' := GroupOf(ds)(s), GroupOf(ds + [d])(s);
            if s in Slots(ds) then g' == g.(entries := g.entries + [d], at := MaxInt(g.at, d.at))
            else g' == GroupRow(SlotKey(s), d.at, s.hour, d.purpose, d.words, [d])
  {
    var s := SlotOf(d);
    var entries := Filter(ds, InSlot(s));
    GroupStep(ds, d, s);
    SlotsSound(ds);
    assert (entries + [d])[..|entries|] == entries;
    if s !in Slots(ds) { FilterNone(ds, InSlot(s)); }
  }

  /** A foreground decision leaves the groups as they are. */
  lemma Ungrouped(order: seq<string>, groups: map<string, Row>, ds: seq<Decision>, d: Decision)
    requires Holds(order, groups, Slots(ds), GroupOf(ds)) && !d.background
    ensures Holds(order, groups, Slots(ds + [d]), GroupOf(ds + [d]))
  {
    SlotsStep(ds, d);
    forall s ensures GroupOf(ds + [d])(s) == GroupOf(ds)(s) {
      OtherGroups(ds, d, s);
    }
  }

  /** A background decision joins the group under its key, or starts it. */
  lemma Grouped(order: seq<string>, groups: map<string, Row>, ds: seq<Decision>, d: Decision)
    requires Holds(order, groups, Slots(ds), GroupOf(ds)) && d.background
    ensures var key := SlotKey(SlotOf(d));
            if key in groups then
              var g := groups[key];
              && g.GroupRow?
              && Holds(order, groups[key := g.(entries := g.entries + [d], at := MaxInt(g.at, d.at))],
                       Slots(ds + [d]), GroupOf(ds + [d]))
            else
              Holds(order + [key], groups[key := GroupRow(key, d.at, HourOf(d.at), d.purpose, d.words, [d])],
                    Slots(ds + [d]), GroupOf(ds + [d]))
  {
    var s := SlotOf(d);
    SlotsStep(ds, d);
    OwnGroup(ds, d);
    KeyIsHeld(order, groups, Slots(ds), GroupOf(ds), s);
    forall x | x in Slots(ds) && x != s ensures GroupOf(ds + [d])(x) == GroupOf(ds)(x) {
      OtherGroups(ds, d, x);
    }
    if s in Slots(ds) {
      SetKnownGroup(order, groups, Slots(ds), GroupOf(ds), s, GroupOf(ds + [d]));
    } else {
      SetNewGroup(order, groups, Slots(ds), GroupOf(ds), s, GroupOf(ds + [d]));
    }
  }

  lemma RowsStep(rows: seq<Row>, activity: seq<Activity>, init: seq<Decision>, d: Decision)
    requires rows == Map(activity, OfActivity()) + Map(Filter(init, Foreground()), OfDecision())
    ensures Map(activity, OfActivity()) + Map(Filter(init + [d], Foreground()), OfDecision())
            == if d.background then rows else rows + [OfDecision()(d)]
  {
    FilterAppend(init, [d], Foreground());
    assert [d][1..] == [];
    var fg := Filter(init, Foreground());
    assert Map(fg + [d], OfDecision()) == Map(fg, OfDecision()) + [OfDecision()(d)];
  }

  method RowsOf(activity: seq<Activity>, decisions: seq<Decision>) returns (rows: seq<Row>)
    ensures rows == Listed(activity, decisions)
  {
    rows := Map(activity, OfActivity());
    var order: seq<string>, groups: map<string, Row> := [], map[];
    for i := 0 to |decisions|
      invariant rows == Map(activity, OfActivity()) + Map(Filter(decisions[..i], Foreground()), OfDecision())
      invariant Holds(order, groups, Slots(decisions[..i]), GroupOf(decisions[..i]))
    {
      var d := decisions[i];
      assert decisions[..i + 1] == decisions[..i] + [d];
      RowsStep(rows, activity, decisions[..i], d);
      if !d.background {
        Ungrouped(order, groups, decisions[..i], d);
        rows := rows + [DecisionRow("d:" + d.id, d.at, d)];
      } else {
        var hour := d.at / HOUR * HOUR;
        var key := "g:" + d.purpose + ":" + Decimal(hour);
        assert key == SlotKey(SlotOf(d));
        Grouped(order, groups, decisions[..i], d);
        if key in groups {
          var g := groups[key];
          groups := groups[key := g.(entries := g.entries + [d], at := MaxInt(g.at, d.at))];
        } else {
          groups := groups[key := GroupRow(key, d.at, hour, d.purpose, d.words, [d])];
          order := order + [key];
        }
      }
    }
    assert decisions[..|decisions|] == decisions;
    var values := seq(|order|, j requires 0 <= j < |order| && order[j] in groups => groups[order[j]]);
    assert values == Map(Slots(decisions), GroupOf(decisions));
    rows := Sort(rows + values, Newer());
  }

  // ---- nothing is lost, nothing is shown twice ----

  function DecisionsIn(r: Row): seq<Decision> {
    match r
    case ActivityRow(_, _, _) => []
    case DecisionRow(_, _, d) => [d]
    case GroupRow(_, _, _, _, _, ds) => ds
  }

  function ActivitiesIn(r: Row): seq<Activity> {
    if r.ActivityRow? then [r.activity] else []
  }

  function Flat<T>(rows: seq<Row>, f: Row -> seq<T>): seq<T> {
    if rows == [] then [] else f(rows[0]) + Flat(rows[1..], f)
  }

  lemma {:induction false} FlatAppend<T>(a: seq<Row>, b: seq<Row>, f: Row -> seq<T>)
    ensures Flat(a + b, f) == Flat(a, f) + Flat(b, f)
  {
    if a == [] {
      assert a + b == b;
    } else {
      assert (a + b)[1..] == a[1..] + b;
      FlatAppend(a[1..], b, f);
    }
  }

  lemma {:induction false} FlatInsert<T>(x: Row, s: seq<Row>, f: Row -> seq<T>)
    ensures multiset(Flat(Insert(x, s, Newer()), f)) == multiset(f(x)) + multiset(Flat(s, f))
  {
    if s == [] || Newer()(x, s[0]) {
      assert ([x] + s)[1..] == s;
    } else {
      FlatInsert(x, s[1..], f);
      assert ([s[0]] + Insert(x, s[1..], Newer()))[1..] == Insert(x, s[1..], Newer());
    }
  }

  lemma FlatSnoc<T>(s: seq<Row>, x: Row, f: Row -> seq<T>)
    ensures Flat(s + [x], f) == Flat(s, f) + f(x)
  {
    FlatAppend(s, [x], f);
    assert [x][1..] == [];
  }

  lemma {:induction false} FlatSort<T>(s: seq<Row>, f: Row -> seq<T>)
    ensures multiset(Flat(Sort(s, Newer()), f)) == multiset(Flat(s, f))
  {
    if s != [] {
      var init, last := s[..|s| - 1], s[|s| - 1];
      FlatSort(init, f);
      FlatInsert(last, Sort(init, Newer()), f);
      FlatSnoc(init, last, f);
      assert init + [last] == s;
    }
  }

  function InSome(ss: seq<Slot>): Decision -> bool {
    (d: Decision) => d.background && SlotOf(d) in ss
  }

  lemma {:induction false} OneMoreSlot(ds: seq<Decision>, ss: seq<Slot>, s: Slot)
    requires s !in ss
    ensures multiset(Filter(ds, InSome([s] + ss))) == multiset(Filter(ds, InSlot(s))) + multiset(Filter(ds, InSome(ss)))
  {
    if ds != [] { OneMoreSlot(ds[1..], ss, s); }
  }

  lemma FirstGroup(ds: seq<Decision>, s: Slot, rest: seq<Slot>)
    ensures Flat(Map([s] + rest, GroupOf(ds)), DecisionsIn)
            == Filter(ds, InSlot(s)) + Flat(Map(rest, GroupOf(ds)), DecisionsIn)
  {
    assert Map([s] + rest, GroupOf(ds))[1..] == Map(rest, GroupOf(ds));
  }

  lemma {:induction false} GroupsHold(ds: seq<Decision>, ss: seq<Slot>)
    requires NoDup(ss)
    ensures multiset(Flat(Map(ss, GroupOf(ds)), DecisionsIn)) == multiset(Filter(ds, InSome(ss)))
  {
    if ss == [] {
      FilterNone(ds, InSome(ss));
    } else {
      var s, rest := ss[0], ss[1..];
      GroupsHold(ds, rest);
      OneMoreSlot(ds, rest, s);
      FirstGroup(ds, s, rest);
      assert [s] + rest == ss;
    }
  }

  lemma {:induction false} ForegroundRows(ds: seq<Decision>)
    ensures Flat(Map(ds, OfDecision()), DecisionsIn) == ds && Flat(Map(ds, OfDecision()), ActivitiesIn) == []
  {
    if ds != [] {
      ForegroundRows(ds[1..]);
      assert Map(ds, OfDecision())[1..] == Map(ds[1..], OfDecision());
    }
  }

  lemma {:induction false} ActivityRows(activity: seq<Activity>)
    ensures Flat(Map(activity, OfActivity()), ActivitiesIn) == activity
    ensures Flat(Map(activity, OfActivity()), DecisionsIn) == []
  {
    if activity != [] {
      ActivityRows(activity[1..]);
      assert Map(activity, OfActivity())[1..] == Map(activity[1..], OfActivity());
    }
  }

  lemma {:induction false} GroupsHoldNoActivity(ds: seq<Decision>, ss: seq<Slot>)
    ensures Flat(Map(ss, GroupOf(ds)), ActivitiesIn) == []
  {
    if ss != [] {
      GroupsHoldNoActivity(ds, ss[1..]);
      assert Map(ss, GroupOf(ds))[1..] == Map(ss[1..], GroupOf(ds));
    }
  }

  lemma FlatUnsorted<T>(activity: seq<Activity>, ds: seq<Decision>, f: Row -> seq<T>)
    ensures multiset(Flat(Listed(activity, ds), f))
            == multiset(Flat(Map(activity, OfActivity()), f))
               + multiset(Flat(Map(Filter(ds, Foreground()), OfDecision()), f))
               + multiset(Flat(Map(Slots(ds), GroupOf(ds)), f))
  {
    var a, b, c := Map(activity, OfActivity()), Map(Filter(ds, Foreground()), OfDecision()), Map(Slots(ds), GroupOf(ds));
    FlatSort(a + b + c, f);
    FlatAppend(a + b, c, f);
    FlatAppend(a, b, f);
  }

  lemma SlotsCoverTheBackground(ds: seq<Decision>)
    ensures multiset(Filter(ds, Foreground())) + multiset(Filter(ds, InSome(Slots(ds)))) == multiset(ds)
  {
    SlotsSound(ds);
    FilterSplits(ds, Foreground());
    FilterSame(ds, Not(Foreground()), InSome(Slots(ds)));
  }

  lemma DecisionsAreConserved(activity: seq<Activity>, ds: seq<Decision>)
    ensures multiset(Flat(Listed(activity, ds), DecisionsIn)) == multiset(ds)
  {
    FlatUnsorted(activity, ds, DecisionsIn);
    ActivityRows(activity);
    ForegroundRows(Filter(ds, Foreground()));
    assert NoDup(Slots(ds)) by { SlotsSound(ds); }
    GroupsHold(ds, Slots(ds));
    SlotsCoverTheBackground(ds);
  }

  lemma ActivitiesAreConserved(activity: seq<Activity>, ds: seq<Decision>)
    ensures multiset(Flat(Listed(activity, ds), ActivitiesIn)) == multiset(activity)
  {
    FlatUnsorted(activity, ds, ActivitiesIn);
    ActivityRows(activity);
    ForegroundRows(Filter(ds, Foreground()));
    GroupsHoldNoActivity(ds, Slots(ds));
  }

  /** Each decision and each activity entry of the input is in the list once, however
   * often it was given. */
  lemma RowsConserveTheInput(activity: seq<Activity>, ds: seq<Decision>)
    ensures multiset(Flat(Listed(activity, ds), DecisionsIn)) == multiset(ds)
    ensures multiset(Flat(Listed(activity, ds), ActivitiesIn)) == multiset(activity)
  {
    DecisionsAreConserved(activity, ds);
    ActivitiesAreConserved(activity, ds);
  }

  // ---- one group per purpose and hour ----

  function IsGroup(s: Slot): Row -> bool {
    (r: Row) => r.GroupRow? && r.purpose == s.purpose && r.hour == s.hour
  }

  lemma {:induction false} FilterCounts<T>(s: seq<T>, p: T -> bool, x: T)
    ensures multiset(Filter(s, p))[x] == if p(x) then multiset(s)[x] else 0
  {
    if s != [] {
      FilterCounts(s[1..], p, x);
      assert s == [s[0]] + s[1..];
    }
  }

  lemma {:induction false} GroupsNamed(ds: seq<Decision>, ss: seq<Slot>, s: Slot)
    requires NoDup(ss)
    ensures Filter(Map(ss, GroupOf(ds)), IsGroup(s)) == if s in ss then [GroupOf(ds)(s)] else []
  {
    if ss != [] {
      GroupsNamed(ds, ss[1..], s);
      assert Map(ss, GroupOf(ds))[1..] == Map(ss[1..], GroupOf(ds));
      assert ss == [ss[0]] + ss[1..];
    }
  }

  lemma UnsortedGroup(activity: seq<Activity>, ds: seq<Decision>, s: Slot)
    ensures Filter(Unsorted(activity, ds), IsGroup(s)) == if s in Slots(ds) then [GroupOf(ds)(s)] else []
  {
    var a, b, c := Map(activity, OfActivity()), Map(Filter(ds, Foreground()), OfDecision()), Map(Slots(ds), GroupOf(ds));
    FilterAppend(a + b, c, IsGroup(s));
    FilterAppend(a, b, IsGroup(s));
    FilterNone(a, IsGroup(s));
    FilterNone(b, IsGroup(s));
    assert NoDup(Slots(ds)) by { SlotsSound(ds); }
    GroupsNamed(ds, Slots(ds), s);
  }

  lemma SlotsAreTheOnesWithDecisions(ds: seq<Decision>, s: Slot)
    ensures s in Slots(ds) <==> Filter(ds, InSlot(s)) != []
  {
    SlotsSound(ds);
    if Filter(ds, InSlot(s)) != [] {
      var d := Filter(ds, InSlot(s))[0];
      FilterIn(ds, InSlot(s), d);
      assert SlotOf(d) in Slots(ds);
    }
  }

  lemma FilterOfPermutation(a: seq<Row>, b: seq<Row>, p: Row -> bool)
    requires multiset(a) == multiset(b)
    ensures multiset(Filter(a, p)) == multiset(Filter(b, p))
  {
    forall r ensures multiset(Filter(a, p))[r] == multiset(Filter(b, p))[r] {
      FilterCounts(a, p, r);
      FilterCounts(b, p, r);
    }
  }

  /** The background decisions of one purpose and hour are in one row, in input order;
   * without any there is no row. */
  lemma OneGroupPerPurposeAndHour(activity: seq<Activity>, ds: seq<Decision>, s: Slot)
    ensures Filter(Listed(activity, ds), IsGroup(s)) == if Filter(ds, InSlot(s)) != [] then [GroupOf(ds)(s)] else []
  {
    UnsortedGroup(activity, ds, s);
    SlotsAreTheOnesWithDecisions(ds, s);
    SortPermutes(Unsorted(activity, ds), Newer());
    FilterOfPermutation(Listed(activity, ds), Unsorted(activity, ds), IsGroup(s));
    SameFewRows(Filter(Listed(activity, ds), IsGroup(s)), Filter(Unsorted(activity, ds), IsGroup(s)));
  }

  /** Lists of at most one row with the same contents are the same list. */
  lemma SameFewRows(a: seq<Row>, b: seq<Row>)
    requires multiset(a) == multiset(b) && |b| <= 1
    ensures a == b
  {
    assert |multiset(a)| == |a| && |multiset(b)| == |b|;
    if |b| == 1 { assert a[0] in multiset(a); assert a[0] in b; }
  }

  lemma {:induction false} LatestIsTheMaximum(ds: seq<Decision>)
    requires ds != []
    ensures forall d | d in ds :: d.at <= Latest(ds)
    ensures exists d | d in ds :: d.at == Latest(ds)
  {
    if |ds| == 1 {
      assert ds[0] in ds;
    } else {
      var init, last := ds[..|ds| - 1], ds[|ds| - 1];
      LatestIsTheMaximum(init);
      assert ds == init + [last];
      var d :| d in init && d.at == Latest(init);
      assert d in ds && last in ds;
    }
  }

  /** Whether a decision belongs in the group of a purpose and an hour. */
  predicate FallsIn(d: Decision, purpose: string, hour: int) {
    d.background && d.purpose == purpose && hour <= d.at < hour + 3_600_000
  }

  /** What a group row shows: exactly the background decisions of its purpose that fall
   * into its hour, in input order, the words of the first and the time of the last. */
  lemma GroupRowsAreTrue(activity: seq<Activity>, ds: seq<Decision>, g: Row) returns (at: seq<nat>)
    requires g in Listed(activity, ds) && g.GroupRow?
    ensures g.entries != [] && g.words == g.entries[0].words && g.hour % 3_600_000 == 0
    ensures |at| == |g.entries| && forall k | 0 <= k < |at| :: at[k] < |ds| && ds[at[k]] == g.entries[k]
    ensures forall k, l | 0 <= k < l < |at| :: at[k] < at[l]
    ensures forall i: nat | i < |ds| :: i in at <==> FallsIn(ds[i], g.purpose, g.hour)
    ensures (forall d | d in g.entries :: d.at <= g.at) && exists d | d in g.entries :: d.at == g.at
  {
    var s := Slot(g.purpose, g.hour);
    GroupRowIsAGroup(activity, ds, g);
    LatestIsTheMaximum(g.entries);
    FilterIn(ds, InSlot(s), g.entries[0]);
    InSlotReads(s, g.entries[0], g.entries[0]);
    at := SlotPositions(ds, s);
  }

  lemma SlotPositions(ds: seq<Decision>, s: Slot) returns (at: seq<nat>)
    requires Filter(ds, InSlot(s)) != []
    ensures |at| == |Filter(ds, InSlot(s))| && forall k | 0 <= k < |at| :: at[k] < |ds| && ds[at[k]] == Filter(ds, InSlot(s))[k]
    ensures forall k, l | 0 <= k < l < |at| :: at[k] < at[l]
    ensures forall i: nat | i < |ds| :: i in at <==> FallsIn(ds[i], s.purpose, s.hour)
  {
    var first := Filter(ds, InSlot(s))[0];
    at := FilterPositions(ds, InSlot(s));
    FilterIn(ds, InSlot(s), first);
    forall i: nat | i < |ds| ensures InSlot(s)(ds[i]) <==> FallsIn(ds[i], s.purpose, s.hour) {
      InSlotReads(s, ds[i], first);
    }
  }

  lemma InSlotReads(s: Slot, d: Decision, first: Decision)
    requires InSlot(s)(first)
    ensures InSlot(s)(d) <==> FallsIn(d, s.purpose, s.hour)
    ensures s.hour % 3_600_000 == 0
  {
    HourReads(d.at, first.at);
  }

  lemma GroupRowIsAGroup(activity: seq<Activity>, ds: seq<Decision>, g: Row)
    requires g in Listed(activity, ds) && g.GroupRow?
    ensures var s := Slot(g.purpose, g.hour); Filter(ds, InSlot(s)) != [] && g == GroupOf(ds)(s)
  {
    var s := Slot(g.purpose, g.hour);
    OneGroupPerPurposeAndHour(activity, ds, s);
    FilterIn(Listed(activity, ds), IsGroup(s), g);
  }

  /** Two moments are of one hour exactly when one lies in the hour of the other. */
  lemma HourReads(t: int, u: int)
    ensures HourOf(u) % 3_600_000 == 0 && HourOf(u) <= u < HourOf(u) + 3_600_000
    ensures HourOf(t) == HourOf(u) <==> HourOf(u) <= t < HourOf(u) + 3_600_000
  {
  }

  /** What the rows of one entry show: the entry, its own time, and its own key. */
  lemma EntryRowsAreTrue(activity: seq<Activity>, ds: seq<Decision>, r: Row)
    requires r in Listed(activity, ds)
    ensures r.ActivityRow? ==> r.activity in activity && r.at == r.activity.createdAt && r.key == "a:" + r.activity.id
    ensures r.DecisionRow? ==>
              r.decision in ds && !r.decision.background && r.at == r.decision.at && r.key == "d:" + r.decision.id
  {
    SortPermutes(Unsorted(activity, ds), Newer());
    assert r in multiset(Listed(activity, ds));
    RowKeys(activity, ds, r);
    if r.DecisionRow? {
      var fg := Filter(ds, Foreground());
      var i :| 0 <= i < |fg| && OfDecision()(fg[i]) == r;
      FilterIn(ds, Foreground(), fg[i]);
    }
  }

  /** The moments of what a row holds. */
  predicate HoldsMoment(r: Row, t: int) {
    match r
    case ActivityRow(_, _, a) => t == a.createdAt
    case DecisionRow(_, _, d) => t == d.at
    case GroupRow(_, _, _, _, _, ds) => exists d :: d in ds && d.at == t
  }

  lemma RowTimeIsItsLatest(activity: seq<Activity>, ds: seq<Decision>, r: Row)
    requires r in Listed(activity, ds)
    ensures HoldsMoment(r, r.at) && forall t | HoldsMoment(r, t) :: t <= r.at
  {
    EntryRowsAreTrue(activity, ds, r);
    if r.GroupRow? { var _ := GroupRowsAreTrue(activity, ds, r); }
  }

  /** Of any two rows, the earlier holds something at least as new as everything in the
   * later one. */
  lemma NewestComesFirst(activity: seq<Activity>, ds: seq<Decision>, i: nat, j: nat)
    requires i < j < |Listed(activity, ds)|
    ensures var rows := Listed(activity, ds);
            exists u :: HoldsMoment(rows[i], u) && forall t | HoldsMoment(rows[j], t) :: t <= u
  {
    var rows := Listed(activity, ds);
    NewestFirst(activity, ds, 0);
    RowTimeIsItsLatest(activity, ds, rows[i]);
    RowTimeIsItsLatest(activity, ds, rows[j]);
    assert HoldsMoment(rows[i], rows[i].at);
  }

  // ---- newest first ----

  lemma NewerIsAnOrder()
    ensures StrictWeak(Newer())
  {
  }

  function AtTime(t: int): Row -> bool {
    (r: Row) => r.at == t
  }

  /** Newest first; rows of one moment keep the order activity, decisions, groups. */
  lemma NewestFirst(activity: seq<Activity>, ds: seq<Decision>, t: int)
    ensures var rows := Listed(activity, ds);
            && (forall i, j | 0 <= i < j < |rows| :: rows[i].at >= rows[j].at)
            && multiset(rows) == multiset(Unsorted(activity, ds))
            && Filter(rows, AtTime(t)) == Filter(Unsorted(activity, ds), AtTime(t))
  {
    NewerIsAnOrder();
    SortSorts(Unsorted(activity, ds), Newer());
    SortPermutes(Unsorted(activity, ds), Newer());
    SortIsStable(Unsorted(activity, ds), Newer(), AtTime(t));
    var rows := Listed(activity, ds);
    forall i, j | 0 <= i < j < |rows| ensures rows[i].at >= rows[j].at {
      assert !Newer()(rows[j], rows[i]);
    }
  }

  // ---- keys ----

  function KeyOf(): Row -> string {
    (r: Row) => r.key
  }

  lemma RowKeys(activity: seq<Activity>, ds: seq<Decision>, r: Row)
    requires r in Unsorted(activity, ds)
    ensures r.ActivityRow? ==> r.activity in activity && r == OfActivity()(r.activity)
    ensures r.DecisionRow? ==> r.decision in ds && r == OfDecision()(r.decision)
    ensures r.GroupRow? ==> r.key == SlotKey(Slot(r.purpose, r.hour)) && r == GroupOf(ds)(Slot(r.purpose, r.hour))
  {
    if r.DecisionRow? { FilterIn(ds, Foreground(), r.decision); }
  }

  /** Entries with distinct ids make rows with distinct keys. */
  lemma KeysTellRowsApart(activity: seq<Activity>, ds: seq<Decision>, x: Row, y: Row)
    requires x in Listed(activity, ds) && y in Listed(activity, ds) && x.key == y.key
    requires forall a, b | a in activity && b in activity && a.id == b.id :: a == b
    requires forall a, b | a in ds && b in ds && a.id == b.id :: a == b
    ensures x == y
  {
    SortPermutes(Unsorted(activity, ds), Newer());
    assert x in multiset(Listed(activity, ds)) && y in multiset(Listed(activity, ds));
    RowKeys(activity, ds, x);
    RowKeys(activity, ds, y);
    assert x.key[0] == y.key[0];
    if x.GroupRow? {
      SlotKeyInjective(Slot(x.purpose, x.hour), Slot(y.purpose, y.hour));
    } else if x.DecisionRow? {
      assert x.key[2..] == x.decision.id && y.key[2..] == y.decision.id;
    } else {
      assert x.key[2..] == x.activity.id && y.key[2..] == y.activity.id;
    }
  }

  // ---- the filters ----

  datatype RowFilter = All | Activities | Decided | OfExperiment(name: string)

  function IsActivity(): Row -> bool {
    (r: Row) => r.ActivityRow?
  }

  function OwnedBy(name: string): Row -> bool {
    (r: Row) => !r.ActivityRow? && exists d | d in DecisionsIn(r) :: d.experiment == Some(name)
  }

  function FilterRows(rows: seq<Row>, filter: RowFilter): seq<Row> {
    match filter
    case All => rows
    case Activities => Filter(rows, IsActivity())
    case Decided => Filter(rows, Not(IsActivity()))
    case OfExperiment(name) => Filter(rows, OwnedBy(name))
  }

  /** The experiments that own a decision, each once: a `Set` in insertion order. */
  function ExperimentsIn(ds: seq<Decision>): seq<string> {
    if ds == [] then []
    else
      var before, e := ExperimentsIn(ds[..|ds| - 1]), ds[|ds| - 1].experiment;
      if e.Some? && e.value != "" && e.value !in before then before + [e.value] else before
  }

  lemma {:induction false} FlatEmpty<T>(rows: seq<Row>, f: Row -> seq<T>)
    requires forall r | r in rows :: f(r) == []
    ensures Flat(rows, f) == []
  {
    if rows != [] { FlatEmpty(rows[1..], f); }
  }

  /** Dropping rows that hold nothing drops nothing. */
  lemma {:induction false} FlatFilter<T>(rows: seq<Row>, p: Row -> bool, f: Row -> seq<T>)
    requires forall r | r in rows && !p(r) :: f(r) == []
    ensures Flat(Filter(rows, p), f) == Flat(rows, f)
  {
    if rows != [] {
      FlatFilter(rows[1..], p, f);
      var kept := Filter(rows[1..], p);
      assert ([rows[0]] + kept)[1..] == kept && [] + kept == kept;
      assert rows[0] in rows;
    }
  }

  lemma SplitHolds(rows: seq<Row>)
    ensures var acts, rest := Filter(rows, IsActivity()), Filter(rows, Not(IsActivity()));
            && Flat(acts, DecisionsIn) == [] && Flat(acts, ActivitiesIn) == Flat(rows, ActivitiesIn)
            && Flat(rest, ActivitiesIn) == [] && Flat(rest, DecisionsIn) == Flat(rows, DecisionsIn)
  {
    var acts, rest := Filter(rows, IsActivity()), Filter(rows, Not(IsActivity()));
    FlatFilter(rows, IsActivity(), ActivitiesIn);
    FlatFilter(rows, Not(IsActivity()), DecisionsIn);
    forall r | r in acts ensures DecisionsIn(r) == [] { FilterIn(rows, IsActivity(), r); }
    forall r | r in rest ensures ActivitiesIn(r) == [] { FilterIn(rows, Not(IsActivity()), r); }
    FlatEmpty(acts, DecisionsIn);
    FlatEmpty(rest, ActivitiesIn);
  }

  /** The activity view and the decisions view split the list between them. */
  lemma ViewsPartitionTheList(activity: seq<Activity>, ds: seq<Decision>)
    ensures var rows := Listed(activity, ds); var acts, rest := FilterRows(rows, Activities), FilterRows(rows, Decided);
            && multiset(acts) + multiset(rest) == multiset(rows)
            && Flat(acts, DecisionsIn) == [] && multiset(Flat(acts, ActivitiesIn)) == multiset(activity)
            && Flat(rest, ActivitiesIn) == [] && multiset(Flat(rest, DecisionsIn)) == multiset(ds)
  {
    var rows := Listed(activity, ds);
    FilterSplits(rows, IsActivity());
    SplitHolds(rows);
    RowsConserveTheInput(activity, ds);
  }

  lemma {:induction false} ExperimentsInSound(ds: seq<Decision>, e: string)
    ensures NoDup(ExperimentsIn(ds))
    ensures e in ExperimentsIn(ds) <==> e != "" && exists d | d in ds :: d.experiment == Some(e)
  {
    if ds != [] {
      var init, d := ds[..|ds| - 1], ds[|ds| - 1];
      ExperimentsInSound(init, e);
      assert ds == init + [d];
      assert d in ds;
    }
  }

  lemma {:induction false} FlatIn(rows: seq<Row>, d: Decision) returns (r: Option<Row>)
    ensures d in Flat(rows, DecisionsIn) <==> r.Some?
    ensures r.Some? ==> r.value in rows && d in DecisionsIn(r.value)
    ensures forall x | x in rows && d in DecisionsIn(x) :: d in Flat(rows, DecisionsIn)
  {
    if rows == [] {
      r := None;
    } else {
      r := FlatIn(rows[1..], d);
      if d in DecisionsIn(rows[0]) { r := Some(rows[0]); }
    }
  }

  /** A decision is in the list exactly when some row of it holds it. */
  lemma ListedHolds(activity: seq<Activity>, ds: seq<Decision>, d: Decision) returns (r: Option<Row>)
    ensures d in ds <==> r.Some?
    ensures r.Some? ==> r.value in Listed(activity, ds) && d in DecisionsIn(r.value)
    ensures forall x | x in Listed(activity, ds) && d in DecisionsIn(x) :: d in ds
  {
    RowsConserveTheInput(activity, ds);
    r := FlatIn(Listed(activity, ds), d);
    assert d in multiset(ds) <==> d in multiset(Flat(Listed(activity, ds), DecisionsIn));
  }

  lemma RowsHoldTheInput(activity: seq<Activity>, ds: seq<Decision>, r: Row, d: Decision)
    requires r in Listed(activity, ds) && d in DecisionsIn(r)
    ensures d in ds
  {
    var _ := ListedHolds(activity, ds, d);
  }

  lemma OwnersAreListed(activity: seq<Activity>, ds: seq<Decision>, e: string, d: Decision)
    requires d in ds && d.experiment == Some(e)
    ensures FilterRows(Listed(activity, ds), OfExperiment(e)) != []
  {
    var r := ListedHolds(activity, ds, d);
    FilterIn(Listed(activity, ds), OwnedBy(e), r.value);
  }

  lemma ListedOwners(activity: seq<Activity>, ds: seq<Decision>, e: string)
    requires FilterRows(Listed(activity, ds), OfExperiment(e)) != []
    ensures exists d | d in ds :: d.experiment == Some(e)
  {
    var r := Filter(Listed(activity, ds), OwnedBy(e))[0];
    FilterIn(Listed(activity, ds), OwnedBy(e), r);
    var d :| d in DecisionsIn(r) && d.experiment == Some(e);
    RowsHoldTheInput(activity, ds, r, d);
  }

  /** An experiment has a chip exactly when its filter has something to show. */
  lemma ChipsAreTheFiltersThatShowSomething(activity: seq<Activity>, ds: seq<Decision>, e: string)
    requires e != ""
    ensures e in ExperimentsIn(ds) <==> FilterRows(Listed(activity, ds), OfExperiment(e)) != []
  {
    ExperimentsInSound(ds, e);
    if e in ExperimentsIn(ds) {
      var d :| d in ds && d.experiment == Some(e);
      OwnersAreListed(activity, ds, e, d);
    }
    if FilterRows(Listed(activity, ds), OfExperiment(e)) != [] {
      ListedOwners(activity, ds, e);
    }
  }

  /** What each filter shows: the rows of its kind, in the order of the list. */
  lemma FiltersShow(rows: seq<Row>, e: string, r: Row)
    ensures FilterRows(rows, All) == rows
    ensures r in FilterRows(rows, Activities) <==> r in rows && r.ActivityRow?
    ensures r in FilterRows(rows, Decided) <==> r in rows && !r.ActivityRow?
    ensures r in FilterRows(rows, OfExperiment(e)) <==>
              r in rows && match r
                           case ActivityRow(_, _, _) => false
                           case DecisionRow(_, _, d) => d.experiment == Some(e)
                           case GroupRow(_, _, _, _, _, ds) => exists d :: d in ds && d.experiment == Some(e)
  {
    FilterIn(rows, IsActivity(), r);
    FilterIn(rows, Not(IsActivity()), r);
    FilterIn(rows, OwnedBy(e), r);
  }

  /** Chips and slots come in order of first appearance: what more decisions add comes
   * after what there was. */
  lemma {:induction false} FirstSeenComesFirst(a: seq<Decision>, b: seq<Decision>)
    ensures ExperimentsIn(a) <= ExperimentsIn(a + b)
    ensures Slots(a) <= Slots(a + b)
  {
    if b == [] {
      assert a + b == a;
    } else {
      var init := b[..|b| - 1];
      FirstSeenComesFirst(a, init);
      assert (a + b)[..|a + b| - 1] == a + init && (a + b)[|a + b| - 1] == b[|b| - 1];
    }
  }
}
