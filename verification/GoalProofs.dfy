/** What every run of the goal loop keeps: one verdict per goal, a bounded number
 * of continuations, counters that agree with the history, and sends that land in
 * the goal's own chat. */
module GoalProofs {
  import opened Seqs
  import opened GoalLoop

  // ---- the history of one goal, read off the log ----

  function Extended(h: seq<(nat, Evidence)>, e: Entry, c: ConvId): seq<(nat, Evidence)> {
    if e.Started? && e.conv == c then []
    else if e.Weighed? && e.conv == c then h + [(e.round, e.evidence)]
    else h
  }

  /** The rounds weighed for the goal last started in `c`. */
  function Rounds(log: seq<Entry>, c: ConvId): seq<(nat, Evidence)> {
    if log == [] then [] else Extended(Rounds(log[..|log| - 1], c), log[|log| - 1], c)
  }

  predicate GotNowhere(r: (nat, Evidence)) {
    r.0 >= 2 && r.1.ok == 0
  }

  function QuietRun(h: seq<(nat, Evidence)>): nat {
    if h == [] || !GotNowhere(h[|h| - 1]) then 0 else 1 + QuietRun(h[..|h| - 1])
  }

  function Hits(h: seq<(nat, Evidence)>, key: string): nat {
    if h == [] then 0 else Hits(h[..|h| - 1], key) + if key in Keys(h[|h| - 1].1.errors) then 1 else 0
  }

  function Continuations(log: seq<Entry>, c: ConvId): nat {
    if log == [] then 0
    else
      var last := log[|log| - 1];
      Continuations(log[..|log| - 1], c) + if last.Continued? && last.conv == c then 1 else 0
  }

  /** `QuietRun` is the length of the longest suffix of continuation rounds in
   * which no call worked. */
  lemma {:induction false} QuietRunIsTheLongestSuffix(h: seq<(nat, Evidence)>)
    ensures QuietRun(h) <= |h|
    ensures forall i | |h| - QuietRun(h) <= i < |h| :: GotNowhere(h[i])
    ensures QuietRun(h) < |h| ==> !GotNowhere(h[|h| - QuietRun(h) - 1])
  {
    if h != [] && GotNowhere(h[|h| - 1]) {
      QuietRunIsTheLongestSuffix(h[..|h| - 1]);
    }
  }

  // ---- the invariant ----

  ghost predicate HistoryOk(g: Goal, h: seq<(nat, Evidence)>) {
    && g.quiet == QuietRun(h)
    && (forall k :: WallOf(g.walls, k) == Hits(h, k))
    && (forall i | 0 <= i < |h| :: 1 <= h[i].0 <= g.round)
    && (forall i | 0 <= i < |h| :: g.status == Active ==> h[i].0 < g.round)
    && (forall i, j | 0 <= i < j < |h| :: h[i].0 < h[j].0)
  }

  ghost predicate BoundsOk(g: Goal) {
    && 1 <= g.round <= g.maxRounds == MAX_ROUNDS
    && (g.status == Active ==> g.quiet < MAX_QUIET_ROUNDS && forall k :: WallOf(g.walls, k) < MAX_SAME_WALL)
  }

  ghost predicate Going(goals: map<ConvId, Goal>, c: ConvId) {
    c in goals && goals[c].status == Active
  }

  /** A check in flight belongs to the goal it was asked about: what `afterRun`
   * captured is still the goal, but for the mark that a check is running. At most
   * one check per chat is in flight; `but` is a chat whose check has just landed. */
  ghost predicate FlightsOk(goals: map<ConvId, Goal>, flights: map<nat, Flight>, next: nat, but: Option<ConvId>) {
    && (forall i | i in flights :: i < next && Some(flights[i].conv) != but)
    && (forall i, j | i in flights && j in flights :: flights[i].conv == flights[j].conv ==> i == j)
    && (forall i | i in flights ::
          Going(goals, flights[i].conv) ==> goals[flights[i].conv] == flights[i].goal.(checking := true))
    && (forall c | c in goals && Some(c) != but && goals[c].checking :: InFlight(flights, c))
  }

  ghost predicate InFlight(flights: map<nat, Flight>, c: ConvId) {
    exists i :: i in flights && flights[i].conv == c
  }

  ghost predicate GoalOk(g: Goal, h: seq<(nat, Evidence)>) {
    BoundsOk(g) && HistoryOk(g, h)
  }

  ghost predicate GoalsOk(goals: map<ConvId, Goal>, log: seq<Entry>, but: Option<ConvId>) {
    forall c | c in goals && Some(c) != but :: GoalOk(goals[c], Rounds(log, c))
  }

  ghost predicate Inv(s: State) {
    FlightsOk(s.goals, s.flights, s.nextFlight, None) && GoalsOk(s.goals, s.log, None)
  }

  /** No goal is started in a chat whose check is in flight. */
  ghost predicate KeptApart(s: State, e: Event) {
    e.StartGoal? ==> forall i | i in s.flights :: s.flights[i].conv != e.conv
  }

  ghost predicate Admissible(s: State, es: seq<Event>)
    decreases |es|
  {
    es == [] || (Enabled(s, es[0]) && KeptApart(s, es[0]) && Admissible(Step(s, es[0]), es[1..]))
  }

  function Run(s: State, es: seq<Event>): State
    requires Admissible(s, es)
    decreases |es|
  {
    if es == [] then s else Run(Step(s, es[0]), es[1..])
  }

  function Initial(open: Option<ConvId>): State {
    State(map[], open, false, ChatModel, map[], 0, [])
  }

  // ---- logs ----

  lemma LogAppend(log: seq<Entry>, e: Entry, c: ConvId)
    ensures Rounds(log + [e], c) == Extended(Rounds(log, c), e, c)
  {
    assert (log + [e])[..|log|] == log;
  }

  lemma CountAppend(log: seq<Entry>, e: Entry, c: ConvId)
    ensures Continuations(log + [e], c) == Continuations(log, c) + if e.Continued? && e.conv == c then 1 else 0
  {
    assert (log + [e])[..|log|] == log;
  }

  /** Entries other than a start or a weighed round leave every history alone. */
  lemma LogKeeps(goals: map<ConvId, Goal>, log: seq<Entry>, e: Entry)
    requires GoalsOk(goals, log, None) && !e.Started? && !e.Weighed?
    ensures GoalsOk(goals, log + [e], None)
  {
    forall c | c in goals ensures GoalOk(goals[c], Rounds(log + [e], c)) {
      LogAppend(log, e, c);
    }
  }

  lemma PutKeepsGoals(goals: map<ConvId, Goal>, log: seq<Entry>, c: ConvId, g: Goal)
    requires GoalsOk(goals, log, Some(c)) && GoalOk(g, Rounds(log, c))
    ensures GoalsOk(goals[c := g], log, None)
  {
  }

  /** A goal that is settled after its check landed. */
  lemma PutKeepsFlights(goals: map<ConvId, Goal>, flights: map<nat, Flight>, next: nat, c: ConvId, g: Goal)
    requires FlightsOk(goals, flights, next, Some(c)) && !g.checking
    ensures FlightsOk(goals[c := g], flights, next, None)
  {
  }

  lemma SendWithKeeps(s: State, model: Picked, spoken: bool)
    requires Inv(s)
    ensures Inv(SendWith(s, model, spoken))
  {
  }

  lemma SendKeeps(s: State)
    requires Inv(s)
    ensures Inv(Send(s))
  {
    SendWithKeeps(s, s.picked, false);
  }

  // ---- each step keeps the invariant ----

  /** A goal stopped by the user or by a broken run. */
  lemma StopGoalKeeps(s: State, c: ConvId, checking: bool)
    requires Inv(s) && IsActive(s, c) && (checking ==> s.goals[c].checking)
    ensures Inv(Put(s, c, s.goals[c].(status := Stopped, checking := checking)))
  {
    PutKeepsGoals(s.goals, s.log, c, s.goals[c].(status := Stopped, checking := checking));
  }

  lemma LaunchKeeps(s: State, c: ConvId, f: Flight)
    requires Inv(s) && IsActive(s, c) && !s.goals[c].checking && f.conv == c && f.goal == s.goals[c]
    ensures FlightsOk(s.goals[c := f.goal.(checking := true)], s.flights[s.nextFlight := f], s.nextFlight + 1, None)
  {
    UncheckedIsNotInFlight(s, c);
    LaunchedIsFresh(s.goals, s.flights, s.nextFlight, f);
    LaunchedIsInFlight(s, f);
  }

  /** A check of a chat that has none in flight: numbers, chats and captured goals. */
  lemma LaunchedIsFresh(goals: map<ConvId, Goal>, flights: map<nat, Flight>, next: nat, f: Flight)
    requires FlightsOk(goals, flights, next, None) && forall i | i in flights :: flights[i].conv != f.conv
    ensures var goals', flights' := goals[f.conv := f.goal.(checking := true)], flights[next := f];
            && (forall i | i in flights' :: i < next + 1)
            && (forall i, j | i in flights' && j in flights' :: flights'[i].conv == flights'[j].conv ==> i == j)
            && (forall i | i in flights' ::
                  Going(goals', flights'[i].conv) ==> goals'[flights'[i].conv] == flights'[i].goal.(checking := true))
  {
  }

  lemma LaunchedIsInFlight(s: State, f: Flight)
    requires Inv(s)
    ensures var goals', flights' := s.goals[f.conv := f.goal.(checking := true)], s.flights[s.nextFlight := f];
            forall d | d in goals' && goals'[d].checking :: InFlight(flights', d)
  {
    var goals', flights' := s.goals[f.conv := f.goal.(checking := true)], s.flights[s.nextFlight := f];
    assert flights'[s.nextFlight].conv == f.conv;
    forall d | d in goals' && goals'[d].checking ensures InFlight(flights', d) {
      if d != f.conv { MoreInFlight(s, s.nextFlight, f, d); }
    }
  }

  lemma UncheckedIsNotInFlight(s: State, c: ConvId)
    requires Inv(s) && IsActive(s, c) && !s.goals[c].checking
    ensures forall i | i in s.flights :: s.flights[i].conv != c
  {
    forall i | i in s.flights ensures s.flights[i].conv != c {
      assert Going(s.goals, s.flights[i].conv) ==> s.goals[s.flights[i].conv].checking;
    }
  }

  lemma MoreInFlight(s: State, next: nat, f: Flight, d: ConvId)
    requires Inv(s) && next !in s.flights && d in s.goals && s.goals[d].checking
    ensures InFlight(s.flights[next := f], d)
  {
    assert InFlight(s.flights, d);
    var i :| i in s.flights && s.flights[i].conv == d;
    assert s.flights[next := f][i] == s.flights[i];
  }

  lemma AfterRunKeeps(s: State, c: ConvId, end: RunEnd)
    requires Inv(s)
    ensures Inv(AfterRun(s, c, end))
  {
    if IsActive(s, c) && !s.goals[c].checking {
      var g := s.goals[c];
      if Broken(end) || s.open != Some(c) {
        StopGoalKeeps(s, c, false);
        assert g.(status := Stopped, checking := false) == g.(status := Stopped);
        LogKeeps(s.goals[c := g.(status := Stopped)], s.log, Noted(c, LeftChat));
      } else if !end.awaitingApproval {
        LaunchKeeps(s, c, Flight(c, g, end.evidence));
        PutKeepsGoals(s.goals, s.log, c, g.(checking := true));
      }
    }
  }

  /** Once its reply is taken out of flight, no other check is about the chat. */
  lemma LandedIsAlone(s: State, i: nat)
    requires Inv(s) && i in s.flights
    ensures FlightsOk(s.goals, s.flights - {i}, s.nextFlight, Some(s.flights[i].conv))
    ensures IsActive(s, s.flights[i].conv) ==> s.goals[s.flights[i].conv] == s.flights[i].goal.(checking := true)
  {
    var flights, c := s.flights - {i}, s.flights[i].conv;
    forall d | d in s.goals && d != c && s.goals[d].checking ensures InFlight(flights, d) {
      assert InFlight(s.flights, d);
      var j :| j in s.flights && s.flights[j].conv == d;
      assert j in flights;
    }
    assert IsActive(s, c) ==> Going(s.goals, c);
  }

  lemma RaisedCounts(walls: map<string, nat>, errors: seq<Fault>, k: string)
    ensures WallOf(Raised(walls, errors), k) == WallOf(walls, k) + if k in Keys(errors) then 1 else 0
  {
  }

  /** With no wall found, every wall the round touched is still below the limit. */
  lemma {:induction false} NoFirstWall(errors: seq<Fault>, walls: map<string, nat>)
    requires FirstWall(errors, walls).None?
    ensures forall k | k in Keys(errors) :: WallOf(walls, k) < MAX_SAME_WALL
  {
    if errors != [] {
      NoFirstWall(errors[1..], walls);
      forall k | k in Keys(errors) ensures WallOf(walls, k) < MAX_SAME_WALL {
        assert k == errors[0].key || k in Keys(errors[1..]);
      }
    }
  }

  /** Weighing extends the history of the goal by exactly this round. */
  lemma WeighExtends(g: Goal, h: seq<(nat, Evidence)>, e: Evidence)
    requires BoundsOk(g) && HistoryOk(g, h) && g.status == Active
    ensures var h' := h + [(g.round, e)];
            && QuietAfter(g, e) == QuietRun(h')
            && (forall k :: WallOf(Raised(g.walls, e.errors), k) == Hits(h', k))
            && (StallReason(g, e).None? ==>
                  && QuietAfter(g, e) < MAX_QUIET_ROUNDS
                  && forall k :: WallOf(Raised(g.walls, e.errors), k) < MAX_SAME_WALL)
  {
    var h' := h + [(g.round, e)];
    assert h'[..|h|] == h;
    assert h != [] ==> g.round >= 2 by {
      assert h != [] ==> h[0].0 >= 1;
    }
    forall k ensures WallOf(Raised(g.walls, e.errors), k) == Hits(h', k) {
      RaisedCounts(g.walls, e.errors, k);
    }
    if StallReason(g, e).None? {
      NoFirstWall(e.errors, Raised(g.walls, e.errors));
      forall k ensures WallOf(Raised(g.walls, e.errors), k) < MAX_SAME_WALL {
        RaisedCounts(g.walls, e.errors, k);
      }
    }
  }

  /** What the goal of a landed check may become, given its history. */
  ghost predicate Settled(g: Goal, h: seq<(nat, Evidence)>) {
    && 1 <= g.round <= g.maxRounds == MAX_ROUNDS
    && HistoryOk(g.(status := Stopped), h)
  }

  lemma SettleKeeps(s: State, c: ConvId, g: Goal)
    requires FlightsOk(s.goals, s.flights, s.nextFlight, Some(c)) && GoalsOk(s.goals, s.log, Some(c))
    requires Settled(g, Rounds(s.log, c)) && g.status != Active && !g.checking
    ensures Inv(Put(s, c, g))
  {
    PutKeepsFlights(s.goals, s.flights, s.nextFlight, c, g);
    PutKeepsGoals(s.goals, s.log, c, g);
  }

  lemma NoteKeeps(s: State, e: Entry)
    requires Inv(s) && !e.Started? && !e.Weighed?
    ensures Inv(Log(s, e))
  {
    LogKeeps(s.goals, s.log, e);
  }

  lemma NextRoundKeeps(s: State, c: ConvId, g: Goal, next: Goal)
    requires FlightsOk(s.goals, s.flights, s.nextFlight, Some(c)) && GoalsOk(s.goals, s.log, Some(c))
    requires Settled(g, Rounds(s.log, c)) && BoundsOk(g) && g.status == Active && g.round < g.maxRounds
    requires next == g.(checking := false, lastCheck := next.lastCheck, round := g.round + 1)
    ensures Inv(Put(s, c, next))
  {
    PutKeepsFlights(s.goals, s.flights, s.nextFlight, c, next);
    PutKeepsGoals(s.goals, s.log, c, next);
  }

  lemma TwoNotesKeep(s: State, a: Entry, b: Entry)
    requires Inv(s) && !a.Started? && !a.Weighed? && !b.Started? && !b.Weighed?
    ensures Inv(Log(Log(s, a), b))
  {
    NoteKeeps(s, a);
    NoteKeeps(Log(s, a), b);
  }

  /** A goal as it stands when its check has landed and its round is weighed. */
  ghost predicate Landing(s: State, f: Flight) {
    var c := f.conv;
    && FlightsOk(s.goals, s.flights, s.nextFlight, Some(c)) && GoalsOk(s.goals, s.log, Some(c))
    && IsActive(s, c) && Settled(s.goals[c], Rounds(s.log, c))
    && s.goals[c].round == f.goal.round && s.goals[c].maxRounds == f.goal.maxRounds
  }

  lemma EndKeeps(s: State, f: Flight, g: Goal, note: Entry, report: Entry)
    requires Landing(s, f) && g.status != Active && !g.checking && note.Noted? && report.Reported?
    requires g == s.goals[f.conv].(checking := false, lastCheck := g.lastCheck, status := g.status, stalled := g.stalled)
    ensures Inv(Log(Log(Put(s, f.conv, g), note), report))
  {
    SettleKeeps(s, f.conv, g);
    TwoNotesKeep(Put(s, f.conv, g), note, report);
  }

  lemma ContinueKeeps(s: State, f: Flight, g: Goal, note: Entry, sent: Entry)
    requires Landing(s, f) && BoundsOk(s.goals[f.conv]) && f.goal.round < f.goal.maxRounds
    requires g == s.goals[f.conv].(checking := false, lastCheck := g.lastCheck, round := f.goal.round + 1)
    requires note.Noted? && sent.Continued?
    ensures Inv(Send(Log(Log(Put(s, f.conv, g), note), sent)))
  {
    NextRoundKeeps(s, f.conv, s.goals[f.conv], g);
    TwoNotesKeep(Put(s, f.conv, g), note, sent);
    SendKeeps(Log(Log(Put(s, f.conv, g), note), sent));
  }

  function Decided(s: State, f: Flight, check: Check, stalled: Option<string>): Goal
    requires f.conv in s.goals
  {
    var g := s.goals[f.conv].(checking := false, lastCheck := Some(check));
    if stalled.Some? then g.(status := Stalled, stalled := stalled)
    else if f.goal.round >= f.goal.maxRounds then g.(status := Exhausted)
    else g.(round := f.goal.round + 1)
  }

  lemma GoOnDecides(s: State, f: Flight, check: Check, stalled: Option<string>) returns (a: Entry, b: Entry)
    requires f.conv in s.goals
    ensures a.Noted? && (if stalled.Some? || f.goal.round >= f.goal.maxRounds then b.Reported? else b.Continued?)
    ensures var t := Log(Log(Put(s, f.conv, Decided(s, f, check, stalled)), a), b);
            GoOn(s, f, check, stalled) == if b.Continued? then Send(t) else t
    ensures b.Continued? ==> b.conv == f.conv
  {
    var c := f.conv;
    if stalled.Some? {
      a, b := Noted(c, Stuck(stalled.value)), Reported(c, Stalled);
    } else if f.goal.round >= f.goal.maxRounds {
      a, b := Noted(c, OutOfRounds(f.goal.maxRounds, check.next)), Reported(c, Exhausted);
    } else {
      a := Noted(c, Continuing(f.goal.round + 1, f.goal.maxRounds));
      b := Continued(c, f.goal.round + 1, s.open, Takes(s));
    }
  }

  /** The end of `Resume`: the goal of the chat is decided, nothing else is touched. */
  lemma GoOnKeeps(s: State, f: Flight, check: Check, stalled: Option<string>)
    requires Landing(s, f) && (stalled.None? ==> BoundsOk(s.goals[f.conv]))
    ensures Inv(GoOn(s, f, check, stalled))
  {
    var a, b := GoOnDecides(s, f, check, stalled);
    if b.Continued? {
      ContinueKeeps(s, f, Decided(s, f, check, stalled), a, b);
    } else {
      EndKeeps(s, f, Decided(s, f, check, stalled), a, b);
    }
  }

  lemma WeighKeeps(s: State, f: Flight)
    requires var c := f.conv;
             && FlightsOk(s.goals, s.flights, s.nextFlight, Some(c)) && GoalsOk(s.goals, s.log, None)
             && IsActive(s, c) && f.evidence.Some? && s.goals[c] == f.goal.(checking := true)
    ensures var s', c := Weigh(s, f), f.conv;
            && FlightsOk(s'.goals, s'.flights, s'.nextFlight, Some(c)) && GoalsOk(s'.goals, s'.log, Some(c))
            && Settled(s'.goals[c], Rounds(s'.log, c))
            && (StallReason(f.goal, f.evidence.value).None? ==> BoundsOk(s'.goals[c]))
  {
    var c, e := f.conv, f.evidence.value;
    var h, g := Rounds(s.log, c), Weigh(s, f).goals[c];
    assert GoalOk(s.goals[c], h);
    WeighedIsSettled(f.goal, h, e);
    assert g == f.goal.(checking := true, quiet := QuietAfter(f.goal, e), walls := Raised(f.goal.walls, e.errors));
    assert Rounds(Weigh(s, f).log, c) == h + [(f.goal.round, e)] by {
      LogAppend(s.log, Weighed(c, f.goal.round, e), c);
    }
    WeighKeepsOthers(s, f);
    OtherGoalKeepsFlights(s.goals, s.flights, s.nextFlight, c, g);
  }

  lemma OtherGoalKeepsFlights(goals: map<ConvId, Goal>, flights: map<nat, Flight>, next: nat, c: ConvId, g: Goal)
    requires FlightsOk(goals, flights, next, Some(c))
    ensures FlightsOk(goals[c := g], flights, next, Some(c))
  {
  }

  lemma WeighKeepsOthers(s: State, f: Flight)
    requires GoalsOk(s.goals, s.log, None) && f.conv in s.goals && f.evidence.Some?
    ensures GoalsOk(Weigh(s, f).goals, Weigh(s, f).log, Some(f.conv))
  {
    var s' := Weigh(s, f);
    forall d | d in s'.goals && d != f.conv ensures GoalOk(s'.goals[d], Rounds(s'.log, d)) {
      LogAppend(s.log, Weighed(f.conv, f.goal.round, f.evidence.value), d);
      assert GoalOk(s.goals[d], Rounds(s.log, d));
    }
  }

  /** The weighed goal, before it is decided. */
  lemma WeighedIsSettled(g: Goal, h: seq<(nat, Evidence)>, e: Evidence)
    requires GoalOk(g.(checking := true), h) && g.status == Active
    ensures var g' := g.(checking := true, quiet := QuietAfter(g, e), walls := Raised(g.walls, e.errors));
            Settled(g', h + [(g.round, e)]) && (StallReason(g, e).None? ==> BoundsOk(g'))
  {
    WeighExtends(g, h, e);
  }

  lemma ResumeKeeps(s: State, i: nat, check: Check)
    requires Inv(s) && i in s.flights
    ensures Inv(Resume(Landed(s, i), s.flights[i], check))
  {
    var f, t := s.flights[i], Landed(s, i);
    var c := f.conv;
    LandedIsAlone(s, i);
    assert c in s.goals ==> GoalOk(s.goals[c], Rounds(s.log, c));
    if !IsActive(t, c) {
      if c in t.goals { SettleKeeps(t, c, t.goals[c].(checking := false)); }
    } else {
      var g := t.goals[c].(checking := false);
      if check.met {
        SettleKeeps(t, c, g.(status := Met, lastCheck := Some(check)));
      } else if t.open != Some(c) {
        SettleKeeps(t, c, g.(status := Stopped, lastCheck := Some(check)));
        NoteKeeps(Put(t, c, g.(status := Stopped, lastCheck := Some(check))), Noted(c, LeftChat));
      } else if f.evidence.Some? {
        WeighKeeps(t, f);
        GoOnKeeps(Weigh(t, f), f, check, StallReason(f.goal, f.evidence.value));
      } else {
        GoOnKeeps(t, f, check, None);
      }
    }
  }

  lemma GiveUpKeeps(s: State, i: nat)
    requires Inv(s) && i in s.flights
    ensures Inv(GiveUp(Landed(s, i), s.flights[i].conv))
  {
    var c, t := s.flights[i].conv, Landed(s, i);
    LandedIsAlone(s, i);
    var t' := if c in t.goals then Put(t, c, t.goals[c].(checking := false, status := Stopped)) else t;
    if c in t.goals {
      assert GoalOk(s.goals[c], Rounds(s.log, c));
      SettleKeeps(t, c, t'.goals[c]);
    }
    NoteKeeps(t', Noted(c, CouldNotCheck));
  }

  lemma StartKeeps(s: State, c: ConvId, text: string, until: string)
    requires Inv(s) && KeptApart(s, StartGoal(c, text, until))
    ensures Inv(Step(s, StartGoal(c, text, until)))
  {
    var s' := Log(Put(s, c, NewGoal(text, until)), Started(c));
    forall d | d in s'.goals ensures GoalOk(s'.goals[d], Rounds(s'.log, d)) {
      LogAppend(s.log, Started(c), d);
    }
    SendKeeps(s');
  }

  /** Stopping clears the mark of a check in flight; the check itself goes on. */
  lemma StopKeeps(s: State, c: ConvId)
    requires Inv(s)
    ensures Inv(Stop(s, c))
  {
    if IsActive(s, c) { StopGoalKeeps(s, c, false); }
  }

  lemma StepKeeps(s: State, e: Event)
    requires Inv(s) && Enabled(s, e) && KeptApart(s, e)
    ensures Inv(Step(s, e))
  {
    match e
    case RunEnded(c, end) => AfterRunKeeps(s, c, end);
    case CheckReplied(i, check) => ResumeKeeps(s, i, check);
    case CheckFailed(i) => GiveUpKeeps(s, i);
    case StartGoal(c, text, until) => StartKeeps(s, c, text, until);
    case StopGoal(c, running) =>
      StopKeeps(s, c);
      if s.open.Some? { StopKeeps(Stop(s, c), s.open.value); }
    case StopGenerating => if s.open.Some? { StopKeeps(s, s.open.value); }
    case UserSends(model, spoken) => SendWithKeeps(s, model, spoken);
    case OpenChat(_) =>
    case PicksModel(_) =>
    case OtherTurnStarts =>
    case TurnOver =>
  }

  // ---- main results ----

  /** Every interleaving keeps the invariant: at most one check per chat, captured
   * goals that are never stale, counters equal to the history, and an active goal
   * that is below both limits and within its rounds. */
  lemma {:induction false} EveryRunKeepsTheInvariant(s: State, es: seq<Event>)
    requires Inv(s) && Admissible(s, es)
    ensures Inv(Run(s, es))
    decreases |es|
  {
    if es != [] {
      StepKeeps(s, es[0]);
      EveryRunKeepsTheInvariant(Step(s, es[0]), es[1..]);
    }
  }

  lemma ReachableGoals(open: Option<ConvId>, es: seq<Event>, c: ConvId)
    requires Admissible(Initial(open), es)
    requires c in Run(Initial(open), es).goals
    ensures var s := Run(Initial(open), es);
            var g, h := s.goals[c], Rounds(s.log, c);
            && 1 <= g.round <= g.maxRounds
            && g.quiet == QuietRun(h)
            && (forall k :: WallOf(g.walls, k) == Hits(h, k))
            && (g.status == Active ==> g.quiet < MAX_QUIET_ROUNDS && forall k :: WallOf(g.walls, k) < MAX_SAME_WALL)
            && (g.checking ==> exists i :: i in s.flights && s.flights[i].conv == c)
  {
    EveryRunKeepsTheInvariant(Initial(open), es);
  }

  /** Only the reply of a check continues a goal. */
  lemma OtherStepsSendNothing(s: State, e: Event)
    requires Enabled(s, e) && !e.CheckReplied?
    ensures var log := Step(s, e).log;
            log == s.log || (|log| == |s.log| + 1 && log == s.log + [log[|s.log|]] && !log[|s.log|].Continued?)
  {
  }

  /** Other than starting it, they do not change an active goal and keep it or end it. */
  lemma OtherStepsEndOrKeep(s: State, e: Event, c: ConvId)
    requires Enabled(s, e) && !e.CheckReplied? && !(e.StartGoal? && e.conv == c) && IsActive(Step(s, e), c)
    ensures IsActive(s, c) && RoundsLeft(Step(s, e), c) == RoundsLeft(s, c)
  {
  }

  /** A continuation is handed over only for an active goal, raises its round by
   * exactly one within the limit, and goes into the goal's own chat. It reaches
   * that chat unless a turn is already running there. */
  lemma ContinuationsLandInTheirOwnChat(s: State, e: Event, k: nat)
    requires Inv(s) && Enabled(s, e) && KeptApart(s, e)
    requires |s.log| <= k < |Step(s, e).log| && Step(s, e).log[k].Continued?
    ensures var sent, s' := Step(s, e).log[k], Step(s, e);
            && IsActive(s, sent.conv) && IsActive(s', sent.conv)
            && s'.goals[sent.conv].round == sent.round == s.goals[sent.conv].round + 1 <= s.goals[sent.conv].maxRounds
            && sent.target == s.open == Some(sent.conv)
            && sent.taken == (!s.busy && s.picked == ChatModel)
  {
    if e.CheckReplied? {
      LandedIsAlone(s, e.flight);
      ReplyContinues(Landed(s, e.flight), s.flights[e.flight], e.check, k);
    } else {
      OtherStepsSendNothing(s, e);
    }
  }

  lemma GoOnContinues(s: State, f: Flight, check: Check, stalled: Option<string>, k: nat)
    requires IsActive(s, f.conv)
    requires |s.log| <= k < |GoOn(s, f, check, stalled).log| && GoOn(s, f, check, stalled).log[k].Continued?
    ensures var s', c := GoOn(s, f, check, stalled), f.conv;
            && IsActive(s', c) && s'.goals[c].round == f.goal.round + 1 <= f.goal.maxRounds
            && s'.log[k] == Continued(c, f.goal.round + 1, s.open, Takes(s))
  {
    GoOnSends(s, f, check, stalled);
  }

  /** Only an unmet reply for an active goal of the open chat goes on. */
  lemma ReplyGoesOn(s: State, f: Flight, check: Check, k: nat)
    requires |s.log| <= k < |Resume(s, f, check).log| && Resume(s, f, check).log[k].Continued?
    ensures IsActive(s, f.conv) && !check.met && s.open == Some(f.conv)
  {
  }

  lemma ReplyContinues(s: State, f: Flight, check: Check, k: nat)
    requires IsActive(s, f.conv) ==> s.goals[f.conv] == f.goal.(checking := true)
    requires |s.log| <= k < |Resume(s, f, check).log| && Resume(s, f, check).log[k].Continued?
    ensures var s', c := Resume(s, f, check), f.conv;
            && IsActive(s, c) && IsActive(s', c) && s.open == Some(c)
            && s'.goals[c].round == s.goals[c].round + 1 <= s.goals[c].maxRounds
            && s'.log[k] == Continued(c, s.goals[c].round + 1, s.open, Takes(s))
  {
    ReplyGoesOn(s, f, check, k);
    if f.evidence.None? {
      GoOnContinues(s, f, check, None, k);
    } else {
      var w, stalled := Weigh(s, f), StallReason(f.goal, f.evidence.value);
      assert w.log == s.log + [Weighed(f.conv, f.goal.round, f.evidence.value)];
      GoOnKeepsLog(w, f, check, stalled, |s.log|);
      GoOnContinues(w, f, check, stalled, k);
    }
  }

  lemma GoOnKeepsLog(s: State, f: Flight, check: Check, stalled: Option<string>, k: nat)
    requires IsActive(s, f.conv) && k < |s.log|
    ensures |s.log| <= |GoOn(s, f, check, stalled).log| && GoOn(s, f, check, stalled).log[k] == s.log[k]
  {
  }

  /** `GoOn` ends the goal without a send, or raises the round and sends once. */
  lemma GoOnSends(s: State, f: Flight, check: Check, stalled: Option<string>)
    requires IsActive(s, f.conv)
    ensures var c, s' := f.conv, GoOn(s, f, check, stalled);
            || (&& !IsActive(s', c) && |s'.log| == |s.log| + 2
                && s'.log[|s.log|].Noted? && s'.log[|s.log| + 1] == Reported(c, s'.goals[c].status)
                && s'.log == s.log + [s'.log[|s.log|]] + [s'.log[|s.log| + 1]])
            || (&& IsActive(s', c) && f.goal.round < f.goal.maxRounds && s'.goals[c].round == f.goal.round + 1
                && s'.goals[c].maxRounds == s.goals[c].maxRounds
                && s'.log == s.log + [Noted(c, Continuing(f.goal.round + 1, f.goal.maxRounds))]
                   + [Continued(c, f.goal.round + 1, s.open, Takes(s))])
    ensures forall d | d != f.conv && IsActive(GoOn(s, f, check, stalled), d) ::
              IsActive(s, d) && GoOn(s, f, check, stalled).goals[d] == s.goals[d]
  {
  }

  function RoundsLeft(s: State, c: ConvId): int {
    if IsActive(s, c) then s.goals[c].maxRounds - s.goals[c].round else 0
  }

  /** From `s` to `t`, what was sent for `c` and the rounds left did not grow. */
  ghost predicate Spends(s: State, t: State, c: ConvId) {
    && Continuations(t.log, c) + RoundsLeft(t, c) <= Continuations(s.log, c) + RoundsLeft(s, c)
    && (IsActive(t, c) ==> IsActive(s, c))
  }

  lemma CountTwo(log: seq<Entry>, a: Entry, b: Entry, c: ConvId)
    requires !a.Continued?
    ensures Continuations(log + [a] + [b], c) == Continuations(log, c) + if b.Continued? && b.conv == c then 1 else 0
  {
    CountAppend(log, a, c);
    CountAppend(log + [a], b, c);
  }

  predicate Sends(f: Flight, stalled: Option<string>) {
    stalled.None? && f.goal.round < f.goal.maxRounds
  }

  lemma GoOnCounts(s: State, f: Flight, check: Check, stalled: Option<string>, c: ConvId)
    requires IsActive(s, f.conv)
    ensures Continuations(GoOn(s, f, check, stalled).log, c)
            == Continuations(s.log, c) + if Sends(f, stalled) && f.conv == c then 1 else 0
  {
    var a, b := GoOnDecides(s, f, check, stalled);
    CountTwo(s.log, a, b, c);
  }

  lemma GoOnRounds(s: State, f: Flight, check: Check, stalled: Option<string>, c: ConvId)
    requires IsActive(s, f.conv) && RoundsLeft(s, f.conv) >= 0
    requires s.goals[f.conv].round == f.goal.round && s.goals[f.conv].maxRounds == f.goal.maxRounds
    ensures var t := GoOn(s, f, check, stalled);
            && (IsActive(t, c) ==> IsActive(s, c))
            && RoundsLeft(t, c) <= RoundsLeft(s, c) - if Sends(f, stalled) && f.conv == c then 1 else 0
  {
    var _, _ := GoOnDecides(s, f, check, stalled);
  }

  lemma GoOnSpends(s: State, f: Flight, check: Check, stalled: Option<string>, c: ConvId)
    requires IsActive(s, f.conv) && RoundsLeft(s, f.conv) >= 0
    requires s.goals[f.conv].round == f.goal.round && s.goals[f.conv].maxRounds == f.goal.maxRounds
    ensures Spends(s, GoOn(s, f, check, stalled), c)
  {
    GoOnCounts(s, f, check, stalled, c);
    GoOnRounds(s, f, check, stalled, c);
  }

  lemma ResumeSpends(s: State, f: Flight, check: Check, c: ConvId)
    requires forall d | IsActive(s, d) :: RoundsLeft(s, d) >= 0
    requires IsActive(s, f.conv) ==> s.goals[f.conv] == f.goal.(checking := true)
    ensures Spends(s, Resume(s, f, check), c)
  {
    var d := f.conv;
    if IsActive(s, d) && !check.met {
      if s.open != Some(d) {
        CountAppend(s.log, Noted(d, LeftChat), c);
      } else if f.evidence.Some? {
        CountAppend(s.log, Weighed(d, f.goal.round, f.evidence.value), c);
        GoOnSpends(Weigh(s, f), f, check, StallReason(f.goal, f.evidence.value), c);
      } else {
        GoOnSpends(s, f, check, None, c);
      }
    }
  }

  /** One step spends from the rounds left at least what it sends, unless it starts
   * the goal anew; only a start makes a goal active. */
  lemma StepSpends(s: State, e: Event, c: ConvId)
    requires Inv(s) && Enabled(s, e) && !(e.StartGoal? && e.conv == c)
    ensures Spends(s, Step(s, e), c)
  {
    if e.CheckReplied? {
      assert forall d | IsActive(s, d) :: GoalOk(s.goals[d], Rounds(s.log, d));
      LandedIsAlone(s, e.flight);
      ResumeSpends(Landed(s, e.flight), s.flights[e.flight], e.check, c);
    } else {
      OtherStepsSendNothing(s, e);
      var log := Step(s, e).log;
      if log != s.log { CountAppend(s.log, log[|s.log|], c); }
      assert IsActive(s, c) ==> GoalOk(s.goals[c], Rounds(s.log, c));
      if IsActive(Step(s, e), c) { OtherStepsEndOrKeep(s, e, c); }
    }
  }

  ghost predicate NoStartOf(es: seq<Event>, c: ConvId) {
    forall e | e in es :: !(e.StartGoal? && e.conv == c)
  }

  /** Over any run that does not start the goal again, the continuations sent and
   * the rounds left together never exceed the rounds left at the beginning; and a
   * goal that is over neither comes back nor sends. */
  lemma {:induction false} ContinuationsAreBounded(s: State, es: seq<Event>, c: ConvId)
    requires Inv(s) && Admissible(s, es) && NoStartOf(es, c)
    ensures Continuations(Run(s, es).log, c) + RoundsLeft(Run(s, es), c)
            <= Continuations(s.log, c) + RoundsLeft(s, c)
    ensures 0 <= RoundsLeft(Run(s, es), c)
    ensures !IsActive(s, c) ==> !IsActive(Run(s, es), c) && Continuations(Run(s, es).log, c) <= Continuations(s.log, c)
    decreases |es|
  {
    if es == [] {
      assert IsActive(s, c) ==> GoalOk(s.goals[c], Rounds(s.log, c));
    } else {
      assert es[0] in es && forall e | e in es[1..] :: e in es;
      StepKeeps(s, es[0]);
      StepSpends(s, es[0], c);
      ContinuationsAreBounded(Step(s, es[0]), es[1..], c);
    }
  }

  /** A goal just started causes at most `maxRounds - 1` continuations. */
  lemma AGoalSendsAtMostFourContinuations(s: State, c: ConvId, text: string, until: string, es: seq<Event>)
    requires var e := StartGoal(c, text, until);
             Inv(s) && KeptApart(s, e) && Admissible(Step(s, e), es) && NoStartOf(es, c)
    ensures var s' := Step(s, StartGoal(c, text, until));
            Continuations(Run(s', es).log, c) <= Continuations(s.log, c) + MAX_ROUNDS - 1
  {
    var e := StartGoal(c, text, until);
    StepKeeps(s, e);
    StartAllows(s, c, text, until);
    ContinuationsAreBounded(Step(s, e), es, c);
  }

  /** A start sends no continuation and gives the goal all its rounds but the first. */
  lemma StartAllows(s: State, c: ConvId, text: string, until: string)
    ensures var s' := Step(s, StartGoal(c, text, until));
            Continuations(s'.log, c) == Continuations(s.log, c) && RoundsLeft(s', c) == MAX_ROUNDS - 1
  {
    var t := Log(Put(s, c, NewGoal(text, until)), Started(c));
    CountAppend(s.log, Started(c), c);
    StartStands(t, c);
  }

  /** Sending leaves the log and the active goals as they are. */
  lemma StartStands(s: State, c: ConvId)
    requires IsActive(s, c)
    ensures Send(s).log == s.log && IsActive(Send(s), c) && Send(s).goals[c] == s.goals[c]
  {
  }
}
