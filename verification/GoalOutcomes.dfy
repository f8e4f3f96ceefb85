/** What each step of the goal loop does to the whole state, said on the state before it
 * and on the history of the goal, and where what it did came from. */
module GoalOutcomes {
  import opened Seqs
  import opened GoalLoop
  import opened GoalProofs
  import opened GoalEndings

  ghost predicate Waiting(s: State, c: ConvId) {
    c in s.goals && s.goals[c].status == Active && !s.goals[c].checking
  }

  // ---- a run ends ----

  /** Which ways of ending a run break off, and which are judged. */
  predicate Judgeable(reason: Option<StopReason>) {
    reason in {None, Some(Completed), Some(MaxSteps), Some(Interrupted)}
  }

  lemma ReasonsSplit(reason: Option<StopReason>)
    ensures Judgeable(reason) <==> reason !in {Some(Aborted), Some(Failed), Some(TimedOut)}
  {
    if reason.Some? {
      match reason.value
      case Completed =>
      case Aborted =>
      case TimedOut =>
      case MaxSteps =>
      case Failed =>
      case Interrupted =>
    }
  }

  /** A run that was stopped, failed or timed out stops the goal and says nothing. Any
   * other is judged, if its chat is still open and no plan waits for approval: one
   * check is asked about this goal, with this run's evidence. */
  lemma RunEndDecides(s: State, c: ConvId, end: RunEnd)
    requires Waiting(s, c)
    ensures var t, g := Step(s, RunEnded(c, end)), s.goals[c];
            && (end.stopReason in {Some(Aborted), Some(Failed), Some(TimedOut)} ==>
                  t == s.(goals := s.goals[c := g.(status := Stopped)]))
            && (end.stopReason in {None, Some(Completed), Some(MaxSteps), Some(Interrupted)} ==>
                  && (s.open != Some(c) ==>
                        t == s.(goals := s.goals[c := g.(status := Stopped)], log := s.log + [Noted(c, LeftChat)]))
                  && (s.open == Some(c) && end.awaitingApproval ==> t == s)
                  && (s.open == Some(c) && !end.awaitingApproval ==>
                        t == s.(goals := s.goals[c := g.(checking := true)],
                                flights := s.flights[s.nextFlight := Flight(c, g, end.evidence)],
                                nextFlight := s.nextFlight + 1)))
  {
  }

  /** Without a goal that is active and not being checked, a run end means nothing. */
  lemma OtherRunEndsDoNothing(s: State, c: ConvId, end: RunEnd)
    requires !Waiting(s, c)
    ensures Step(s, RunEnded(c, end)) == s
  {
  }

  // ---- a check comes back ----

  ghost predicate LimitReached(h: seq<(nat, Evidence)>) {
    QuietRun(h) >= 2 || exists k :: Hits(h, k) >= 3
  }

  /** The rounds weighed for the goal once its check has come back unmet. */
  function HistoryAfter(s: State, f: Flight): seq<(nat, Evidence)> {
    var h := Rounds(s.log, f.conv);
    if f.evidence.Some? then h + [(f.goal.round, f.evidence.value)] else h
  }

  function WeighedEntry(f: Flight): seq<Entry> {
    if f.evidence.Some? then [Weighed(f.conv, f.goal.round, f.evidence.value)] else []
  }

  /** A reply for a goal that is over only clears the mark. */
  lemma ReplyForAnEndedGoal(s: State, i: nat, check: Check)
    requires i in s.flights && !IsActive(s, s.flights[i].conv)
    ensures var c, u := s.flights[i].conv, s.(flights := s.flights - {i});
            Step(s, CheckReplied(i, check))
            == if c in s.goals then u.(goals := s.goals[c := s.goals[c].(checking := false)]) else u
  {
  }

  /** Met ends the goal; unmet in a chat the user has left stops it. */
  lemma ReplyEnds(s: State, i: nat, check: Check)
    requires i in s.flights && IsActive(s, s.flights[i].conv)
    requires check.met || s.open != Some(s.flights[i].conv)
    ensures var c, u := s.flights[i].conv, s.(flights := s.flights - {i});
            var g := s.goals[c].(checking := false, lastCheck := Some(check));
            Step(s, CheckReplied(i, check))
            == if check.met then u.(goals := s.goals[c := g.(status := Met)])
               else u.(goals := s.goals[c := g.(status := Stopped)], log := s.log + [Noted(c, LeftChat)])
  {
  }

  /** Whether the round stalls the goal is a matter of its history alone. */
  lemma StallsByHistory(s: State, i: nat)
    requires Inv(s) && i in s.flights && IsActive(s, s.flights[i].conv)
    ensures var f := s.flights[i];
            && s.goals[f.conv] == f.goal.(checking := true)
            && (f.evidence.Some? ==> (StallReason(f.goal, f.evidence.value).Some? <==> LimitReached(HistoryAfter(s, f))))
            && (f.evidence.None? ==> !LimitReached(HistoryAfter(s, f)))
  {
    var f := s.flights[i];
    var g, h := s.goals[f.conv], Rounds(s.log, f.conv);
    LandedIsAlone(s, i);
    assert GoalOk(g, h);
    BelowTheLimits(g, h);
    if f.evidence.Some? {
      var e := f.evidence.value;
      WeighExtends(f.goal, h, e);
      assert !AtALimit(f.goal);
      StallsExactlyAtALimit(f.goal, e);
      LimitsOfTheHistory(WeighedGoal(f.goal, e), HistoryAfter(s, f));
    }
  }

  lemma BelowTheLimits(g: Goal, h: seq<(nat, Evidence)>)
    requires GoalOk(g, h) && g.status == Active
    ensures !AtALimit(g) && !LimitReached(h)
  {
    LimitsOfTheHistory(g, h);
    forall k | k in g.walls ensures g.walls[k] < MAX_SAME_WALL {
      assert WallOf(g.walls, k) < MAX_SAME_WALL;
    }
  }

  /** The step after an unmet reply in the open chat, with the reason it stalls for. */
  lemma UnmetReplyGoesOn(s: State, i: nat, check: Check)
    requires i in s.flights && !check.met
    requires var c := s.flights[i].conv; IsActive(s, c) && s.open == Some(c)
    ensures var f := s.flights[i];
            var stalled := if f.evidence.Some? then StallReason(f.goal, f.evidence.value) else None;
            var u := if f.evidence.Some? then Weigh(Landed(s, i), f) else Landed(s, i);
            && Step(s, CheckReplied(i, check)) == GoOn(u, f, check, stalled)
            && u.log == s.log + WeighedEntry(f) && u.flights == s.flights - {i} && u.nextFlight == s.nextFlight
            && u.open == s.open && u.busy == s.busy && u.picked == s.picked && u.goals.Keys == s.goals.Keys
            && u.goals[f.conv] == s.goals[f.conv].(quiet := u.goals[f.conv].quiet, walls := u.goals[f.conv].walls)
            && forall d | d in s.goals && d != f.conv :: u.goals[d] == s.goals[d]
  {
  }

  lemma GoOnOutcome(u: State, f: Flight, check: Check, stalled: Option<string>)
    requires f.conv in u.goals && u.goals[f.conv].status == Active && u.open == Some(f.conv)
    ensures var c, t := f.conv, GoOn(u, f, check, stalled);
            && t.flights == u.flights && t.nextFlight == u.nextFlight && t.open == u.open && t.picked == u.picked
            && t.goals.Keys == u.goals.Keys && (forall d | d in u.goals && d != c :: t.goals[d] == u.goals[d])
            && var g := u.goals[c].(checking := false, lastCheck := Some(check));
               if stalled.Some? then
                 && t.goals[c] == g.(status := Stalled, stalled := stalled) && t.busy == u.busy
                 && t.log == u.log + [Noted(c, Stuck(stalled.value)), Reported(c, Stalled)]
               else if f.goal.round >= f.goal.maxRounds then
                 && t.goals[c] == g.(status := Exhausted) && t.busy == u.busy
                 && t.log == u.log + [Noted(c, OutOfRounds(f.goal.maxRounds, check.next)), Reported(c, Exhausted)]
               else
                 && t.goals[c] == g.(round := f.goal.round + 1) && t.busy == (u.busy || u.picked == ChatModel)
                 && t.log == u.log + [Noted(c, Continuing(f.goal.round + 1, f.goal.maxRounds)),
                                      Continued(c, f.goal.round + 1, Some(c), !u.busy && u.picked == ChatModel)]
  {
  }

  /** An unmet reply in the open chat: two rounds without progress or one error in three
   * rounds stall the goal, else the last of five rounds exhausts it, else it goes on
   * with the next round. The round is on record first, each ending is said and
   * reported, and no other chat's goal is touched. */
  lemma UnmetReplyDecides(s: State, i: nat, check: Check)
    requires Inv(s) && i in s.flights && !check.met
    requires IsActive(s, s.flights[i].conv) && s.open == Some(s.flights[i].conv)
    ensures var f, t := s.flights[i], Step(s, CheckReplied(i, check));
            var c := f.conv;
            && t.flights == s.flights - {i} && t.nextFlight == s.nextFlight && t.open == s.open && t.picked == s.picked
            && t.goals.Keys == s.goals.Keys && (forall d | d in s.goals && d != c :: t.goals[d] == s.goals[d])
            && var g, g', log := s.goals[c], t.goals[c], s.log + WeighedEntry(f);
               && g' == g.(checking := false, lastCheck := Some(check), status := g'.status, stalled := g'.stalled,
                           round := g'.round, quiet := g'.quiet, walls := g'.walls)
               && (if LimitReached(HistoryAfter(s, f)) then
                     && g'.status == Stalled && g'.round == g.round && g'.stalled.Some? && t.busy == s.busy
                     && t.log == log + [Noted(c, Stuck(g'.stalled.value)), Reported(c, Stalled)]
                   else if g.round == 5 then
                     && g'.status == Exhausted && g'.round == 5 && g'.stalled == g.stalled && t.busy == s.busy
                     && t.log == log + [Noted(c, OutOfRounds(5, check.next)), Reported(c, Exhausted)]
                   else
                     && g'.status == Active && g'.round == g.round + 1 && g'.stalled == g.stalled
                     && t.busy == (s.busy || s.picked == ChatModel)
                     && t.log == log + [Noted(c, Continuing(g.round + 1, 5)),
                                        Continued(c, g.round + 1, Some(c), !s.busy && s.picked == ChatModel)])
  {
    var f := s.flights[i];
    var stalled := if f.evidence.Some? then StallReason(f.goal, f.evidence.value) else None;
    var u := if f.evidence.Some? then Weigh(Landed(s, i), f) else Landed(s, i);
    StallsByHistory(s, i);
    UnmetReplyGoesOn(s, i, check);
    GoOnOutcome(u, f, check, stalled);
    assert GoalOk(s.goals[f.conv], Rounds(s.log, f.conv));
  }

  /** A check that could not run stops the goal of its chat, and says so. */
  lemma FailedCheckStops(s: State, i: nat)
    requires i in s.flights
    ensures var c := s.flights[i].conv;
            Step(s, CheckFailed(i)) == s.(
              flights := s.flights - {i}, log := s.log + [Noted(c, CouldNotCheck)],
              goals := if c in s.goals then s.goals[c := s.goals[c].(checking := false, status := Stopped)] else s.goals)
  {
  }

  // ---- why it stalled, in words ----

  /** The first error of the round that is a wall by now. */
  ghost predicate FirstHit(errors: seq<Fault>, walls: map<string, nat>, n: nat) {
    && n < |errors| && errors[n].key != "" && WallOf(walls, errors[n].key) >= 3
    && forall m | 0 <= m < n :: errors[m].key == "" || WallOf(walls, errors[m].key) < 3
  }

  lemma {:induction false} FirstWallReads(errors: seq<Fault>, walls: map<string, nat>) returns (n: nat)
    ensures FirstWall(errors, walls).Some? ==>
              FirstHit(errors, walls, n) && FirstWall(errors, walls).value == errors[n].words
    ensures FirstWall(errors, walls).None? ==> forall m | 0 <= m < |errors| ::
              errors[m].key == "" || WallOf(walls, errors[m].key) < 3
  {
    n := 0;
    if errors != [] && !(errors[0].key != "" && WallOf(walls, errors[0].key) >= 3) {
      var k := FirstWallReads(errors[1..], walls);
      n := k + 1;
    }
  }

  /** A wall is named before missing progress, by the first error in its third round,
   * its words cut at 160 characters. */
  lemma StallReasonReads(g: Goal, e: Evidence) returns (n: nat)
    requires StallReason(g, e).Some?
    ensures var walls, reason := Raised(g.walls, e.errors), StallReason(g, e).value;
            if exists m :: FirstHit(e.errors, walls, m) then
              && FirstHit(e.errors, walls, n)
              && var words := e.errors[n].words;
                 reason == "I stopped after three identical errors: " + if |words| > 160 then words[..160] else words
            else
              reason == "I stopped because the last two rounds got nowhere: none of my tool calls worked."
  {
    n := FirstWallReads(e.errors, Raised(g.walls, e.errors));
  }

  // ---- what the user does ----

  /** Ending a turn's words in the open chat clears what an ended goal left there. */
  function Cleared(s: State): map<ConvId, Goal> {
    if s.open.Some? && s.open.value in s.goals && s.goals[s.open.value].status != Active then s.goals - {s.open.value}
    else s.goals
  }

  lemma SendDecides(s: State, model: Picked, spoken: bool)
    ensures Step(s, UserSends(model, spoken))
            == if s.open.None? || s.busy || (model == NoModel && spoken) then s
               else s.(goals := Cleared(s), busy := model == ChatModel)
  {
  }

  /** A start replaces the goal by a fresh one of five rounds, on record before the
   * opening turn is attempted. */
  lemma StartDecides(s: State, c: ConvId, text: string, until: string)
    ensures var t := Step(s, StartGoal(c, text, until));
            && c in t.goals && t.goals[c] == Goal(text, until, 5, 1, Active, None, false, 0, map[], None)
            && t.log == s.log + [Started(c)] && t.flights == s.flights && t.nextFlight == s.nextFlight
            && t.open == s.open && t.picked == s.picked
            && t.busy == (s.busy || (s.open.Some? && s.picked == ChatModel))
            && forall d | d in s.goals && d != c :: d in t.goals <==> s.goals[d].status == Active || s.open != Some(d) || s.busy
  {
  }

  lemma StartTouchesNoOtherGoal(s: State, c: ConvId, text: string, until: string, d: ConvId)
    requires d != c && d in Step(s, StartGoal(c, text, until)).goals
    ensures d in s.goals && Step(s, StartGoal(c, text, until)).goals[d] == s.goals[d]
  {
  }

  /** Opening a chat, picking a model, and turns that start and end elsewhere leave every
   * goal and every check alone. */
  lemma TheRestLeavesGoalsAlone(s: State, chat: Option<ConvId>, model: Picked)
    ensures Step(s, OpenChat(chat)) == s.(open := chat)
    ensures Step(s, PicksModel(model)) == s.(picked := model)
    ensures Step(s, OtherTurnStarts) == s.(busy := true)
    ensures Step(s, TurnOver) == s.(busy := false)
  {
  }

  /** The goals after a stop: an active one is stopped and no longer being checked. */
  function StoppedIn(goals: map<ConvId, Goal>, c: ConvId): map<ConvId, Goal> {
    if c in goals && goals[c].status == Active then goals[c := goals[c].(status := Stopped, checking := false)] else goals
  }

  /** Stopping the goal stops it, and the run with it when that chat is running, which
   * in turn stops the goal of the open chat. A goal that is not active is left alone. */
  lemma StopDecides(s: State, c: ConvId, running: bool)
    ensures Step(s, StopGoal(c, running)) == s.(goals :=
              if IsActive(s, c) && running && s.open.Some? then StoppedIn(StoppedIn(s.goals, c), s.open.value)
              else StoppedIn(s.goals, c))
    ensures Step(s, StopGenerating) == s.(goals := if s.open.Some? then StoppedIn(s.goals, s.open.value) else s.goals)
  {
  }

  /** A goal that was stopped is out for good: no reply of its check brings it back. */
  lemma StoppedStaysStopped(s: State, c: ConvId, running: bool, i: nat, check: Check)
    requires IsActive(s, c) && i in s.flights && s.flights[i].conv == c
    ensures var t := Step(s, StopGoal(c, running));
            && c in t.goals && t.goals[c].status == Stopped && i in t.flights
            && Step(t, CheckReplied(i, check)) == t.(flights := t.flights - {i})
  {
    var t := Step(s, StopGoal(c, running));
    assert t.goals[c := t.goals[c].(checking := false)] == t.goals;
  }

  // ---- where rounds and continuations come from ----

  /** The run end behind a check. */
  predicate LaunchedBy(e: Event, f: Flight) {
    && e.RunEnded? && e.conv == f.conv && e.end.evidence == f.evidence
    && Judgeable(e.end.stopReason) && !e.end.awaitingApproval
  }

  ghost predicate Sourced(flights: map<nat, Flight>, past: seq<Event>) {
    forall i | i in flights :: exists e :: e in past && LaunchedBy(e, flights[i])
  }

  /** What a weighed round or a continuation in the log goes back to. */
  ghost predicate Grounded(entry: Entry, past: seq<Event>) {
    && (entry.Weighed? ==> exists e, f :: e in past && LaunchedBy(e, f) && f.conv == entry.conv
                                          && f.evidence == Some(entry.evidence))
    && (entry.Continued? ==> exists e, f :: e in past && LaunchedBy(e, f) && f.conv == entry.conv)
    && (entry.Continued? || entry.Weighed? ==> exists e :: e in past && e.CheckReplied? && !e.check.met)
  }

  ghost predicate AllGrounded(log: seq<Entry>, past: seq<Event>) {
    forall k | 0 <= k < |log| :: Grounded(log[k], past)
  }

  lemma GroundedLater(entry: Entry, past: seq<Event>, more: seq<Event>)
    requires Grounded(entry, past)
    ensures Grounded(entry, past + more)
  {
    forall e: Event | e in past ensures e in past + more {
    }
  }

  lemma StepSourced(s: State, e: Event, past: seq<Event>)
    requires Sourced(s.flights, past) && Enabled(s, e)
    ensures Sourced(Step(s, e).flights, past + [e])
  {
    var t := Step(s, e);
    forall i | i in t.flights ensures exists x :: x in past + [e] && LaunchedBy(x, t.flights[i]) {
      if i in s.flights && t.flights[i] == s.flights[i] {
        var x :| x in past && LaunchedBy(x, s.flights[i]);
        assert x in past + [e];
      } else {
        StepFlights(s, e, i);
        assert e in past + [e];
      }
    }
  }

  /** Only a run end that is judged puts a check in flight. */
  lemma StepFlights(s: State, e: Event, i: nat)
    requires Enabled(s, e) && i in Step(s, e).flights && !(i in s.flights && Step(s, e).flights[i] == s.flights[i])
    ensures LaunchedBy(e, Step(s, e).flights[i])
  {
    match e
    case RunEnded(c, end) =>
      ReasonsSplit(end.stopReason);
      if Waiting(s, c) { RunEndDecides(s, c, end); } else { OtherRunEndsDoNothing(s, c, end); }
    case CheckReplied(j, check) => ReplyLaunchesNothing(s, j, check);
    case CheckFailed(_) =>
    case StartGoal(_, _, _) =>
    case StopGoal(c, running) => StopDecides(s, c, running);
    case StopGenerating => StopDecides(s, "", false);
    case UserSends(model, spoken) => SendDecides(s, model, spoken);
    case OpenChat(_) =>
    case PicksModel(_) =>
    case OtherTurnStarts =>
    case TurnOver =>
  }

  lemma ReplyLaunchesNothing(s: State, j: nat, check: Check)
    requires j in s.flights
    ensures Step(s, CheckReplied(j, check)).flights == s.flights - {j}
  {
    var c := s.flights[j].conv;
    if !IsActive(s, c) {
      ReplyForAnEndedGoal(s, j, check);
    } else if check.met || s.open != Some(c) {
      ReplyEnds(s, j, check);
    } else {
      var f := s.flights[j];
      UnmetReplyGoesOn(s, j, check);
      GoOnOutcome(if f.evidence.Some? then Weigh(Landed(s, j), f) else Landed(s, j), f, check,
                  if f.evidence.Some? then StallReason(f.goal, f.evidence.value) else None);
    }
  }

  /** An unmet reply in the open chat puts its round on record, then a line, then a
   * report or a continuation. */
  lemma UnmetReplyLogs(s: State, i: nat, check: Check) returns (a: Entry, b: Entry)
    requires i in s.flights && !check.met
    requires var c := s.flights[i].conv; IsActive(s, c) && s.open == Some(c)
    ensures var f := s.flights[i];
            && Step(s, CheckReplied(i, check)).log == s.log + (WeighedEntry(f) + [a, b])
            && a.Noted? && (b.Reported? || b.Continued?) && b.conv == f.conv
  {
    var f := s.flights[i];
    var u := if f.evidence.Some? then Weigh(Landed(s, i), f) else Landed(s, i);
    var stalled := if f.evidence.Some? then StallReason(f.goal, f.evidence.value) else None;
    UnmetReplyGoesOn(s, i, check);
    GoOnOutcome(u, f, check, stalled);
    a, b := GoOn(u, f, check, stalled).log[|u.log|], GoOn(u, f, check, stalled).log[|u.log| + 1];
    AppendAssociates(s.log, WeighedEntry(f), [a, b]);
  }

  /** The entries a step adds are about the chat of the check it lands. */
  lemma StepLogs(s: State, e: Event, k: nat)
    requires Enabled(s, e) && |s.log| <= k < |Step(s, e).log|
    requires Step(s, e).log[k].Weighed? || Step(s, e).log[k].Continued?
    ensures e.CheckReplied? && !e.check.met
    ensures var f, entry := s.flights[e.flight], Step(s, e).log[k];
            entry.conv == f.conv && (entry.Weighed? ==> f.evidence == Some(entry.evidence))
  {
    if e.CheckReplied? {
      ReplyLogs(s, e.flight, e.check, k);
    } else {
      StepLogsNothingElse(s, e);
    }
  }

  lemma ReplyLogs(s: State, i: nat, check: Check, k: nat)
    requires i in s.flights && |s.log| <= k < |Step(s, CheckReplied(i, check)).log|
    ensures var f, entry := s.flights[i], Step(s, CheckReplied(i, check)).log[k];
            entry.Weighed? || entry.Continued? ==>
              !check.met && entry.conv == f.conv && (entry.Weighed? ==> f.evidence == Some(entry.evidence))
  {
    var c := s.flights[i].conv;
    if !IsActive(s, c) {
      ReplyForAnEndedGoal(s, i, check);
    } else if check.met || s.open != Some(c) {
      ReplyEnds(s, i, check);
    } else {
      var _, _ := UnmetReplyLogs(s, i, check);
    }
  }

  lemma StepLogsNothingElse(s: State, e: Event)
    requires Enabled(s, e) && !e.CheckReplied?
    ensures forall k | |s.log| <= k < |Step(s, e).log| :: !Step(s, e).log[k].Weighed? && !Step(s, e).log[k].Continued?
  {
  }

  lemma StepKeepsLog(s: State, e: Event)
    requires Enabled(s, e)
    ensures |s.log| <= |Step(s, e).log| && Step(s, e).log[..|s.log|] == s.log
  {
    if e.CheckReplied? {
      var c := s.flights[e.flight].conv;
      if IsActive(s, c) && !e.check.met && s.open == Some(c) { var _, _ := UnmetReplyLogs(s, e.flight, e.check); }
    } else {
      OtherStepsSendNothing(s, e);
    }
  }

  lemma StepGrounded(s: State, e: Event, past: seq<Event>)
    requires Sourced(s.flights, past) && AllGrounded(s.log, past) && Enabled(s, e)
    ensures AllGrounded(Step(s, e).log, past + [e])
  {
    var log := Step(s, e).log;
    StepKeepsLog(s, e);
    forall k | 0 <= k < |log| ensures Grounded(log[k], past + [e]) {
      if k < |s.log| {
        assert log[k] == log[..|s.log|][k];
        GroundedLater(s.log[k], past, [e]);
      } else if log[k].Weighed? || log[k].Continued? {
        StepLogs(s, e, k);
        var f := s.flights[e.flight];
        var x :| x in past && LaunchedBy(x, f);
        assert x in past + [e] && e in past + [e];
      }
    }
  }

  lemma {:induction false} RunGrounded(s: State, es: seq<Event>, past: seq<Event>)
    requires Sourced(s.flights, past) && AllGrounded(s.log, past) && Admissible(s, es)
    ensures AllGrounded(Run(s, es).log, past + es)
    decreases |es|
  {
    if es == [] {
      assert past + es == past;
    } else {
      StepSourced(s, es[0], past);
      StepGrounded(s, es[0], past);
      RunGrounded(Step(s, es[0]), es[1..], past + [es[0]]);
      assert past + [es[0]] + es[1..] == past + es;
    }
  }

  /** Over every run: each round that was weighed and each continuation goes back to a
   * run end of that chat that did not break off, with no plan waiting for approval, and
   * to a check that said "not met". A round is weighed on that run's own evidence. */
  lemma NothingComesFromABrokenRun(open: Option<ConvId>, es: seq<Event>, k: nat)
    requires Admissible(Initial(open), es) && k < |Run(Initial(open), es).log|
    ensures var entry := Run(Initial(open), es).log[k];
            && (entry.Continued? || entry.Weighed? ==>
                  exists e :: e in es && e.RunEnded? && e.conv == entry.conv && !e.end.awaitingApproval
                              && e.end.stopReason !in {Some(Aborted), Some(Failed), Some(TimedOut)}
                              && (entry.Weighed? ==> e.end.evidence == Some(entry.evidence)))
            && (entry.Continued? || entry.Weighed? ==> exists e :: e in es && e.CheckReplied? && !e.check.met)
  {
    RunGrounded(Initial(open), es, []);
    assert [] + es == es;
    assert Grounded(Run(Initial(open), es).log[k], es);
  }
}
