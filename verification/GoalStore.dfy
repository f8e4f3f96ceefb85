/** The goal loop as the app runs it: fields of the store patched in steps, each
 * method proved to make exactly the step that GoalLoop.dfy describes. */
module GoalStore {
  import opened Seqs
  import opened GoalLoop
  import GoalProofs

  predicate IsWall(f: Fault, walls: map<string, nat>) {
    f.key != "" && WallOf(walls, f.key) >= MAX_SAME_WALL
  }

  lemma {:induction false} FirstWallAppend(a: seq<Fault>, f: Fault, walls: map<string, nat>)
    ensures FirstWall(a + [f], walls) ==
            if FirstWall(a, walls).Some? then FirstWall(a, walls) else if IsWall(f, walls) then Some(f.words) else None
  {
    if a == [] {
      assert a + [f] == [f];
    } else {
      assert (a + [f])[1..] == a[1..] + [f];
      FirstWallAppend(a[1..], f, walls);
    }
  }

  lemma {:induction false} FirstWallFrame(a: seq<Fault>, walls: map<string, nat>, key: string, n: nat)
    requires key !in Keys(a)
    ensures FirstWall(a, walls[key := n]) == FirstWall(a, walls)
  {
    if a != [] {
      assert forall f | f in a[1..] :: f in a;
      FirstWallFrame(a[1..], walls, key, n);
      assert a[0] in a;
    }
  }

  lemma KeysAppend(a: seq<Fault>, f: Fault)
    ensures Keys(a + [f]) == Keys(a) + if f.key == "" then {} else {f.key}
  {
    assert forall g :: g in a + [f] <==> g in a || g == f;
    assert f in a + [f];
    forall k | k in Keys(a) ensures k in Keys(a + [f]) {
      var g :| g in a && g.key == k;
      assert g in a + [f];
    }
  }

  /** Counting `a`'s keys on `walls`, then one more key. */
  lemma RaisedAppend(walls: map<string, nat>, a: seq<Fault>, f: Fault)
    requires f.key != "" && f.key !in Keys(a)
    ensures Raised(walls, a + [f]) == Raised(walls, a)[f.key := WallOf(Raised(walls, a), f.key) + 1]
  {
    KeysAppend(a, f);
  }

  /** Counting the next key: the first wall so far. */
  lemma WallStep(a: seq<Fault>, f: Fault, before: map<string, nat>, n: nat)
    requires f.key != "" && f.key !in Keys(a)
    ensures FirstWall(a + [f], before[f.key := n]) ==
            if FirstWall(a, before).Some? then FirstWall(a, before) else if n >= MAX_SAME_WALL then Some(f.words) else None
  {
    FirstWallFrame(a, before, f.key, n);
    FirstWallAppend(a, f, before[f.key := n]);
  }

  /** The first error of each key, in order. */
  method ShownOnce(errors: seq<Fault>) returns (shown: seq<Fault>)
    ensures Keys(shown) == Keys(errors)
    ensures forall i, j | 0 <= i < j < |shown| :: shown[i].key != shown[j].key
    ensures forall f | f in shown :: f.key != ""
    ensures forall walls :: FirstWall(shown, walls) == FirstWall(errors, walls)
  {
    shown := [];
    for i := 0 to |errors|
      invariant Keys(shown) == Keys(errors[..i])
      invariant forall i, j | 0 <= i < j < |shown| :: shown[i].key != shown[j].key
      invariant forall f | f in shown :: f.key != ""
      invariant forall walls :: FirstWall(shown, walls) == FirstWall(errors[..i], walls)
    {
      var e := errors[i];
      assert errors[..i + 1] == errors[..i] + [e];
      KeysAppend(errors[..i], e);
      forall walls
        ensures FirstWall(errors[..i + 1], walls) ==
                if FirstWall(errors[..i], walls).Some? then FirstWall(errors[..i], walls)
                else if IsWall(e, walls) then Some(e.words) else None
      {
        FirstWallAppend(errors[..i], e, walls);
      }
      if e.key != "" && e.key !in Keys(shown) {
        KeysAppend(shown, e);
        forall walls ensures FirstWall(shown + [e], walls) == FirstWall(errors[..i + 1], walls) {
          FirstWallAppend(shown, e, walls);
        }
        forall f | f in shown ensures f.key != e.key {
          assert f.key in Keys(shown);
        }
        shown := shown + [e];
      } else {
        forall walls ensures FirstWall(shown, walls) == FirstWall(errors[..i + 1], walls) {
          if FirstWall(shown, walls).None? { GoalProofs.NoFirstWall(shown, walls); }
        }
      }
    }
    assert errors[..|errors|] == errors;
  }

  function Reason(wall: Option<string>): Option<string> {
    if wall.Some? then Some(SAME_WALL + Clip(wall.value)) else None
  }

  /** The counters and the verdict after the errors `a`, from the counters `base`. */
  ghost predicate Counted(base: map<string, nat>, a: seq<Fault>, walls: map<string, nat>, stalled: Option<string>) {
    walls == Raised(base, a) && stalled == Reason(FirstWall(a, walls))
  }

  lemma CountStep(
    base: map<string, nat>, shown: seq<Fault>, i: nat, walls: map<string, nat>, stalled: Option<string>)
    requires i < |shown| && Counted(base, shown[..i], walls, stalled)
    requires shown[i].key != "" && forall j | 0 <= j < i :: shown[j].key != shown[i].key
    ensures var f := shown[i]; var n := WallOf(walls, f.key) + 1;
            Counted(base, shown[..i + 1], walls[f.key := n],
                    if n >= MAX_SAME_WALL && stalled.None? then Reason(Some(f.words)) else stalled)
  {
    var a, f := shown[..i], shown[i];
    var walls' := walls[f.key := WallOf(walls, f.key) + 1];
    assert shown[..i + 1] == a + [f];
    assert f.key !in Keys(a);
    assert walls' == Raised(base, a + [f]) by { RaisedAppend(base, a, f); }
    WallStep(a, f, walls, WallOf(walls, f.key) + 1);
  }

  lemma CountNothing(base: map<string, nat>)
    ensures Counted(base, [], base, None)
  {
  }

  /** From the errors shown once to all the errors of the round. */
  lemma CountEnds(g: Goal, e: Evidence, shown: seq<Fault>, walls: map<string, nat>, stalled: Option<string>)
    requires Counted(g.walls, shown, walls, stalled) && Keys(shown) == Keys(e.errors)
    requires FirstWall(shown, walls) == FirstWall(e.errors, walls)
    ensures walls == Raised(g.walls, e.errors)
    ensures StallReason(g, e) == if stalled.None? && QuietAfter(g, e) >= MAX_QUIET_ROUNDS then Some(NO_PROGRESS) else stalled
  {
  }

  method WeighRound(goal: Goal, evidence: Evidence)
    returns (quiet: nat, walls: map<string, nat>, stalled: Option<string>)
    ensures quiet == QuietAfter(goal, evidence)
    ensures walls == Raised(goal.walls, evidence.errors)
    ensures stalled == StallReason(goal, evidence)
  {
    quiet := if goal.round >= 2 && evidence.ok == 0 then goal.quiet + 1 else if evidence.ok > 0 then 0 else goal.quiet;
    walls := goal.walls;
    stalled := None;
    var shown := ShownOnce(evidence.errors);
    CountNothing(goal.walls);
    for i := 0 to |shown|
      invariant Counted(goal.walls, shown[..i], walls, stalled)
    {
      var f := shown[i];
      CountStep(goal.walls, shown, i, walls, stalled);
      walls := walls[f.key := WallOf(walls, f.key) + 1];
      if walls[f.key] >= MAX_SAME_WALL && stalled.None? {
        stalled := Some(SAME_WALL + Clip(f.words));
      }
    }
    assert shown[..|shown|] == shown;
    CountEnds(goal, evidence, shown, walls, stalled);
    if stalled.None? && quiet >= MAX_QUIET_ROUNDS {
      stalled := Some(NO_PROGRESS);
    }
  }

  class Store {
    var goals: map<ConvId, Goal>
    var open: Option<ConvId>
    var busy: bool
    var picked: Picked
    var flights: map<nat, Flight>
    var nextFlight: nat
    ghost var log: seq<Entry>

    ghost function View(): State
      reads this
    {
      State(goals, open, busy, picked, flights, nextFlight, log)
    }

    constructor (open: Option<ConvId>)
      ensures View() == GoalProofs.Initial(open)
    {
      goals, this.open, busy, picked, flights, nextFlight, log := map[], open, false, ChatModel, map[], 0, [];
    }

    /** `host.patch`: a goal that is gone is left alone. */
    method Patch(c: ConvId, change: Goal -> Goal)
      modifies this`goals
      ensures goals == if c in old(goals) then old(goals)[c := change(old(goals)[c])] else old(goals)
    {
      if c in goals { goals := goals[c := change(goals[c])]; }
    }

    method Note(c: ConvId, line: Line)
      modifies this`log
      ensures log == old(log) + [Noted(c, line)]
    {
      log := log + [Noted(c, line)];
    }

    /** `sendMessage`, as far as goals see it: what it takes, clears and starts. */
    method SendMessage(model: Picked, spoken: bool)
      modifies this
      ensures View() == SendWith(old(View()), model, spoken)
    {
      if open.None? || busy { return; }
      if model == NoModel && spoken { return; }
      var c := open.value;
      if c in goals && goals[c].status != Active { goals := goals - {c}; }
      if model != ChatModel { return; }
      busy := true;
    }

    method AfterRun(c: ConvId, end: RunEnd)
      modifies this
      ensures View() == GoalLoop.AfterRun(old(View()), c, end)
    {
      if c !in goals || goals[c].status != Active || goals[c].checking { return; }
      var goal := goals[c];
      if end.stopReason in {Some(Aborted), Some(Failed), Some(TimedOut)} {
        Patch(c, (g: Goal) => g.(status := Stopped));
        return;
      }
      if open != Some(c) {
        Patch(c, (g: Goal) => g.(status := Stopped));
        Note(c, LeftChat);
        return;
      }
      if end.awaitingApproval { return; }
      Patch(c, (g: Goal) => g.(checking := true));
      flights := flights[nextFlight := Flight(c, goal, end.evidence)];
      nextFlight := nextFlight + 1;
    }

    /** The code after the await, when the check answered. */
    method CheckReplied(i: nat, check: Check)
      requires i in flights
      modifies this
      ensures View() == Step(old(View()), Event.CheckReplied(i, check))
    {
      var f := flights[i];
      var c, goal := f.conv, f.goal;
      flights := flights - {i};
      if c !in goals || goals[c].status != Active {
        Patch(c, (g: Goal) => g.(checking := false));
        return;
      }
      if check.met {
        Patch(c, (g: Goal) => g.(checking := false, status := Met, lastCheck := Some(check)));
        return;
      }
      if open != Some(c) {
        Patch(c, (g: Goal) => g.(checking := false, status := Stopped, lastCheck := Some(check)));
        Note(c, LeftChat);
        return;
      }
      var stalled: Option<string> := None;
      if f.evidence.Some? {
        var quiet, walls;
        quiet, walls, stalled := WeighRound(goal, f.evidence.value);
        Patch(c, (g: Goal) => g.(quiet := quiet, walls := walls));
        log := log + [Weighed(c, goal.round, f.evidence.value)];
      }
      Continue(f, check, stalled);
    }

    method Continue(f: Flight, check: Check, stalled: Option<string>)
      requires f.conv in goals
      modifies this
      ensures View() == GoOn(old(View()), f, check, stalled)
    {
      var c, goal := f.conv, f.goal;
      if stalled.Some? {
        Patch(c, (g: Goal) => g.(checking := false, status := Stalled, lastCheck := Some(check), stalled := stalled));
        Note(c, Stuck(stalled.value));
        log := log + [Reported(c, Stalled)];
        return;
      }
      if goal.round >= goal.maxRounds {
        Patch(c, (g: Goal) => g.(checking := false, status := Exhausted, lastCheck := Some(check)));
        Note(c, OutOfRounds(goal.maxRounds, check.next));
        log := log + [Reported(c, Exhausted)];
        return;
      }
      var round := goal.round + 1;
      Patch(c, (g: Goal) => g.(checking := false, round := round, lastCheck := Some(check)));
      Note(c, Continuing(round, goal.maxRounds));
      log := log + [Continued(c, round, open, open.Some? && !busy && picked == ChatModel)];
      SendMessage(picked, false);
    }

    method CheckFailed(i: nat)
      requires i in flights
      modifies this
      ensures View() == Step(old(View()), Event.CheckFailed(i))
    {
      var c := flights[i].conv;
      flights := flights - {i};
      Patch(c, (g: Goal) => g.(checking := false, status := Stopped));
      Note(c, CouldNotCheck);
    }

    method StartGoal(c: ConvId, text: string, until: string)
      modifies this
      ensures View() == Step(old(View()), Event.StartGoal(c, text, until))
    {
      goals := goals[c := NewGoal(text, until)];
      log := log + [Started(c)];
      SendMessage(picked, false);
    }

    method StopGenerating()
      modifies this
      ensures View() == StopOpen(old(View()))
    {
      if open.Some? && open.value in goals && goals[open.value].status == Active {
        Patch(open.value, (g: Goal) => g.(status := Stopped, checking := false));
      }
    }

    method StopGoal(c: ConvId, running: bool)
      modifies this
      ensures View() == Step(old(View()), Event.StopGoal(c, running))
    {
      if c !in goals || goals[c].status != Active { return; }
      Patch(c, (g: Goal) => g.(status := Stopped, checking := false));
      if running { StopGenerating(); }
    }

    method OpenChat(chat: Option<ConvId>)
      modifies this
      ensures View() == Step(old(View()), Event.OpenChat(chat))
    {
      open := chat;
    }

    method PickModel(model: Picked)
      modifies this
      ensures View() == Step(old(View()), Event.PicksModel(model))
    {
      picked := model;
    }

    method TurnOver()
      modifies this
      ensures View() == Step(old(View()), Event.TurnOver)
    {
      busy := false;
    }
  }
}
