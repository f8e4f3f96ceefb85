/** Why goals end: what a goal's status says is true of its last check and of the
 * history of its rounds, in every reachable state. */
module GoalEndings {
  import opened Seqs
  import opened GoalLoop
  import opened GoalProofs

  /** Two rounds without progress in a row, or one error met in three rounds. */
  ghost predicate AtALimit(g: Goal) {
    g.quiet >= MAX_QUIET_ROUNDS || exists k :: k in g.walls && g.walls[k] >= MAX_SAME_WALL
  }

  predicate Judged(g: Goal, met: bool) {
    g.lastCheck.Some? && g.lastCheck.value.met == met
  }

  ghost predicate EndOk(g: Goal) {
    && (g.status == Active ==> (g.lastCheck.None? || Judged(g, false)) && !AtALimit(g))
    && (g.status == Met ==> Judged(g, true))
    && (g.status == Exhausted ==> Judged(g, false) && g.round >= g.maxRounds && !AtALimit(g))
    && (g.status == Stalled ==> Judged(g, false) && g.stalled.Some? && AtALimit(g))
  }

  ghost predicate EndsOk(goals: map<ConvId, Goal>) {
    forall c | c in goals :: EndOk(goals[c])
  }

  // ---- the verdict on the evidence ----

  lemma {:induction false} FirstWallIsHit(errors: seq<Fault>, walls: map<string, nat>)
    requires FirstWall(errors, walls).Some?
    ensures exists k :: k in walls && walls[k] >= MAX_SAME_WALL
  {
    if errors[0].key != "" && WallOf(walls, errors[0].key) >= MAX_SAME_WALL {
      assert errors[0].key in walls;
    } else {
      FirstWallIsHit(errors[1..], walls);
    }
  }

  function WeighedGoal(g: Goal, e: Evidence): Goal {
    g.(quiet := QuietAfter(g, e), walls := Raised(g.walls, e.errors))
  }

  /** A round stalls a goal that is below the limits exactly when it brings it to one. */
  lemma StallsExactlyAtALimit(g: Goal, e: Evidence)
    requires !AtALimit(g)
    ensures StallReason(g, e).Some? <==> AtALimit(WeighedGoal(g, e))
  {
    var walls := Raised(g.walls, e.errors);
    if FirstWall(e.errors, walls).Some? {
      FirstWallIsHit(e.errors, walls);
    } else {
      NoFirstWall(e.errors, walls);
      forall k | k in walls ensures walls[k] < MAX_SAME_WALL {
        assert k !in Keys(e.errors) ==> walls[k] == WallOf(g.walls, k);
      }
    }
  }

  // ---- every step ----

  /** The goal that a reply which does not end it as met leaves behind. */
  lemma DecidedIsTrue(s: State, f: Flight, check: Check, stalled: Option<string>)
    requires EndsOk(s.goals - {f.conv}) && IsActive(s, f.conv) && !check.met
    requires s.goals[f.conv].round == f.goal.round && s.goals[f.conv].maxRounds == f.goal.maxRounds
    requires stalled.Some? <==> AtALimit(s.goals[f.conv])
    ensures EndsOk(GoOn(s, f, check, stalled).goals)
  {
    var a, b := GoOnDecides(s, f, check, stalled);
    var g := Decided(s, f, check, stalled);
    assert EndOk(g);
    PutIsTrue(s.goals, f.conv, g);
    if b.Continued? { SendIsTrue(Log(Log(Put(s, f.conv, g), a), b)); }
  }

  lemma PutIsTrue(goals: map<ConvId, Goal>, c: ConvId, g: Goal)
    requires EndsOk(goals - {c}) && EndOk(g)
    ensures EndsOk(goals[c := g])
  {
    var goals' := goals[c := g];
    forall d | d in goals' ensures EndOk(goals'[d]) {
      if d != c { assert d in goals - {c}; }
    }
  }

  lemma SendIsTrue(s: State)
    requires EndsOk(s.goals)
    ensures EndsOk(Send(s).goals)
  {
  }

  lemma StopIsTrue(s: State, c: ConvId)
    requires EndsOk(s.goals)
    ensures EndsOk(Stop(s, c).goals)
  {
  }

  lemma ReplyIsTrue(s: State, f: Flight, check: Check)
    requires EndsOk(s.goals)
    requires IsActive(s, f.conv) ==> s.goals[f.conv] == f.goal.(checking := true)
    ensures EndsOk(Resume(s, f, check).goals)
  {
    if IsActive(s, f.conv) && !check.met && s.open == Some(f.conv) {
      assert EndOk(s.goals[f.conv]);
      if f.evidence.None? {
        DecidedIsTrue(s, f, check, None);
      } else {
        var w := Weigh(s, f);
        StallsExactlyAtALimit(f.goal, f.evidence.value);
        assert w.goals[f.conv] == WeighedGoal(f.goal, f.evidence.value).(checking := true);
        assert w.goals - {f.conv} == s.goals - {f.conv};
        DecidedIsTrue(w, f, check, StallReason(f.goal, f.evidence.value));
      }
    }
  }

  lemma RunEndIsTrue(s: State, c: ConvId, end: RunEnd)
    requires EndsOk(s.goals)
    ensures EndsOk(AfterRun(s, c, end).goals)
  {
    if IsActive(s, c) {
      assert EndOk(s.goals[c]);
      PutIsTrue(s.goals, c, s.goals[c].(status := Stopped));
      PutIsTrue(s.goals, c, s.goals[c].(checking := true));
    }
  }

  lemma GiveUpIsTrue(s: State, c: ConvId)
    requires EndsOk(s.goals)
    ensures EndsOk(GiveUp(s, c).goals)
  {
  }

  lemma StepIsTrue(s: State, e: Event)
    requires Inv(s) && EndsOk(s.goals) && Enabled(s, e)
    ensures EndsOk(Step(s, e).goals)
  {
    match e
    case RunEnded(c, end) => RunEndIsTrue(s, c, end);
    case CheckReplied(i, check) =>
      LandedIsAlone(s, i);
      ReplyIsTrue(Landed(s, i), s.flights[i], check);
    case CheckFailed(i) => GiveUpIsTrue(Landed(s, i), s.flights[i].conv);
    case StartGoal(c, text, until) =>
      PutIsTrue(s.goals, c, NewGoal(text, until));
      SendIsTrue(Log(Put(s, c, NewGoal(text, until)), Started(c)));
    case StopGoal(c, running) =>
      StopIsTrue(s, c);
      if s.open.Some? { StopIsTrue(Stop(s, c), s.open.value); }
    case StopGenerating => if s.open.Some? { StopIsTrue(s, s.open.value); }
    case UserSends(_, _) =>
    case OpenChat(_) =>
    case PicksModel(_) =>
    case OtherTurnStarts =>
    case TurnOver =>
  }

  lemma {:induction false} EveryRunIsTrue(s: State, es: seq<Event>)
    requires Inv(s) && EndsOk(s.goals) && Admissible(s, es)
    ensures EndsOk(Run(s, es).goals)
    decreases |es|
  {
    if es != [] {
      StepKeeps(s, es[0]);
      StepIsTrue(s, es[0]);
      EveryRunIsTrue(Step(s, es[0]), es[1..]);
    }
  }

  // ---- main result ----

  /** The counters stand for the history, so a limit of the one is a limit of the other. */
  lemma LimitsOfTheHistory(g: Goal, h: seq<(nat, Evidence)>)
    requires g.quiet == QuietRun(h) && forall k :: WallOf(g.walls, k) == Hits(h, k)
    ensures AtALimit(g) <==> QuietRun(h) >= MAX_QUIET_ROUNDS || exists k :: Hits(h, k) >= MAX_SAME_WALL
  {
    forall k ensures k in g.walls && g.walls[k] >= MAX_SAME_WALL <==> Hits(h, k) >= MAX_SAME_WALL {
      assert WallOf(g.walls, k) == Hits(h, k);
    }
    if k :| k in g.walls && g.walls[k] >= MAX_SAME_WALL {
      assert Hits(h, k) >= MAX_SAME_WALL;
    }
  }

  /** In every reachable state: a goal is met only on a check that said so; out of
   * rounds only in its last one, judged unmet and below both limits; and
   * stalled only when its last two rounds got nowhere or one error came up in three. */
  lemma EndingsAreTrue(open: Option<ConvId>, es: seq<Event>, c: ConvId)
    requires Admissible(Initial(open), es) && c in Run(Initial(open), es).goals
    ensures var s := Run(Initial(open), es);
            var g, h := s.goals[c], Rounds(s.log, c);
            && (g.status == Met ==> Judged(g, true))
            && (g.status == Exhausted ==>
                  && Judged(g, false) && g.round == g.maxRounds
                  && QuietRun(h) < MAX_QUIET_ROUNDS && forall k :: Hits(h, k) < MAX_SAME_WALL)
            && (g.status == Stalled ==>
                  Judged(g, false) && (QuietRun(h) >= MAX_QUIET_ROUNDS || exists k :: Hits(h, k) >= MAX_SAME_WALL))
  {
    var s := Run(Initial(open), es);
    EveryRunIsTrue(Initial(open), es);
    ReachableGoals(open, es, c);
    assert EndOk(s.goals[c]);
    LimitsOfTheHistory(s.goals[c], Rounds(s.log, c));
  }
}
