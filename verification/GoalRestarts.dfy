/** Starting a goal again while the check of the one before is still in flight: when
 * the old verdict can land on the new goal, and what it does there. */
module GoalRestarts {
  import opened Seqs
  import opened GoalLoop
  import opened GoalProofs

  /** The reply of check `i`, if it came now, would change the goal of `c`. */
  ghost predicate Decides(s: State, i: nat, check: Check, c: ConvId) {
    && i in s.flights && c in s.goals
    && var goals := Step(s, CheckReplied(i, check)).goals;
       c !in goals || goals[c] != s.goals[c]
  }

  /** In some run after the start, the reply of a check asked before it decides the
   * goal of the chat. */
  ghost predicate OldVerdictCanLand(s: State, c: ConvId, text: string, until: string) {
    var s1 := Step(s, StartGoal(c, text, until));
    exists es, i: nat, check :: Admissible(s1, es) && i < s.nextFlight && Decides(Run(s1, es), i, check, c)
  }

  // ---- a reply decides the goal of its own chat only ----

  lemma GoOnElsewhere(s: State, f: Flight, check: Check, stalled: Option<string>, c: ConvId)
    requires f.conv in s.goals && s.open == Some(f.conv) && c != f.conv && c in s.goals
    ensures var t := GoOn(s, f, check, stalled); c in t.goals && t.goals[c] == s.goals[c]
  {
  }

  lemma ReplyElsewhere(s: State, f: Flight, check: Check, c: ConvId)
    requires c != f.conv && c in s.goals
    ensures var t := Resume(s, f, check); c in t.goals && t.goals[c] == s.goals[c]
  {
    if IsActive(s, f.conv) && !check.met && s.open == Some(f.conv) {
      if f.evidence.Some? {
        GoOnElsewhere(Weigh(s, f), f, check, StallReason(f.goal, f.evidence.value), c);
      } else {
        GoOnElsewhere(s, f, check, None, c);
      }
    }
  }

  // ---- checks asked before the start ----

  lemma SendKeepsFlights(s: State, model: Picked, spoken: bool)
    ensures var t := SendWith(s, model, spoken); t.flights == s.flights && t.nextFlight == s.nextFlight
  {
  }

  lemma GoOnKeepsFlights(s: State, f: Flight, check: Check, stalled: Option<string>)
    requires f.conv in s.goals
    ensures var t := GoOn(s, f, check, stalled); t.flights == s.flights && t.nextFlight == s.nextFlight
  {
    var a, b := GoOnDecides(s, f, check, stalled);
    var t := Log(Log(Put(s, f.conv, Decided(s, f, check, stalled)), a), b);
    SendKeepsFlights(t, t.picked, false);
  }

  lemma ReplyKeepsFlights(s: State, f: Flight, check: Check)
    ensures var t := Resume(s, f, check); t.flights == s.flights && t.nextFlight == s.nextFlight
  {
    if IsActive(s, f.conv) {
      if f.evidence.Some? {
        GoOnKeepsFlights(Weigh(s, f), f, check, StallReason(f.goal, f.evidence.value));
      } else {
        GoOnKeepsFlights(s, f, check, None);
      }
    }
  }

  /** A step launches checks under new numbers only. */
  lemma StepLaunches(s: State, e: Event)
    requires Enabled(s, e)
    ensures s.nextFlight <= Step(s, e).nextFlight
    ensures forall i | i in Step(s, e).flights && i < s.nextFlight :: i in s.flights && s.flights[i] == Step(s, e).flights[i]
  {
    if e.CheckReplied? { ReplyKeepsFlights(Landed(s, e.flight), s.flights[e.flight], e.check); }
  }

  lemma {:induction false} RunLaunches(s: State, es: seq<Event>, n: nat)
    requires Admissible(s, es) && n <= s.nextFlight
    ensures forall i | i in Run(s, es).flights && i < n :: i in s.flights && s.flights[i] == Run(s, es).flights[i]
    decreases |es|
  {
    if es != [] {
      StepLaunches(s, es[0]);
      RunLaunches(Step(s, es[0]), es[1..], n);
    }
  }

  // ---- main results ----

  /** Whatever the old goal was, the reply of its check decides the new one: met for
   * the old goal is met for the new goal, which nobody checked. */
  lemma OldVerdictDecidesTheNewGoal(s: State, c: ConvId, text: string, until: string, i: nat, check: Check)
    requires i in s.flights && s.flights[i].conv == c && check.met
    ensures var s1 := Step(s, StartGoal(c, text, until)); var reply := CheckReplied(i, check);
            && Enabled(s1, reply) && IsActive(s1, c) && s1.goals[c] == NewGoal(text, until)
            && c in Step(s1, reply).goals
            && Step(s1, reply).goals[c] == NewGoal(text, until).(status := Met, lastCheck := Some(check))
  {
    var t := Log(Put(s, c, NewGoal(text, until)), Started(c));
    SendKeepsFlights(t, t.picked, false);
    StartStands(t, c);
  }

  /** A check asked before a start can decide the new goal, then or at any later moment,
   * if and only if one of that chat is in flight at the start. Without one the start
   * keeps the loop sound; with one it does not. */
  lemma StartIsSafeExactlyWhenNoCheckIsInFlight(s: State, c: ConvId, text: string, until: string)
    requires Inv(s)
    ensures OldVerdictCanLand(s, c, text, until) <==> exists i :: i in s.flights && s.flights[i].conv == c
    ensures Inv(Step(s, StartGoal(c, text, until))) <==> !exists i :: i in s.flights && s.flights[i].conv == c
  {
    if i :| i in s.flights && s.flights[i].conv == c {
      OldVerdictLands(s, c, text, until, i);
      StartUnderACheck(s, c, text, until, i);
    } else {
      NoOldVerdictLands(s, c, text, until);
      StepKeeps(s, StartGoal(c, text, until));
    }
  }

  lemma OldVerdictLands(s: State, c: ConvId, text: string, until: string, i: nat)
    requires i in s.flights && s.flights[i].conv == c && i < s.nextFlight
    ensures OldVerdictCanLand(s, c, text, until)
  {
    var s1, check := Step(s, StartGoal(c, text, until)), Check(true, "", "");
    OldVerdictDecidesTheNewGoal(s, c, text, until, i, check);
    assert Admissible(s1, []) && Run(s1, []) == s1 && Decides(Run(s1, []), i, check, c);
  }

  lemma NoOldVerdictLands(s: State, c: ConvId, text: string, until: string)
    requires forall i | i in s.flights :: s.flights[i].conv != c
    ensures !OldVerdictCanLand(s, c, text, until)
  {
    var s1 := Step(s, StartGoal(c, text, until));
    forall es, i: nat, check | Admissible(s1, es) && i < s.nextFlight && Decides(Run(s1, es), i, check, c) ensures false {
      StepLaunches(s, StartGoal(c, text, until));
      RunLaunches(s1, es, s.nextFlight);
      var t := Run(s1, es);
      ReplyElsewhere(Landed(t, i), t.flights[i], check, c);
    }
  }

  lemma StartUnderACheck(s: State, c: ConvId, text: string, until: string, i: nat)
    requires i in s.flights && s.flights[i].conv == c
    ensures !Inv(Step(s, StartGoal(c, text, until)))
  {
    var s' := Step(s, StartGoal(c, text, until));
    assert s'.flights[i].conv == c && Going(s'.goals, c) && !s'.goals[c].checking;
  }

  /** Such a state is reached: start, run, stop, and start again before the reply. */
  lemma RestartLetsAnOldVerdictLand() returns (es: seq<Event>, s: State, reply: Event)
    ensures Admissible(Initial(Some("c")), es) && s == Step(Run(Initial(Some("c")), es), StartGoal("c", "new", "new"))
    ensures Enabled(s, reply) && reply.CheckReplied?
    ensures IsActive(s, "c") && s.goals["c"].text == "new"
    ensures "c" in Step(s, reply).goals && Step(s, reply).goals["c"] == s.goals["c"].(status := Met, lastCheck := Some(reply.check))
  {
    var end := RunEnd(None, false, None);
    var s0 := Initial(Some("c"));
    var e0, e1, e2, e3 := StartGoal("c", "old", "old"), TurnOver, RunEnded("c", end), StopGoal("c", false);
    var s1 := Step(s0, e0);
    var s2 := Step(s1, e1);
    var s3 := Step(s2, e2);
    RunCons(s3, e3, []);
    RunCons(s2, e2, [e3] + []);
    RunCons(s1, e1, [e2] + ([e3] + []));
    RunCons(s0, e0, [e1] + ([e2] + ([e3] + [])));
    es := [e0] + ([e1] + ([e2] + ([e3] + [])));
    s := Step(Step(s3, e3), StartGoal("c", "new", "new"));
    reply := CheckReplied(0, Check(true, "old is done", ""));
    assert s3.flights == map[0 := Flight("c", s2.goals["c"], None)];
  }

  lemma RunCons(s: State, e: Event, es: seq<Event>)
    requires Enabled(s, e) && KeptApart(s, e) && Admissible(Step(s, e), es)
    ensures Admissible(s, [e] + es) && Run(s, [e] + es) == Run(Step(s, e), es)
  {
    assert ([e] + es)[1..] == es;
  }
}
