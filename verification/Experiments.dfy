/** The experiments registry: named switches over a dependency graph, kept in the
 * settings table, with the cascade that turns dependants off. */
module Experiments {
  import opened Seqs
  import opened Text

  datatype Requirement =
    | DecisionModel
    | Vision
    | Provider(id: string)
    | OtherExperiment(id: string)
    | MailAccount

  datatype Experiment = Experiment(id: string, title: string, needs: seq<Requirement>, defaultOn: bool)

  /** What this computer has: models, saved provider keys, a switched-on mail account. */
  datatype Facts = Facts(decisionModel: bool, vision: bool, keys: set<string>, mailAccount: bool)

  datatype Error = NoSuchExperiment(id: string) | Needs(title: string, missing: Requirement)
  datatype Outcome = Done | Refused(error: Error)

  datatype RequirementView = RequirementView(requirement: Requirement, met: bool)
  datatype ExperimentView = ExperimentView(id: string, on: bool, needs: seq<RequirementView>, canTurnOn: bool)

  type Registry = seq<Experiment>
  type Settings = map<string, string>

  const REGISTRY: Registry := [
    Experiment("fast-slow", "Fast & slow thinking", [DecisionModel], false),
    Experiment("mail-triage", "Mail triage", [DecisionModel, MailAccount], false),
    Experiment("relax-prompts", "Let quick decisions skip low-risk prompts",
               [DecisionModel, OtherExperiment("fast-slow")], false),
    Experiment("workspace", "Workspace mode", [], false)
  ]

  function SettingKey(id: string): string {
    "experiment." + id
  }

  function Lookup(reg: Registry, id: string): Option<Experiment> {
    Find(reg, (e: Experiment) => e.id == id)
  }

  function Stored(settings: Settings, key: string): Option<string> {
    if key in settings then Some(Trim(settings[key], RustSpace)) else None
  }

  predicate IsOn(reg: Registry, settings: Settings, id: string) {
    var e := Lookup(reg, id);
    e.Some? &&
    match Stored(settings, SettingKey(id))
    case Some("on") => true
    case Some("off") => false
    case _ => e.value.defaultOn
  }

  predicate Met(reg: Registry, settings: Settings, facts: Facts, r: Requirement) {
    match r
    case DecisionModel => facts.decisionModel
    case Vision => facts.vision
    case Provider(id) => id in facts.keys
    case OtherExperiment(id) => IsOn(reg, settings, id)
    case MailAccount => facts.mailAccount
  }

  function View(reg: Registry, settings: Settings, facts: Facts, e: Experiment): ExperimentView {
    var needs := Map(e.needs, r => RequirementView(r, Met(reg, settings, facts, r)));
    ExperimentView(e.id, IsOn(reg, settings, e.id), needs, forall v | v in needs :: v.met)
  }

  /** `list_in`: one card per experiment. */
  function List(reg: Registry, settings: Settings, facts: Facts): seq<ExperimentView> {
    Map(reg, e => View(reg, settings, facts, e))
  }

  // ---- the graph ----

  ghost predicate UniqueIds(reg: Registry) {
    forall i, j | 0 <= i < j < |reg| :: reg[i].id != reg[j].id
  }

  ghost predicate Edge(reg: Registry, a: string, b: string) {
    exists e :: e in reg && e.id == a && OtherExperiment(b) in e.needs
  }

  ghost predicate Chain(reg: Registry, path: seq<string>) {
    |path| >= 2 && forall i | 0 <= i < |path| - 1 :: Edge(reg, path[i], path[i + 1])
  }

  /** `a` needs `b`, directly or through others. */
  ghost predicate DependsOn(reg: Registry, a: string, b: string) {
    exists path :: Chain(reg, path) && path[0] == a && path[|path| - 1] == b
  }

  ghost predicate Acyclic(reg: Registry) {
    forall a :: !DependsOn(reg, a, a)
  }

  ghost function Ids(reg: Registry): set<string> {
    set e | e in reg :: e.id
  }

  ghost function Dependants(reg: Registry, id: string): set<string> {
    set x | x in Ids(reg) && DependsOn(reg, x, id)
  }

  lemma EdgeDepends(reg: Registry, a: string, b: string)
    requires Edge(reg, a, b)
    ensures DependsOn(reg, a, b)
  {
    assert Chain(reg, [a, b]);
  }

  lemma DependsTransitive(reg: Registry, a: string, b: string, c: string)
    requires DependsOn(reg, a, b) && DependsOn(reg, b, c)
    ensures DependsOn(reg, a, c)
  {
    var p :| Chain(reg, p) && p[0] == a && p[|p| - 1] == b;
    var q :| Chain(reg, q) && q[0] == b && q[|q| - 1] == c;
    var path := p + q[1..];
    forall i | 0 <= i < |path| - 1 ensures Edge(reg, path[i], path[i + 1]) {
      if i >= |p| - 1 { assert path[i] == q[i - |p| + 1] && path[i + 1] == q[i - |p| + 2]; }
    }
    assert Chain(reg, path);
  }

  /** A dependant of `id` is a direct one, or depends on a direct one. */
  lemma DependsThroughDirect(reg: Registry, x: string, id: string)
    requires DependsOn(reg, x, id)
    ensures exists d :: Edge(reg, d, id) && (x == d || DependsOn(reg, x, d))
  {
    var p :| Chain(reg, p) && p[0] == x && p[|p| - 1] == id;
    var d := p[|p| - 2];
    assert Edge(reg, d, p[|p| - 2 + 1]);
    if |p| > 2 { assert Chain(reg, p[..|p| - 1]); }
  }

  /** The measure of the cascade: a direct dependant has strictly fewer dependants. */
  lemma DependantsShrink(reg: Registry, d: string, id: string)
    requires Acyclic(reg) && Edge(reg, d, id)
    ensures Dependants(reg, d) < Dependants(reg, id)
    ensures |Dependants(reg, d)| < |Dependants(reg, id)|
  {
    EdgeDepends(reg, d, id);
    forall x | x in Dependants(reg, d) ensures x in Dependants(reg, id) {
      DependsTransitive(reg, x, d, id);
    }
    assert d in Dependants(reg, id) && d !in Dependants(reg, d);
    SubsetSize(Dependants(reg, d), Dependants(reg, id));
  }

  lemma {:induction false} SubsetSize<T>(a: set<T>, b: set<T>)
    requires a < b
    ensures |a| < |b|
  {
    if a == {} {
    } else {
      var x :| x in a;
      SubsetSize(a - {x}, b - {x});
    }
  }

  // ---- setting a switch ----

  ghost function MarkOff(settings: Settings, ids: set<string>): Settings {
    settings + map x | x in ids :: SettingKey(x) := "off"
  }

  lemma KeyInjective(a: string, b: string)
    requires SettingKey(a) == SettingKey(b)
    ensures a == b
  {
    assert a == SettingKey(a)[11..] && b == SettingKey(b)[11..];
  }

  lemma MarkOffTwice(settings: Settings, a: set<string>, b: set<string>)
    ensures MarkOff(MarkOff(settings, a), b) == MarkOff(settings, a + b)
  {
    assert MarkOff(MarkOff(settings, a), b).Keys == MarkOff(settings, a + b).Keys;
  }

  lemma LookupUnique(reg: Registry, e: Experiment)
    requires UniqueIds(reg) && e in reg
    ensures Lookup(reg, e.id) == Some(e)
  {
    FindUnique(reg, (x: Experiment) => x.id == e.id, e);
  }

  lemma LookupSound(reg: Registry, id: string)
    ensures Lookup(reg, id).Some? ==> Lookup(reg, id).value in reg && Lookup(reg, id).value.id == id
    ensures Lookup(reg, id).Some? <==> id in Ids(reg)
  {
    FindSound(reg, (e: Experiment) => e.id == id);
  }

  lemma MarkOffOne(settings: Settings, id: string)
    ensures MarkOff(settings, {id}) == settings[SettingKey(id) := "off"]
  {
  }

  // ---- the cascade ----

  /** The direct dependants among the first `i` experiments are off, with all theirs. */
  ghost predicate Covers(reg: Registry, id: string, done: set<string>, i: nat)
    requires i <= |reg|
  {
    && {id} <= done <= {id} + Dependants(reg, id)
    && forall j | 0 <= j < i && OtherExperiment(id) in reg[j].needs ::
         {reg[j].id} + Dependants(reg, reg[j].id) <= done
  }

  lemma CascadeStep(reg: Registry, id: string, done: set<string>, i: nat)
    requires Acyclic(reg) && i < |reg| && OtherExperiment(id) in reg[i].needs && Covers(reg, id, done, i)
    ensures Covers(reg, id, done + ({reg[i].id} + Dependants(reg, reg[i].id)), i + 1)
    ensures |Dependants(reg, reg[i].id)| < |Dependants(reg, id)|
  {
    var d := reg[i].id;
    assert Edge(reg, d, id);
    DependantsShrink(reg, d, id);
    EdgeDepends(reg, d, id);
  }

  lemma CascadeComplete(reg: Registry, id: string, done: set<string>)
    requires Covers(reg, id, done, |reg|)
    ensures done == {id} + Dependants(reg, id)
  {
    forall x | x in Dependants(reg, id) ensures x in done {
      DependsThroughDirect(reg, x, id);
      var d :| Edge(reg, d, id) && (x == d || DependsOn(reg, x, d));
      var e :| e in reg && e.id == d && OtherExperiment(id) in e.needs;
      var j :| 0 <= j < |reg| && reg[j] == e;
      assert x in {d} + Dependants(reg, d);
    }
  }

  lemma AfterSetOff(reg: Registry, settings: Settings, e: Experiment, facts: Facts)
    requires UniqueIds(reg) && e in reg
    ensures SetOutcome(reg, settings, e.id, false, facts) == Done
    ensures AfterSet(reg, settings, e.id, false, facts) == MarkOff(settings, {e.id} + Dependants(reg, e.id))
  {
    LookupUnique(reg, e);
  }

  function FirstUnmet(reg: Registry, settings: Settings, facts: Facts, e: Experiment): Option<Requirement> {
    Find(e.needs, r => !Met(reg, settings, facts, r))
  }

  function SetOutcome(reg: Registry, settings: Settings, id: string, on: bool, facts: Facts): Outcome {
    var e := Lookup(reg, id);
    if e.None? then Refused(NoSuchExperiment(id))
    else
      var missing := FirstUnmet(reg, settings, facts, e.value);
      if on && missing.Some? then Refused(Needs(e.value.title, missing.value)) else Done
  }

  /** What `set` leaves in the table, said without the cascade. */
  ghost function AfterSet(reg: Registry, settings: Settings, id: string, on: bool, facts: Facts): Settings {
    if SetOutcome(reg, settings, id, on, facts).Refused? then settings
    else if on then settings[SettingKey(id) := "on"]
    else MarkOff(settings, {id} + Dependants(reg, id))
  }

  // ---- migration ----

  const MIGRATED_KEY := "experiments.migrated"
  const VERIFY_FOLDED_KEY := "experiments.verify-folded"

  function Folded(settings: Settings): Settings {
    if VERIFY_FOLDED_KEY in settings then settings
    else
      var key := SettingKey("verify");
      var s1 := if Stored(settings, key) == Some("on") then settings[SettingKey("fast-slow") := "on"] else settings;
      (s1 - {key})[VERIFY_FOLDED_KEY := "1"]
  }

  function Migrated(settings: Settings, usedWorkspace: bool): Settings {
    var s1 := Folded(settings);
    if MIGRATED_KEY in s1 then s1
    else
      var key := SettingKey("workspace");
      var s2 := if key in s1 then s1 else s1[key := if usedWorkspace then "on" else "off"];
      s2[MIGRATED_KEY := "1"]
  }

  // ---- the table, written step by step ----

  class Db {
    var settings: Settings
    var workspaceChats: bool

    method SetIn(reg: Registry, id: string, on: bool, facts: Facts) returns (r: Outcome)
      requires UniqueIds(reg) && Acyclic(reg)
      modifies this`settings
      ensures r == SetOutcome(reg, old(settings), id, on, facts)
      ensures settings == AfterSet(reg, old(settings), id, on, facts)
      decreases if on then 0 else 1 + |Dependants(reg, id)|
    {
      var found := Lookup(reg, id);
      if found.None? { return Refused(NoSuchExperiment(id)); }
      var exp := found.value;
      LookupSound(reg, id);
      if on {
        var missing := FirstUnmet(reg, settings, facts, exp);
        if missing.Some? { return Refused(Needs(exp.title, missing.value)); }
      }
      settings := settings[SettingKey(id) := if on then "on" else "off"];
      if !on {
        ghost var done := {id};
        MarkOffOne(old(settings), id);
        for i := 0 to |reg|
          invariant settings == MarkOff(old(settings), done)
          invariant Covers(reg, id, done, i)
        {
          if OtherExperiment(id) in reg[i].needs {
            ghost var more := {reg[i].id} + Dependants(reg, reg[i].id);
            CascadeStep(reg, id, done, i);
            AfterSetOff(reg, settings, reg[i], facts);
            var _ := SetIn(reg, reg[i].id, false, facts);
            MarkOffTwice(old(settings), done, more);
            done := done + more;
          }
        }
        CascadeComplete(reg, id, done);
      }
      return Done;
    }

    method FoldVerify()
      modifies this`settings
      ensures settings == Folded(old(settings))
    {
      if VERIFY_FOLDED_KEY in settings { return; }
      var key := SettingKey("verify");
      if key in settings && Trim(settings[key], RustSpace) == "on" {
        settings := settings[SettingKey("fast-slow") := "on"];
      }
      settings := settings - {key};
      settings := settings[VERIFY_FOLDED_KEY := "1"];
    }

    method Migrate()
      modifies this`settings
      ensures settings == Migrated(old(settings), workspaceChats)
    {
      FoldVerify();
      if MIGRATED_KEY in settings { return; }
      var key := SettingKey("workspace");
      if key !in settings {
        settings := settings[key := if workspaceChats then "on" else "off"];
      }
      settings := settings[MIGRATED_KEY := "1"];
    }
  }

  // ---- main results ----

  /** Turning one off leaves on exactly the experiments that were on and do not
   * depend on it, directly or through others. */
  lemma OffTakesExactlyTheDependants(reg: Registry, settings: Settings, id: string, facts: Facts, x: string)
    requires id in Ids(reg)
    ensures SetOutcome(reg, settings, id, false, facts) == Done
    ensures IsOn(reg, AfterSet(reg, settings, id, false, facts), x)
            <==> IsOn(reg, settings, x) && x != id && !DependsOn(reg, x, id)
  {
    LookupSound(reg, id);
    LookupSound(reg, x);
    var off := {id} + Dependants(reg, id);
    if x in Ids(reg) {
      MarkOffReads(reg, settings, off, x);
    }
  }

  lemma MarkOffReads(reg: Registry, settings: Settings, off: set<string>, x: string)
    ensures IsOn(reg, MarkOff(settings, off), x) <==> IsOn(reg, settings, x) && x !in off
  {
    var m := map y | y in off :: SettingKey(y) := "off";
    if SettingKey(x) in m {
      var y :| y in off && SettingKey(y) == SettingKey(x);
      KeyInjective(x, y);
    }
    assert x in off ==> SettingKey(x) in m;
    assert Trim("off", RustSpace) == "off";
  }

  /** `set(id, true)` succeeds exactly when the list says the switch may be turned on,
   * and a refused `set` changes nothing. */
  lemma SetAgreesWithList(reg: Registry, settings: Settings, id: string, facts: Facts)
    requires UniqueIds(reg)
    ensures SetOutcome(reg, settings, id, true, facts).Done?
            <==> exists v :: v in List(reg, settings, facts) && v.id == id && v.canTurnOn
    ensures SetOutcome(reg, settings, id, true, facts).Done?
            ==> IsOn(reg, AfterSet(reg, settings, id, true, facts), id)
    ensures forall on :: SetOutcome(reg, settings, id, on, facts).Refused? ==>
              AfterSet(reg, settings, id, on, facts) == settings
  {
    LookupSound(reg, id);
    if id in Ids(reg) {
      TurnsOnWhenMet(reg, settings, id, facts);
      CardOf(reg, settings, facts, Lookup(reg, id).value);
      CanTurnOnMeansAllMet(reg, settings, facts, Lookup(reg, id).value);
    } else {
      NoCardOf(reg, settings, facts, id);
    }
  }

  /** What each kind of requirement asks of the computer and of the other switches. */
  ghost predicate NeedsHold(reg: Registry, settings: Settings, facts: Facts, needs: seq<Requirement>) {
    && (DecisionModel in needs ==> facts.decisionModel)
    && (Vision in needs ==> facts.vision)
    && (MailAccount in needs ==> facts.mailAccount)
    && (forall p | Provider(p) in needs :: p in facts.keys)
    && (forall x | OtherExperiment(x) in needs :: IsOn(reg, settings, x))
  }

  lemma AllMetIsNeedsHold(reg: Registry, settings: Settings, facts: Facts, needs: seq<Requirement>)
    ensures (forall r | r in needs :: Met(reg, settings, facts, r)) <==> NeedsHold(reg, settings, facts, needs)
  {
    if forall r | r in needs :: Met(reg, settings, facts, r) {
      forall p | Provider(p) in needs ensures p in facts.keys { assert Met(reg, settings, facts, Provider(p)); }
      forall x | OtherExperiment(x) in needs ensures IsOn(reg, settings, x) {
        assert Met(reg, settings, facts, OtherExperiment(x));
      }
    }
  }

  /** Turning on succeeds exactly when the experiment is registered and everything it
   * needs holds, each kind of need on its own fact; then "on" is written under the
   * experiment's key and nothing else changes. */
  lemma TurnsOnExactlyWhenItsNeedsHold(reg: Registry, settings: Settings, id: string, facts: Facts)
    requires UniqueIds(reg)
    ensures SetOutcome(reg, settings, id, true, facts).Done?
            <==> exists e :: e in reg && e.id == id && NeedsHold(reg, settings, facts, e.needs)
    ensures SetOutcome(reg, settings, id, true, facts).Done?
            ==> AfterSet(reg, settings, id, true, facts) == settings["experiment." + id := "on"]
  {
    LookupSound(reg, id);
    if id in Ids(reg) {
      var e := Lookup(reg, id).value;
      TurnsOnWhenMet(reg, settings, id, facts);
      AllMetIsNeedsHold(reg, settings, facts, e.needs);
      forall x | x in reg && x.id == id ensures x == e { LookupUnique(reg, x); }
    }
  }

  /** `r`, the `n`th of the needs, fails, and the ones before it hold. */
  ghost predicate FirstToFail(
    reg: Registry, settings: Settings, facts: Facts, needs: seq<Requirement>, n: int, r: Requirement)
  {
    && 0 <= n < |needs| && needs[n] == r
    && !NeedsHold(reg, settings, facts, [r]) && NeedsHold(reg, settings, facts, needs[..n])
  }

  /** A refusal names an experiment nobody registered, or the first need that fails. */
  lemma RefusalNamesTheFirstUnmetNeed(reg: Registry, settings: Settings, id: string, on: bool, facts: Facts)
    requires UniqueIds(reg) && SetOutcome(reg, settings, id, on, facts).Refused?
    ensures match SetOutcome(reg, settings, id, on, facts).error
            case NoSuchExperiment(x) => x == id && forall e | e in reg :: e.id != id
            case Needs(title, r) =>
              on && exists e, n :: e in reg && e.id == id && e.title == title && FirstToFail(reg, settings, facts, e.needs, n, r)
  {
    LookupSound(reg, id);
    if id in Ids(reg) {
      var e := Lookup(reg, id).value;
      var n := FirstUnmetReads(reg, settings, facts, e.needs);
      AllMetIsNeedsHold(reg, settings, facts, e.needs[..n]);
      AllMetIsNeedsHold(reg, settings, facts, [e.needs[n]]);
      assert e.needs[n] in [e.needs[n]];
      assert FirstToFail(reg, settings, facts, e.needs, n, e.needs[n]);
    }
  }

  lemma {:induction false} FirstUnmetReads(reg: Registry, settings: Settings, facts: Facts, needs: seq<Requirement>)
    returns (n: nat)
    requires Find(needs, r => !Met(reg, settings, facts, r)).Some?
    ensures n < |needs| && needs[n] == Find(needs, r => !Met(reg, settings, facts, r)).value
    ensures !Met(reg, settings, facts, needs[n]) && forall r | r in needs[..n] :: Met(reg, settings, facts, r)
  {
    if !Met(reg, settings, facts, needs[0]) {
      n := 0;
    } else {
      var k := FirstUnmetReads(reg, settings, facts, needs[1..]);
      n := k + 1;
      assert needs[..n] == [needs[0]] + needs[1..][..k];
    }
  }

  /** The card of the `i`th experiment: its own id, whether it is on, each of its needs
   * in order with its own truth, and that it may be turned on when all of them hold. */
  lemma CardShows(reg: Registry, settings: Settings, facts: Facts, i: nat)
    requires i < |reg|
    ensures var cards := List(reg, settings, facts);
            && |cards| == |reg| && cards[i].id == reg[i].id && cards[i].on == IsOn(reg, settings, reg[i].id)
            && |cards[i].needs| == |reg[i].needs|
            && (forall n | 0 <= n < |reg[i].needs| ::
                  && cards[i].needs[n].requirement == reg[i].needs[n]
                  && (cards[i].needs[n].met <==> NeedsHold(reg, settings, facts, [reg[i].needs[n]])))
            && (cards[i].canTurnOn <==> NeedsHold(reg, settings, facts, reg[i].needs))
  {
    var e := reg[i];
    CanTurnOnMeansAllMet(reg, settings, facts, e);
    AllMetIsNeedsHold(reg, settings, facts, e.needs);
    forall n | 0 <= n < |e.needs|
      ensures Met(reg, settings, facts, e.needs[n]) <==> NeedsHold(reg, settings, facts, [e.needs[n]])
    {
      AllMetIsNeedsHold(reg, settings, facts, [e.needs[n]]);
      assert e.needs[n] in [e.needs[n]];
    }
  }

  /** A stored "on" or "off" wins over the default, white space around it aside; any
   * other text does not; an id nobody registered is off. */
  lemma StoredChoiceWins(reg: Registry, settings: Settings, e: Experiment, lead: string, tail: string)
    requires UniqueIds(reg) && e in reg
    requires forall c | c in lead + tail :: RustSpace(c)
    ensures IsOn(reg, settings["experiment." + e.id := lead + "on" + tail], e.id)
    ensures !IsOn(reg, settings["experiment." + e.id := lead + "off" + tail], e.id)
    ensures "experiment." + e.id !in settings ==> IsOn(reg, settings, e.id) == e.defaultOn
    ensures forall id | id !in Ids(reg) :: !IsOn(reg, settings, id)
  {
    LookupUnique(reg, e);
    forall c | c in lead ensures RustSpace(c) { assert c in lead + tail; }
    forall c | c in tail ensures RustSpace(c) { assert c in lead + tail; }
    TrimTakesBothEnds(lead, "on", tail, RustSpace);
    TrimTakesBothEnds(lead, "off", tail, RustSpace);
    forall id | id !in Ids(reg) ensures !IsOn(reg, settings, id) { LookupSound(reg, id); }
  }

  lemma TurnsOnWhenMet(reg: Registry, settings: Settings, id: string, facts: Facts)
    requires Lookup(reg, id).Some? && Lookup(reg, id).value.id == id
    ensures SetOutcome(reg, settings, id, true, facts).Done?
            <==> forall r | r in Lookup(reg, id).value.needs :: Met(reg, settings, facts, r)
    ensures SetOutcome(reg, settings, id, true, facts).Done?
            ==> IsOn(reg, AfterSet(reg, settings, id, true, facts), id)
  {
    FindSound(Lookup(reg, id).value.needs, r => !Met(reg, settings, facts, r));
    assert Trim("on", RustSpace) == "on";
  }

  /** The list has one card for each experiment, and it is the experiment's own. */
  lemma CardOf(reg: Registry, settings: Settings, facts: Facts, e: Experiment)
    requires UniqueIds(reg) && e in reg
    ensures forall v :: v in List(reg, settings, facts) && v.id == e.id <==> v == View(reg, settings, facts, e)
  {
    var cards := List(reg, settings, facts);
    var i :| 0 <= i < |reg| && reg[i] == e;
    assert cards[i] == View(reg, settings, facts, e) && cards[i] in cards;
    forall v | v in cards && v.id == e.id ensures v == cards[i] {
      var j :| 0 <= j < |cards| && cards[j] == v;
      assert reg[j].id == reg[i].id;
    }
  }

  lemma NoCardOf(reg: Registry, settings: Settings, facts: Facts, id: string)
    requires id !in Ids(reg)
    ensures forall v | v in List(reg, settings, facts) :: v.id != id
  {
    var cards := List(reg, settings, facts);
    forall v | v in cards ensures v.id != id {
      var j :| 0 <= j < |cards| && cards[j] == v;
      assert reg[j] in reg;
    }
  }

  lemma CanTurnOnMeansAllMet(reg: Registry, settings: Settings, facts: Facts, e: Experiment)
    ensures View(reg, settings, facts, e).canTurnOn <==> forall r | r in e.needs :: Met(reg, settings, facts, r)
  {
    var v := View(reg, settings, facts, e);
    forall r | r in e.needs ensures RequirementView(r, Met(reg, settings, facts, r)) in v.needs {
      var i :| 0 <= i < |e.needs| && e.needs[i] == r;
      assert v.needs[i] == RequirementView(r, Met(reg, settings, facts, r));
    }
    forall w | w in v.needs ensures w.requirement in e.needs && w.met == Met(reg, settings, facts, w.requirement) {
      var i :| 0 <= i < |v.needs| && v.needs[i] == w;
      assert e.needs[i] == w.requirement;
    }
  }

  /** An experiment that is on has every experiment it requires on. */
  ghost predicate Closed(reg: Registry, settings: Settings) {
    forall e, r | e in reg && OtherExperiment(r) in e.needs :: IsOn(reg, settings, e.id) ==> IsOn(reg, settings, r)
  }

  lemma SetKeepsClosed(reg: Registry, settings: Settings, id: string, on: bool, facts: Facts)
    requires UniqueIds(reg) && Closed(reg, settings)
    ensures Closed(reg, AfterSet(reg, settings, id, on, facts))
  {
    if SetOutcome(reg, settings, id, on, facts).Done? {
      var s' := AfterSet(reg, settings, id, on, facts);
      LookupSound(reg, id);
      var it := Lookup(reg, id).value;
      forall e, r | e in reg && OtherExperiment(r) in e.needs && IsOn(reg, s', e.id) ensures IsOn(reg, s', r) {
        if on {
          OnReads(reg, settings, id, e.id);
          OnReads(reg, settings, id, r);
          if e.id == id {
            LookupUnique(reg, e);
            FindSound(it.needs, q => !Met(reg, settings, facts, q));
            assert Met(reg, settings, facts, OtherExperiment(r));
          }
        } else {
          OffTakesExactlyTheDependants(reg, settings, id, facts, e.id);
          OffTakesExactlyTheDependants(reg, settings, id, facts, r);
          assert Edge(reg, e.id, r);
          EdgeDepends(reg, e.id, r);
          if DependsOn(reg, r, id) { DependsTransitive(reg, e.id, r, id); }
        }
      }
    }
  }

  lemma OnReads(reg: Registry, settings: Settings, id: string, x: string)
    requires id in Ids(reg)
    ensures IsOn(reg, settings[SettingKey(id) := "on"], x) <==> IsOn(reg, settings, x) || x == id
  {
    if SettingKey(x) == SettingKey(id) { KeyInjective(x, id); }
    LookupSound(reg, x);
    assert Trim("on", RustSpace) == "on";
  }

  /** What happens to the table: switches, the startup migration, other writers. */
  datatype Op =
    | Set(id: string, on: bool, facts: Facts)
    | Migrate(usedWorkspace: bool)
    | Write(key: string, value: string)

  ghost predicate Allowed(reg: Registry, op: Op) {
    op.Write? ==> forall e | e in reg :: op.key != SettingKey(e.id)
  }

  ghost function Apply(reg: Registry, settings: Settings, op: Op): Settings {
    match op
    case Set(id, on, facts) => AfterSet(reg, settings, id, on, facts)
    case Migrate(used) => Migrated(settings, used)
    case Write(key, value) => settings[key := value]
  }

  ghost function ApplyAll(reg: Registry, settings: Settings, ops: seq<Op>): Settings
    decreases |ops|
  {
    if ops == [] then settings else ApplyAll(reg, Apply(reg, settings, ops[0]), ops[1..])
  }

  /** The two switches the migration may write need no other experiment, and turning
   * workspace off at first start cannot strand one that needs it. */
  ghost predicate MigrationSafe(reg: Registry) {
    forall e | e in reg ::
      && (e.id in {"fast-slow", "workspace"} ==> forall r :: OtherExperiment(r) !in e.needs)
      && OtherExperiment("workspace") !in e.needs
      && e.id != "verify"
  }

  lemma KeysApart(x: string)
    ensures SettingKey(x) != VERIFY_FOLDED_KEY && SettingKey(x) != MIGRATED_KEY
  {
    assert SettingKey(x)[10] == '.' && VERIFY_FOLDED_KEY[10] == 's' && MIGRATED_KEY[10] == 's';
  }

  /** What the migration makes of a switch: on, off, or `None` for as it was. */
  function Rewritten(reg: Registry, settings: Settings, used: bool, x: string): Option<bool> {
    var e := Lookup(reg, x);
    var folds := VERIFY_FOLDED_KEY !in settings;
    if e.None? then None
    else if x == "verify" && folds then Some(e.value.defaultOn)
    else if x == "fast-slow" && folds && Stored(settings, SettingKey("verify")) == Some("on") then Some(true)
    else if x == "workspace" && MIGRATED_KEY !in settings && SettingKey(x) !in settings then Some(used)
    else None
  }

  lemma FoldReads(reg: Registry, settings: Settings, x: string)
    ensures var s1, key := Folded(settings), SettingKey(x);
            && (MIGRATED_KEY in s1 <==> MIGRATED_KEY in settings)
            && (VERIFY_FOLDED_KEY !in settings && x == "verify" ==> key !in s1)
            && (VERIFY_FOLDED_KEY !in settings && x == "fast-slow" && Stored(settings, SettingKey("verify")) == Some("on") ==>
                  key in s1 && s1[key] == "on")
            && (VERIFY_FOLDED_KEY in settings || (x != "verify" && x != "fast-slow") ||
                (x == "fast-slow" && Stored(settings, SettingKey("verify")) != Some("on")) ==>
                  (key in s1 <==> key in settings) && (key in s1 ==> s1[key] == settings[key]))
  {
    KeysApart(x);
    KeysApart("verify");
    KeysApart("fast-slow");
    if SettingKey(x) == SettingKey("verify") { KeyInjective(x, "verify"); }
    if SettingKey(x) == SettingKey("fast-slow") { KeyInjective(x, "fast-slow"); }
  }

  lemma MigratedReads(settings: Settings, used: bool, x: string)
    ensures var s1, s2, key := Folded(settings), Migrated(settings, used), SettingKey(x);
            if x == "workspace" && MIGRATED_KEY !in s1 && key !in s1 then
              key in s2 && s2[key] == if used then "on" else "off"
            else (key in s2 <==> key in s1) && (key in s2 ==> s2[key] == s1[key])
  {
    KeysApart(x);
    if SettingKey(x) == SettingKey("workspace") { KeyInjective(x, "workspace"); }
  }

  /** The migration, read switch by switch. */
  lemma MigrationReads(reg: Registry, settings: Settings, used: bool, x: string)
    ensures var r := Rewritten(reg, settings, used, x);
            IsOn(reg, Migrated(settings, used), x) == if r.Some? then r.value else IsOn(reg, settings, x)
  {
    FoldReads(reg, settings, x);
    MigratedReads(settings, used, x);
    assert Trim("on", RustSpace) == "on" && Trim("off", RustSpace) == "off";
  }

  predicate TurnsOn(reg: Registry, settings: Settings, used: bool, x: string) {
    Rewritten(reg, settings, used, x) == Some(true) && !IsOn(reg, settings, x)
  }

  predicate TurnsOff(reg: Registry, settings: Settings, used: bool, x: string) {
    Rewritten(reg, settings, used, x) == Some(false) && IsOn(reg, settings, x)
  }

  /** `x` needs `r`: the migration does not turn `x` on without `r`, nor `r` off under `x`. */
  predicate EdgeFits(reg: Registry, settings: Settings, used: bool, x: string, r: string) {
    && (TurnsOn(reg, settings, used, x) ==>
          TurnsOn(reg, settings, used, r) || (IsOn(reg, settings, r) && !TurnsOff(reg, settings, used, r)))
    && (TurnsOff(reg, settings, used, r) && IsOn(reg, settings, x) ==> TurnsOff(reg, settings, used, x))
  }

  /** Nothing the migration turns on lacks a requirement, and nothing that stays on
   * needs what it turns off. */
  ghost predicate MigrationFits(reg: Registry, settings: Settings, used: bool) {
    forall e, r | e in reg && OtherExperiment(r) in e.needs :: EdgeFits(reg, settings, used, e.id, r)
  }

  /** The migration keeps what is on consistent exactly when it fits the switches as
   * they are, which it always does when the registry leaves the ones it may write
   * unrelated. */
  lemma MigrateKeepsClosed(reg: Registry, settings: Settings, used: bool)
    requires Closed(reg, settings)
    ensures Closed(reg, Migrated(settings, used)) <==> MigrationFits(reg, settings, used)
    ensures MigrationSafe(reg) ==> MigrationFits(reg, settings, used)
  {
    var s' := Migrated(settings, used);
    forall e, r | e in reg && OtherExperiment(r) in e.needs
      ensures (IsOn(reg, s', e.id) ==> IsOn(reg, s', r)) <==> EdgeFits(reg, settings, used, e.id, r)
    {
      assert IsOn(reg, settings, e.id) ==> IsOn(reg, settings, r);
      MigrationFitsEdge(reg, settings, used, e.id, r);
    }
    if MigrationSafe(reg) { SafeMigrationFits(reg, settings, used); }
  }

  lemma MigrationFitsEdge(reg: Registry, settings: Settings, used: bool, x: string, r: string)
    requires IsOn(reg, settings, x) ==> IsOn(reg, settings, r)
    ensures (IsOn(reg, Migrated(settings, used), x) ==> IsOn(reg, Migrated(settings, used), r))
            <==> EdgeFits(reg, settings, used, x, r)
  {
    MigrationReads(reg, settings, used, x);
    MigrationReads(reg, settings, used, r);
  }

  lemma SafeMigrationFits(reg: Registry, settings: Settings, used: bool)
    requires MigrationSafe(reg)
    ensures MigrationFits(reg, settings, used)
  {
    LookupSound(reg, "verify");
  }

  /** Where it does not: the fold turns fast-slow on without what it needs here. */
  lemma TheFoldCanStrand()
    ensures var reg := [Experiment("base", "Base", [], false),
                        Experiment("fast-slow", "Fast & slow", [OtherExperiment("base")], false)];
            var settings := map[SettingKey("verify") := "on"];
            Closed(reg, settings) && !Closed(reg, Migrated(settings, false))
  {
    var base := Experiment("base", "Base", [], false);
    var top := Experiment("fast-slow", "Fast & slow", [OtherExperiment("base")], false);
    var reg, settings := [base, top], map[SettingKey("verify") := "on"];
    assert base in reg && top in reg && base.id != top.id;
    LookupUnique(reg, base);
    LookupUnique(reg, top);
    KeysApart("verify");
    if SettingKey("base") == SettingKey("verify") { KeyInjective("base", "verify"); }
    if SettingKey("fast-slow") == SettingKey("verify") { KeyInjective("fast-slow", "verify"); }
    assert Trim("on", RustSpace) == "on";
    MigrationReads(reg, settings, false, "base");
    MigrationReads(reg, settings, false, "fast-slow");
    assert OtherExperiment("base") in top.needs;
  }

  lemma WriteKeepsClosed(reg: Registry, settings: Settings, key: string, value: string)
    requires Closed(reg, settings) && forall e | e in reg :: key != SettingKey(e.id)
    ensures Closed(reg, settings[key := value])
  {
    forall x ensures IsOn(reg, settings[key := value], x) == IsOn(reg, settings, x) {
      LookupSound(reg, x);
    }
  }

  /** The run writes no switch behind the registry's back, and migrates only where
   * that fits. */
  ghost predicate Admissible(reg: Registry, settings: Settings, ops: seq<Op>)
    decreases |ops|
  {
    ops == [] ||
    (&& Allowed(reg, ops[0])
     && (ops[0].Migrate? ==> MigrationFits(reg, settings, ops[0].usedWorkspace))
     && Admissible(reg, Apply(reg, settings, ops[0]), ops[1..]))
  }

  /** Over every run of switches, migrations and other writes, an experiment that is
   * on has every experiment it requires on. */
  lemma {:induction false} EveryRunKeepsClosed(reg: Registry, settings: Settings, ops: seq<Op>)
    requires UniqueIds(reg) && Closed(reg, settings) && Admissible(reg, settings, ops)
    ensures Closed(reg, ApplyAll(reg, settings, ops))
    decreases |ops|
  {
    if ops != [] {
      var op := ops[0];
      if op.Set? {
        SetKeepsClosed(reg, settings, op.id, op.on, op.facts);
      } else if op.Migrate? {
        MigrateKeepsClosed(reg, settings, op.usedWorkspace);
      } else {
        WriteKeepsClosed(reg, settings, op.key, op.value);
      }
      EveryRunKeepsClosed(reg, Apply(reg, settings, op), ops[1..]);
    }
  }

  /** A registry that leaves the migrated switches unrelated admits every run. */
  lemma {:induction false} SafeRegistriesAdmitEveryRun(reg: Registry, settings: Settings, ops: seq<Op>)
    requires MigrationSafe(reg) && forall op | op in ops :: Allowed(reg, op)
    ensures Admissible(reg, settings, ops)
    decreases |ops|
  {
    if ops != [] {
      assert ops[0] in ops;
      if ops[0].Migrate? { SafeMigrationFits(reg, settings, ops[0].usedWorkspace); }
      SafeRegistriesAdmitEveryRun(reg, Apply(reg, settings, ops[0]), ops[1..]);
    }
  }

  lemma ShippedEdges(a: string, b: string)
    requires Edge(REGISTRY, a, b)
    ensures a == "relax-prompts" && b == "fast-slow"
  {
  }

  lemma ShippedIsAcyclic()
    ensures Acyclic(REGISTRY)
  {
    forall a ensures !DependsOn(REGISTRY, a, a) {
      if DependsOn(REGISTRY, a, a) {
        var p :| Chain(REGISTRY, p) && p[0] == a && p[|p| - 1] == a;
        ShippedEdges(p[0], p[0 + 1]);
        ShippedEdges(p[|p| - 2], p[|p| - 2 + 1]);
        assert false;
      }
    }
  }

  lemma ShippedIds()
    ensures UniqueIds(REGISTRY)
  {
    assert |REGISTRY[0].id| == 9 && |REGISTRY[1].id| == 11 && |REGISTRY[2].id| == 13;
    assert |REGISTRY[3].id| == 9 && REGISTRY[0].id[0] != REGISTRY[3].id[0];
  }

  /** The shipped registry is one the results apply to, and starts closed whatever
   * the table holds under other keys. */
  lemma ShippedRegistryQualifies(settings: Settings)
    requires forall e | e in REGISTRY :: SettingKey(e.id) !in settings
    ensures UniqueIds(REGISTRY) && Acyclic(REGISTRY) && MigrationSafe(REGISTRY)
    ensures Closed(REGISTRY, settings)
  {
    ShippedIds();
    ShippedIsAcyclic();
    forall e | e in REGISTRY ensures !IsOn(REGISTRY, settings, e.id) {
      LookupSound(REGISTRY, e.id);
      assert forall x | x in REGISTRY :: !x.defaultOn;
    }
  }

  /** What the app has: from defaults, over every run of the shipped switches, the
   * migration and writes to other settings, what is on has what it requires on. */
  lemma ShippedSwitchesStayClosed(settings: Settings, ops: seq<Op>)
    requires forall e | e in REGISTRY :: SettingKey(e.id) !in settings
    requires forall op | op in ops :: Allowed(REGISTRY, op)
    ensures Closed(REGISTRY, ApplyAll(REGISTRY, settings, ops))
  {
    ShippedRegistryQualifies(settings);
    SafeRegistriesAdmitEveryRun(REGISTRY, settings, ops);
    EveryRunKeepsClosed(REGISTRY, settings, ops);
  }

  /** Once it has run, the migration never writes again, whatever else was written
   * to settings other than its two markers. */
  lemma MigrationRunsOnce(before: Settings, used: bool, later: Settings, usedLater: bool)
    requires {"experiments.migrated", "experiments.verify-folded"} <= later.Keys
    ensures {"experiments.migrated", "experiments.verify-folded"} <= Migrated(before, used).Keys
    ensures Migrated(later, usedLater) == later
  {
    KeysApart("verify");
  }

  /** The migration never overwrites a choice already made for workspace, and turns
   * it on only for someone who has a Workspace chat. */
  lemma MigrationRespectsChoices(settings: Settings, used: bool)
    requires "experiments.migrated" !in settings
    ensures var key := "experiment.workspace";
            key in Migrated(settings, used) &&
            Migrated(settings, used)[key] == if key in settings then settings[key] else if used then "on" else "off"
    ensures "experiment.verify" in Migrated(settings, used) ==> "experiments.verify-folded" in settings
  {
    assert SettingKey("workspace") == "experiment.workspace" && SettingKey("verify") == "experiment.verify";
    var key := SettingKey("workspace");
    KeysApart("workspace");
    KeysApart("verify");
    assert key != SettingKey("verify") && key != SettingKey("fast-slow") by {
      if key == SettingKey("verify") { KeyInjective("workspace", "verify"); }
      if key == SettingKey("fast-slow") { KeyInjective("workspace", "fast-slow"); }
    }
    assert MIGRATED_KEY != SettingKey("fast-slow") by { KeysApart("fast-slow"); }
  }

  /** When each shipped switch can be turned on, from the facts alone. */
  lemma ShippedNeeds(settings: Settings, facts: Facts)
    ensures SetOutcome(REGISTRY, settings, "fast-slow", true, facts).Done? <==> facts.decisionModel
    ensures SetOutcome(REGISTRY, settings, "mail-triage", true, facts).Done? <==> facts.decisionModel && facts.mailAccount
    ensures SetOutcome(REGISTRY, settings, "relax-prompts", true, facts).Done?
            <==> facts.decisionModel && IsOn(REGISTRY, settings, "fast-slow")
    ensures SetOutcome(REGISTRY, settings, "workspace", true, facts).Done?
  {
    ShippedIds();
    forall i | 0 <= i < |REGISTRY| ensures Lookup(REGISTRY, REGISTRY[i].id) == Some(REGISTRY[i]) {
      LookupUnique(REGISTRY, REGISTRY[i]);
    }
    forall i: nat | i < |REGISTRY|
      ensures SetOutcome(REGISTRY, settings, REGISTRY[i].id, true, facts).Done?
              <==> NeedsHold(REGISTRY, settings, facts, REGISTRY[i].needs)
    {
      TurnsOnWhenMet(REGISTRY, settings, REGISTRY[i].id, facts);
      AllMetIsNeedsHold(REGISTRY, settings, facts, REGISTRY[i].needs);
    }
    assert REGISTRY[0].id == "fast-slow" && REGISTRY[1].id == "mail-triage";
    assert REGISTRY[2].id == "relax-prompts" && REGISTRY[3].id == "workspace";
    assert REGISTRY[0].needs[0] == DecisionModel && REGISTRY[1].needs[0] == DecisionModel;
    assert REGISTRY[1].needs[1] == MailAccount && REGISTRY[2].needs[0] == DecisionModel;
    assert REGISTRY[2].needs[1] == OtherExperiment("fast-slow");
  }

  /** Turning off writes "off" for the experiment and its dependants, and no other key. */
  lemma OffWritesOnlyItsSwitches(reg: Registry, settings: Settings, id: string, facts: Facts, key: string)
    requires id in Ids(reg)
    ensures var s' := AfterSet(reg, settings, id, false, facts);
            if exists x :: x in {id} + Dependants(reg, id) && key == "experiment." + x then key in s' && s'[key] == "off"
            else (key in s' <==> key in settings) && (key in s' ==> s'[key] == settings[key])
  {
    LookupSound(reg, id);
    var off := {id} + Dependants(reg, id);
    var m := map y | y in off :: SettingKey(y) := "off";
    assert key in m <==> exists x :: x in off && key == SettingKey(x);
    assert forall x :: SettingKey(x) == "experiment." + x;
  }
}
