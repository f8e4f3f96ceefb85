/** The goal loop as a state machine: what each atomic step does to the goals,
 * cut at the two awaits of `afterRun`. The class in GoalStore.dfy carries out
 * the same steps on mutable fields. */
module GoalLoop {
  import opened Seqs

  type ConvId = string

  const MAX_ROUNDS: nat := 5
  const MAX_QUIET_ROUNDS: nat := 2
  const MAX_SAME_WALL: nat := 3

  datatype Status = Active | Met | Stopped | Exhausted | Stalled
  datatype StopReason = Completed | Aborted | TimedOut | MaxSteps | Failed | Interrupted

  datatype Check = Check(met: bool, evidence: string, next: string)

  /** One error text: `key` is what `wallKey` makes of it, `words` what is quoted. */
  datatype Fault = Fault(key: string, words: string)
  datatype Evidence = Evidence(ok: nat, errors: seq<Fault>)

  datatype Goal = Goal(
    text: string,
    until: string,
    maxRounds: nat,
    round: nat,
    status: Status,
    lastCheck: Option<Check>,
    checking: bool,
    quiet: nat,
    walls: map<string, nat>,
    stalled: Option<string>
  )

  datatype RunEnd = RunEnd(stopReason: Option<StopReason>, awaitingApproval: bool, evidence: Option<Evidence>)

  function NewGoal(text: string, until: string): Goal {
    Goal(text, until, MAX_ROUNDS, 1, Active, None, false, 0, map[], None)
  }

  // ---- weighing one round ----

  function WallOf(walls: map<string, nat>, key: string): nat {
    if key in walls then walls[key] else 0
  }

  /** The error keys a round shows, each counted once; an empty key is no wall. */
  function Keys(errors: seq<Fault>): set<string> {
    set f | f in errors && f.key != "" :: f.key
  }

  function Raised(walls: map<string, nat>, errors: seq<Fault>): map<string, nat> {
    map k | k in walls.Keys + Keys(errors) :: WallOf(walls, k) + if k in Keys(errors) then 1 else 0
  }

  /** The words of the first error whose wall has been hit often enough. */
  function FirstWall(errors: seq<Fault>, walls: map<string, nat>): Option<string> {
    if errors == [] then None
    else if errors[0].key != "" && WallOf(walls, errors[0].key) >= MAX_SAME_WALL then Some(errors[0].words)
    else FirstWall(errors[1..], walls)
  }

  function Clip(words: string): string {
    if |words| <= 160 then words else words[..160]
  }

  const SAME_WALL := "I stopped after three identical errors: "
  const NO_PROGRESS := "I stopped because the last two rounds got nowhere: none of my tool calls worked."

  function QuietAfter(g: Goal, e: Evidence): nat {
    if e.ok > 0 then 0 else if g.round >= 2 then g.quiet + 1 else g.quiet
  }

  function StallReason(g: Goal, e: Evidence): Option<string> {
    var wall := FirstWall(e.errors, Raised(g.walls, e.errors));
    if wall.Some? then Some(SAME_WALL + Clip(wall.value))
    else if QuietAfter(g, e) >= MAX_QUIET_ROUNDS then Some(NO_PROGRESS)
    else None
  }

  // ---- the state and its steps ----

  datatype Line =
    | LeftChat
    | CouldNotCheck
    | Stuck(reason: string)
    | OutOfRounds(maxRounds: nat, next: string)
    | Continuing(round: nat, maxRounds: nat)

  /** What the loop did, in order: starts and weighed rounds, lines in the
   * transcript, outcomes reported, and continuations handed to `sendMessage`,
   * with the chat that is open then and whether a chat turn starts there. */
  datatype Entry =
    | Started(conv: ConvId)
    | Weighed(conv: ConvId, round: nat, evidence: Evidence)
    | Noted(conv: ConvId, line: Line)
    | Reported(conv: ConvId, status: Status)
    | Continued(conv: ConvId, round: nat, target: Option<ConvId>, taken: bool)

  /** What `sendMessage` resolves the picked model to. */
  datatype Picked = ChatModel | MediaModel | NoModel

  /** A check in flight: what `afterRun` keeps in its locals across the await. */
  datatype Flight = Flight(conv: ConvId, goal: Goal, evidence: Option<Evidence>)

  datatype State = State(
    goals: map<ConvId, Goal>,
    open: Option<ConvId>,
    busy: bool,
    picked: Picked,
    flights: map<nat, Flight>,
    nextFlight: nat,
    log: seq<Entry>
  )

  datatype Event =
    | RunEnded(conv: ConvId, end: RunEnd)
    | CheckReplied(flight: nat, check: Check)
    | CheckFailed(flight: nat)
    | StartGoal(conv: ConvId, text: string, until: string)
    | StopGoal(conv: ConvId, running: bool)
    | StopGenerating
    | UserSends(model: Picked, spoken: bool)
    | OpenChat(chat: Option<ConvId>)
    | PicksModel(picked: Picked)
    | OtherTurnStarts
    | TurnOver

  predicate IsActive(s: State, c: ConvId) {
    c in s.goals && s.goals[c].status == Active
  }

  function Put(s: State, c: ConvId, g: Goal): State {
    s.(goals := s.goals[c := g])
  }

  function Log(s: State, e: Entry): State {
    s.(log := s.log + [e])
  }

  /** A turn goes into the open chat, or nowhere while one is running. What a goal
   * ended with leaves the bar then. With a media model the words go to a media job,
   * which starts a turn of its own or does not; with no model there is no turn, and a
   * spoken one is refused at once. */
  function SendWith(s: State, model: Picked, spoken: bool): State {
    if s.open.None? || s.busy || (model == NoModel && spoken) then s
    else
      var c := s.open.value;
      s.(busy := model == ChatModel, goals := if c in s.goals && !IsActive(s, c) then s.goals - {c} else s.goals)
  }

  /** A turn of the goal loop, written and with the model picked. */
  function Send(s: State): State {
    SendWith(s, s.picked, false)
  }

  /** Whether such a turn starts a run in the chat. */
  predicate Takes(s: State) {
    s.open.Some? && !s.busy && s.picked == ChatModel
  }

  predicate Broken(end: RunEnd) {
    end.stopReason in {Some(Aborted), Some(Failed), Some(TimedOut)}
  }

  /** `afterRun` up to its check. */
  function AfterRun(s: State, c: ConvId, end: RunEnd): State {
    if !IsActive(s, c) || s.goals[c].checking then s
    else
      var g := s.goals[c];
      if Broken(end) then Put(s, c, g.(status := Stopped))
      else if s.open != Some(c) then Log(Put(s, c, g.(status := Stopped)), Noted(c, LeftChat))
      else if end.awaitingApproval then s
      else
        Put(s, c, g.(checking := true)).(
          flights := s.flights[s.nextFlight := Flight(c, g, end.evidence)],
          nextFlight := s.nextFlight + 1)
  }

  /** `afterRun` from a reply of the check on. */
  function Resume(s: State, f: Flight, check: Check): State {
    var c := f.conv;
    if !IsActive(s, c) then
      if c in s.goals then Put(s, c, s.goals[c].(checking := false)) else s
    else
      var g := s.goals[c].(checking := false);
      if check.met then Put(s, c, g.(status := Met, lastCheck := Some(check)))
      else if s.open != Some(c) then
        Log(Put(s, c, g.(status := Stopped, lastCheck := Some(check))), Noted(c, LeftChat))
      else if f.evidence.Some? then GoOn(Weigh(s, f), f, check, StallReason(f.goal, f.evidence.value))
      else GoOn(s, f, check, None)
  }

  function Weigh(s: State, f: Flight): State
    requires f.conv in s.goals && f.evidence.Some?
  {
    var e := f.evidence.value;
    var g := s.goals[f.conv].(quiet := QuietAfter(f.goal, e), walls := Raised(f.goal.walls, e.errors));
    Log(Put(s, f.conv, g), Weighed(f.conv, f.goal.round, e))
  }

  function GoOn(s: State, f: Flight, check: Check, stalled: Option<string>): State
    requires f.conv in s.goals
  {
    var c := f.conv;
    var g := s.goals[c].(checking := false, lastCheck := Some(check));
    if stalled.Some? then
      Log(Log(Put(s, c, g.(status := Stalled, stalled := stalled)), Noted(c, Stuck(stalled.value))), Reported(c, Stalled))
    else if f.goal.round >= f.goal.maxRounds then
      Log(Log(Put(s, c, g.(status := Exhausted)), Noted(c, OutOfRounds(f.goal.maxRounds, check.next))),
          Reported(c, Exhausted))
    else
      var s1 := Log(Put(s, c, g.(round := f.goal.round + 1)), Noted(c, Continuing(f.goal.round + 1, f.goal.maxRounds)));
      Send(Log(s1, Continued(c, f.goal.round + 1, s.open, Takes(s))))
  }

  /** `afterRun` when the check could not run. */
  function GiveUp(s: State, c: ConvId): State {
    Log(if c in s.goals then Put(s, c, s.goals[c].(checking := false, status := Stopped)) else s,
        Noted(c, CouldNotCheck))
  }

  function Stop(s: State, c: ConvId): State {
    if IsActive(s, c) then Put(s, c, s.goals[c].(status := Stopped, checking := false)) else s
  }

  function StopOpen(s: State): State {
    if s.open.Some? then Stop(s, s.open.value) else s
  }

  predicate Enabled(s: State, e: Event) {
    e.CheckReplied? || e.CheckFailed? ==> e.flight in s.flights
  }

  function Landed(s: State, i: nat): State {
    s.(flights := s.flights - {i})
  }

  function Step(s: State, e: Event): State
    requires Enabled(s, e)
  {
    match e
    case RunEnded(c, end) => AfterRun(s, c, end)
    case CheckReplied(i, check) => Resume(Landed(s, i), s.flights[i], check)
    case CheckFailed(i) => GiveUp(Landed(s, i), s.flights[i].conv)
    case StartGoal(c, text, until) => Send(Log(Put(s, c, NewGoal(text, until)), Started(c)))
    case StopGoal(c, running) => if IsActive(s, c) && running then StopOpen(Stop(s, c)) else Stop(s, c)
    case StopGenerating => StopOpen(s)
    case UserSends(model, spoken) => SendWith(s, model, spoken)
    case OpenChat(chat) => s.(open := chat)
    case PicksModel(picked) => s.(picked := picked)
    case OtherTurnStarts => s.(busy := true)
    case TurnOver => s.(busy := false)
  }
}
