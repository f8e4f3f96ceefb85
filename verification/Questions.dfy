/** The questions sub-agents ask: one on the card, the rest queued behind it, and
 * the single first-in first-out list the two fields stand for. */
module Questions {
  import opened Seqs

  datatype Question = Question(runId: string, id: string, words: string)
  datatype Presence = Idle | Busy | Listening | Reflecting | Tending | Healing

  datatype State = State(
    pending: Option<Question>,
    queued: seq<Question>,
    presence: Presence,
    busy: bool,
    reflecting: bool
  )

  function AfterListening(s: State): Presence {
    if s.presence != Listening then s.presence
    else if s.busy then Busy else if s.reflecting then Reflecting else Idle
  }

  function HasOtherId(id: string): Question -> bool {
    (q: Question) => q.id != id
  }

  function OfOtherJob(runId: string): Question -> bool {
    (q: Question) => q.runId != runId
  }

  /** `dropQuestion`: take a question off the screen, bring up the one behind it. */
  function DropQuestion(s: State, id: string): State {
    var queued := Filter(s.queued, HasOtherId(id));
    if s.pending.None? || s.pending.value.id != id then s.(queued := queued)
    else if queued == [] then s.(pending := None, queued := [], presence := AfterListening(s))
    else s.(pending := Some(queued[0]), queued := queued[1..], presence := Listening)
  }

  function Ask(s: State, q: Question): State {
    if s.pending.Some? then s.(queued := s.queued + [q])
    else s.(pending := Some(q), presence := Listening)
  }

  function Answer(s: State): State {
    if s.pending.None? then s else DropQuestion(s, s.pending.value.id)
  }

  /** The questions as the card and the queue hold them. */
  function List(s: State): seq<Question> {
    if s.pending.Some? then [s.pending.value] + s.queued else s.queued
  }

  /** Dropping, one after the other, the questions of `qs` that belong to one job. */
  function DropEach(s: State, qs: seq<Question>, runId: string): State
    decreases |qs|
  {
    if qs == [] then s
    else DropEach(if qs[0].runId == runId then DropQuestion(s, qs[0].id) else s, qs[1..], runId)
  }

  class Store {
    var pending: Option<Question>
    var queued: seq<Question>
    var presence: Presence
    var busy: bool
    var reflecting: bool

    function View(): State
      reads this
    {
      State(pending, queued, presence, busy, reflecting)
    }

    method Drop(id: string)
      modifies this
      ensures View() == DropQuestion(old(View()), id)
    {
      queued := Filter(queued, HasOtherId(id));
      if pending.None? || pending.value.id != id { return; }
      if queued != [] {
        pending, queued, presence := Some(queued[0]), queued[1..], Listening;
        return;
      }
      pending := None;
      if presence == Listening {
        presence := if busy then Busy else if reflecting then Reflecting else Idle;
      }
    }

    /** `applySubEvent`, a question; one whose turn is not in the chat is not shown. */
    method Asked(q: Question, hasTurn: bool)
      modifies this
      ensures View() == if hasTurn then Ask(old(View()), q) else old(View())
    {
      if !hasTurn { return; }
      if pending.Some? {
        queued := queued + [q];
      } else {
        pending, presence := Some(q), Listening;
      }
    }

    method Answered()
      modifies this
      ensures View() == Answer(old(View()))
    {
      if pending.Some? { Drop(pending.value.id); }
    }

    /** `dropQuestionsOf`: the loop runs over the questions as they were at first. */
    method JobEnded(runId: string)
      modifies this
      ensures View() == DropEach(old(View()), List(old(View())), runId)
    {
      var all := List(View());
      for i := 0 to |all|
        invariant DropEach(View(), all[i..], runId) == DropEach(old(View()), all, runId)
      {
        if all[i].runId == runId { Drop(all[i].id); }
      }
    }
  }

  // ---- refinement of one list ----

  /** Nothing is queued behind an empty card. */
  ghost predicate Front(s: State) {
    s.pending.None? ==> s.queued == []
  }

  /** The mark listens exactly while a question is on the card. */
  ghost predicate Agree(s: State) {
    s.pending.Some? <==> s.presence == Listening
  }

  /** A step leaves card and mark alone, or makes them agree. */
  ghost predicate Follows(s: State, t: State) {
    (t.pending == s.pending && t.presence == s.presence) || Agree(t)
  }

  ghost function IdOutside(ids: iset<string>): Question -> bool {
    (q: Question) => q.id !in ids
  }

  ghost function Without(l: seq<Question>, ids: iset<string>): seq<Question> {
    Filter(l, IdOutside(ids))
  }

  lemma WithoutOne(l: seq<Question>, id: string)
    ensures Filter(l, HasOtherId(id)) == Without(l, iset{id})
  {
    FilterSame(l, HasOtherId(id), IdOutside(iset{id}));
  }

  lemma DropFollows(s: State, id: string)
    ensures Follows(s, DropQuestion(s, id))
  {
  }

  lemma DropRefines(s: State, id: string)
    requires Front(s)
    ensures Front(DropQuestion(s, id))
    ensures List(DropQuestion(s, id)) == Without(List(s), iset{id})
    ensures Follows(s, DropQuestion(s, id))
  {
    DropFollows(s, id);
    WithoutOne(List(s), id);
    DropFilters(s, id);
  }

  /** The list after a drop, said with one filter. */
  lemma DropFilters(s: State, id: string)
    requires Front(s)
    ensures List(DropQuestion(s, id)) == Filter(List(s), HasOtherId(id))
  {
    if s.pending.Some? { assert ([s.pending.value] + s.queued)[1..] == s.queued; }
  }

  lemma WithoutTwice(l: seq<Question>, a: iset<string>, b: iset<string>)
    ensures Without(Without(l, a), b) == Without(l, a + b)
  {
    FilterTwice(l, IdOutside(a), IdOutside(b));
    FilterSame(l, Both(IdOutside(a), IdOutside(b)), IdOutside(a + b));
  }

  ghost function IdsOf(l: seq<Question>, runId: string): iset<string> {
    iset q | q in l && q.runId == runId :: q.id
  }

  lemma {:induction false} DropEachRefines(s: State, qs: seq<Question>, runId: string)
    requires Front(s)
    ensures Front(DropEach(s, qs, runId))
    ensures List(DropEach(s, qs, runId)) == Without(List(s), IdsOf(qs, runId))
    ensures Follows(s, DropEach(s, qs, runId))
    decreases |qs|
  {
    if qs == [] {
      FilterAll(List(s), IdOutside(IdsOf(qs, runId)));
    } else {
      var first := if qs[0].runId == runId then iset{qs[0].id} else iset{};
      assert IdsOf(qs, runId) == first + IdsOf(qs[1..], runId) by {
        assert forall q :: q in qs <==> q == qs[0] || q in qs[1..];
      }
      if qs[0].runId == runId {
        DropRefines(s, qs[0].id);
        DropEachRefines(DropQuestion(s, qs[0].id), qs[1..], runId);
        WithoutTwice(List(s), first, IdsOf(qs[1..], runId));
      } else {
        assert IdsOf(qs, runId) == IdsOf(qs[1..], runId);
        DropEachRefines(s, qs[1..], runId);
      }
    }
  }

  /** The steps of the questions, and whatever else writes the mark: turns that start
   * or end, reflections, the tidy-up. */
  datatype Event =
    | Asks(q: Question, hasTurn: bool)
    | Answers
    | Withdraws(id: string)
    | JobEnds(runId: string)
    | Marks(presence: Presence, busy: bool, reflecting: bool)

  function Step(s: State, e: Event): State {
    match e
    case Asks(q, hasTurn) => if hasTurn then Ask(s, q) else s
    case Answers => Answer(s)
    case Withdraws(id) => DropQuestion(s, id)
    case JobEnds(runId) => DropEach(s, List(s), runId)
    case Marks(presence, busy, reflecting) => s.(presence := presence, busy := busy, reflecting := reflecting)
  }

  /** The same steps on one list: append, or filter by id. */
  ghost function ListStep(l: seq<Question>, e: Event): seq<Question> {
    match e
    case Asks(q, hasTurn) => if hasTurn then l + [q] else l
    case Answers => if l == [] then l else Without(l, iset{l[0].id})
    case Withdraws(id) => Without(l, iset{id})
    case JobEnds(runId) => Without(l, IdsOf(l, runId))
    case Marks(_, _, _) => l
  }

  function Run(s: State, es: seq<Event>): State
    decreases |es|
  {
    if es == [] then s else Run(Step(s, es[0]), es[1..])
  }

  ghost function ListRun(l: seq<Question>, es: seq<Event>): seq<Question>
    decreases |es|
  {
    if es == [] then l else ListRun(ListStep(l, es[0]), es[1..])
  }

  lemma StepRefines(s: State, e: Event)
    requires Front(s)
    ensures Front(Step(s, e)) && List(Step(s, e)) == ListStep(List(s), e)
    ensures !e.Marks? ==> Follows(s, Step(s, e))
  {
    match e
    case Asks(q, hasTurn) =>
    case Answers => if s.pending.Some? { DropRefines(s, s.pending.value.id); }
    case Withdraws(id) => DropRefines(s, id);
    case JobEnds(runId) => DropEachRefines(s, List(s), runId);
    case Marks(_, _, _) =>
  }

  /** Every run of question steps is a run on one list, with its head on the card and
   * its tail in the queue, whatever else writes the mark meanwhile. */
  lemma {:induction false} EveryRunRefinesTheList(s: State, es: seq<Event>)
    requires Front(s)
    ensures Front(Run(s, es)) && List(Run(s, es)) == ListRun(List(s), es)
    decreases |es|
  {
    if es != [] {
      StepRefines(s, es[0]);
      EveryRunRefinesTheList(Step(s, es[0]), es[1..]);
    }
  }

  /** The mark listens exactly while a question is open, from one step to the next,
   * exactly unless another writer of the mark says otherwise. */
  lemma TheMarkListensUnlessOverwritten(s: State, e: Event)
    requires Front(s) && Agree(s)
    ensures Agree(Step(s, e)) <==> (e.Marks? ==> (List(s) != [] <==> e.presence == Listening))
  {
    StepRefines(s, e);
  }

  /** So it does over every run in which nothing else writes it. */
  lemma {:induction false} TheMarkListensWhileAsked(s: State, es: seq<Event>)
    requires Front(s) && Agree(s) && forall e | e in es :: !e.Marks?
    ensures Run(s, es).presence == Listening <==> List(Run(s, es)) != []
    decreases |es|
  {
    if es != [] {
      assert es[0] in es;
      StepRefines(s, es[0]);
      TheMarkListensUnlessOverwritten(s, es[0]);
      TheMarkListensWhileAsked(Step(s, es[0]), es[1..]);
    }
  }

  // ---- exactly one job's questions ----

  /** Ending a job removes exactly its own questions, and keeps the rest in order,
   * exactly when no other job's open question shares an id with one of them. */
  lemma JobEndRemovesExactlyItsOwn(s: State, runId: string)
    requires Front(s)
    ensures List(DropEach(s, List(s), runId)) == Filter(List(s), OfOtherJob(runId))
            <==> forall q, r | q in List(s) && r in List(s) && q.runId == runId && r.runId != runId :: q.id != r.id
  {
    var l, ids := List(s), IdsOf(List(s), runId);
    var kept, others := IdOutside(ids), OfOtherJob(runId);
    DropEachRefines(s, l, runId);
    if forall q, r | q in l && r in l && q.runId == runId && r.runId != runId :: q.id != r.id {
      FilterSame(l, kept, others);
    } else {
      var q, r :| q in l && r in l && q.runId == runId && r.runId != runId && q.id == r.id;
      FilterIn(l, kept, r);
      FilterIn(l, others, r);
    }
  }

  /** Answering takes exactly the question on the card, when ids are distinct. */
  lemma AnswerTakesTheHead(s: State)
    requires Front(s) && s.pending.Some?
    requires forall i, j | 0 <= i < j < |List(s)| :: List(s)[i].id != List(s)[j].id
    ensures List(Answer(s)) == List(s)[1..]
  {
    var l, id := List(s), s.pending.value.id;
    DropRefines(s, id);
    FilterAll(l[1..], IdOutside(iset{id}));
  }

  /** What a listening mark goes back to: the turn that runs, else a reflection, else rest. */
  function Back(s: State): Presence {
    if s.busy then Busy else if s.reflecting then Reflecting else Idle
  }

  ghost predicate GoesBack(s: State, t: State) {
    && t.busy == s.busy && t.reflecting == s.reflecting
    && (s.pending.Some? && t.pending.None? && s.presence == Listening ==> t.presence == Back(s))
    && (s.pending.None? ==> t.pending.None? && t.presence == s.presence)
    && (s.presence == Listening && s.pending.Some? && t.pending.Some? ==> t.presence == Listening)
  }

  lemma {:induction false} DropEachGoesBack(s: State, qs: seq<Question>, runId: string)
    ensures GoesBack(s, DropEach(s, qs, runId))
    decreases |qs|
  {
    if qs != [] {
      DropEachGoesBack(if qs[0].runId == runId then DropQuestion(s, qs[0].id) else s, qs[1..], runId);
    }
  }

  lemma DropEachOfOne(s: State, q: Question, runId: string)
    ensures DropEach(s, [q], runId) == if q.runId == runId then DropQuestion(s, q.id) else s
  {
    assert [q][1..] == [];
  }

  /** When the last question goes, a listening mark goes back to what goes on, and any
   * other mark stays; what runs and what reflects is left alone. */
  lemma TheMarkGoesBack(s: State, e: Event)
    requires Front(s) && !e.Marks?
    ensures Step(s, e).busy == s.busy && Step(s, e).reflecting == s.reflecting
    ensures List(s) != [] && List(Step(s, e)) == [] && s.presence == Listening ==>
              Step(s, e).presence == if s.busy then Busy else if s.reflecting then Reflecting else Idle
    ensures |List(s)| == 1 && List(Step(s, e)) == [] && s.presence != Listening ==> Step(s, e).presence == s.presence
  {
    StepRefines(s, e);
    if e.JobEnds? {
      DropEachGoesBack(s, List(s), e.runId);
      if |List(s)| == 1 {
        assert List(s) == [List(s)[0]];
        DropEachOfOne(s, List(s)[0], e.runId);
      }
    }
  }
}
