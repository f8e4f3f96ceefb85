/** Debounced surface saves: a write-behind buffer with one timer per surface, and
 * the plain write-through store it refines. */
module SurfaceSaves {
  import opened Seqs

  /** The JSON text of a surface's bound state. */
  type Value = string

  datatype Save = Save(timer: nat, state: Value)

  /** `timers` are the timeouts still to fire, each with the surface it flushes. */
  datatype State = State(
    saves: map<string, Save>,
    timers: map<nat, string>,
    nextTimer: nat,
    stored: map<string, Value>
  )

  function SaveState(s: State, id: string, v: Value): State {
    var kept := if id in s.saves then s.timers - {s.saves[id].timer} else s.timers;
    s.(saves := s.saves[id := Save(s.nextTimer, v)], timers := kept[s.nextTimer := id], nextTimer := s.nextTimer + 1)
  }

  function Flush(s: State, id: string): State {
    if id !in s.saves then s
    else
      s.(saves := s.saves - {id}, timers := s.timers - {s.saves[id].timer}, stored := s.stored[id := s.saves[id].state])
  }

  /** A timeout goes off: it is gone, and its callback flushes its surface. */
  function Fire(s: State, t: nat): State
    requires t in s.timers
  {
    Flush(s.(timers := s.timers - {t}), s.timers[t])
  }

  /** What the app shows: the value waiting, if any, else the stored one. */
  function Visible(s: State): map<string, Value> {
    s.stored + map id | id in s.saves :: s.saves[id].state
  }

  /** Every waiting value has its own live timer, and no other timer is left. */
  ghost predicate TimersOk(s: State) {
    && (forall t | t in s.timers :: t < s.nextTimer && s.timers[t] in s.saves && s.saves[s.timers[t]].timer == t)
    && (forall id | id in s.saves :: s.saves[id].timer in s.timers && s.timers[s.saves[id].timer] == id)
  }

  class Saves {
    var saves: map<string, Save>
    var timers: map<nat, string>
    var nextTimer: nat
    var stored: map<string, Value>

    ghost function View(): State
      reads this
    {
      State(saves, timers, nextTimer, stored)
    }

    constructor (stored: map<string, Value>)
      ensures View() == State(map[], map[], 0, stored)
      ensures TimersOk(View())
    {
      saves, timers, nextTimer, this.stored := map[], map[], 0, stored;
    }

    method SaveSurfaceState(id: string, v: Value)
      modifies this
      ensures View() == SaveState(old(View()), id, v)
    {
      if id in saves { timers := timers - {saves[id].timer}; }
      var timer := nextTimer;
      timers, nextTimer := timers[timer := id], nextTimer + 1;
      saves := saves[id := Save(timer, v)];
    }

    method FlushSurfaceState(id: string)
      modifies this
      ensures View() == Flush(old(View()), id)
    {
      if id !in saves { return; }
      var open := saves[id];
      timers := timers - {open.timer};
      saves := saves - {id};
      stored := stored[id := open.state];
    }

    method TimerFires(t: nat)
      requires t in timers
      modifies this
      ensures View() == Fire(old(View()), t)
    {
      var id := timers[t];
      timers := timers - {t};
      FlushSurfaceState(id);
    }

    /** `flushAllSurfaceStates`: the loop runs over a copy of the keys. */
    method FlushAll()
      requires TimersOk(View())
      modifies this
      ensures saves == map[] && timers == map[] && nextTimer == old(nextTimer)
      ensures stored == Visible(old(View()))
    {
      var keys := saves.Keys;
      while keys != {}
        invariant saves.Keys == keys && nextTimer == old(nextTimer)
        invariant TimersOk(View()) && Visible(View()) == Visible(old(View()))
        decreases |keys|
      {
        var id :| id in keys;
        FlushTakesOne(View(), id);
        FlushSurfaceState(id);
        keys := keys - {id};
      }
      NothingWaits(View());
    }
  }

  lemma SaveKeeps(s: State, id: string, v: Value)
    requires TimersOk(s)
    ensures TimersOk(SaveState(s, id, v))
  {
    var s' := SaveState(s, id, v);
    forall t | t in s'.timers
      ensures t < s'.nextTimer && s'.timers[t] in s'.saves && s'.saves[s'.timers[t]].timer == t
    {
      if t != s.nextTimer { assert t in s.timers && s.timers[t] != id; }
    }
    forall d | d in s'.saves ensures s'.saves[d].timer in s'.timers && s'.timers[s'.saves[d].timer] == d {
      if d != id { assert s.timers[s.saves[d].timer] == d && s.saves[d].timer < s.nextTimer; }
    }
  }

  lemma SaveShows(s: State, id: string, v: Value)
    ensures Visible(SaveState(s, id, v)) == Visible(s)[id := v]
  {
  }

  lemma FlushShows(s: State, id: string)
    ensures Visible(Flush(s, id)) == Visible(s)
    ensures id in Visible(s) ==> id in Flush(s, id).stored && Flush(s, id).stored[id] == Visible(s)[id]
  {
  }

  lemma FlushKeepsTimers(s: State, id: string)
    requires TimersOk(s)
    ensures TimersOk(Flush(s, id))
  {
  }

  lemma FlushKeeps(s: State, id: string)
    requires TimersOk(s)
    ensures TimersOk(Flush(s, id))
    ensures Visible(Flush(s, id)) == Visible(s)
    ensures id in Visible(s) ==> id in Flush(s, id).stored && Flush(s, id).stored[id] == Visible(s)[id]
  {
    FlushShows(s, id);
    FlushKeepsTimers(s, id);
  }

  /** One turn of the loop that flushes everything. */
  lemma FlushTakesOne(s: State, id: string)
    requires TimersOk(s) && id in s.saves
    ensures var t := Flush(s, id);
            TimersOk(t) && Visible(t) == Visible(s) && t.saves.Keys == s.saves.Keys - {id} && t.nextTimer == s.nextTimer
  {
    FlushKeeps(s, id);
  }

  lemma NothingWaits(s: State)
    requires TimersOk(s) && s.saves.Keys == {}
    ensures s.saves == map[] && s.timers == map[] && Visible(s) == s.stored
  {
    assert forall t :: t !in s.timers;
  }

  /** A timer never writes a stale value: what it stores is the last value set. */
  lemma FireKeeps(s: State, t: nat)
    requires TimersOk(s) && t in s.timers
    ensures TimersOk(Fire(s, t))
    ensures Visible(Fire(s, t)) == Visible(s)
    ensures var id := s.timers[t]; id in Fire(s, t).stored && id in Visible(s) && Fire(s, t).stored[id] == Visible(s)[id]
  {
    assert Fire(s, t) == Flush(s, s.timers[t]);
    FlushKeeps(s, s.timers[t]);
  }

  datatype Event =
    | Saved(id: string, v: Value)
    | Fired(t: nat)
    | Flushed(id: string)
    | FlushedAll

  /** One event of an interleaving; a timer only fires while it is live. */
  function Step(s: State, e: Event): State {
    match e
    case Saved(id, v) => SaveState(s, id, v)
    case Fired(t) => if t in s.timers then Fire(s, t) else s
    case Flushed(id) => Flush(s, id)
    case FlushedAll => State(map[], map[], s.nextTimer, Visible(s))
  }

  function Run(s: State, es: seq<Event>): State
    decreases |es|
  {
    if es == [] then s else Run(Step(s, es[0]), es[1..])
  }

  /** The plain store: each save is written at once, nothing else writes. */
  function WriteThrough(m: map<string, Value>, es: seq<Event>): map<string, Value>
    decreases |es|
  {
    if es == [] then m
    else WriteThrough(if es[0].Saved? then m[es[0].id := es[0].v] else m, es[1..])
  }

  /** The last value set for a surface in a run. */
  function LastSet(es: seq<Event>, id: string): Option<Value> {
    if es == [] then None
    else
      var last := es[|es| - 1];
      if last.Saved? && last.id == id then Some(last.v) else LastSet(es[..|es| - 1], id)
  }

  /** In every interleaving of saves, timers and flushes, what the app shows is what a
   * write-through store would hold, and no waiting value is without a timer. */
  lemma {:induction false} RefinesWriteThrough(s: State, es: seq<Event>)
    requires TimersOk(s)
    ensures TimersOk(Run(s, es))
    ensures Visible(Run(s, es)) == WriteThrough(Visible(s), es)
    decreases |es|
  {
    if es != [] {
      match es[0] {
        case Saved(id, v) => SaveKeeps(s, id, v); SaveShows(s, id, v);
        case Fired(t) => if t in s.timers { FireKeeps(s, t); }
        case Flushed(id) => FlushKeeps(s, id);
        case FlushedAll => assert Visible(Step(s, FlushedAll)) == Visible(s);
      }
      RefinesWriteThrough(Step(s, es[0]), es[1..]);
    }
  }

  lemma {:induction false} WriteThroughAppend(m: map<string, Value>, es: seq<Event>, e: Event)
    ensures WriteThrough(m, es + [e]) == if e.Saved? then WriteThrough(m, es)[e.id := e.v] else WriteThrough(m, es)
    decreases |es|
  {
    if es == [] {
      assert [e][1..] == [];
    } else {
      assert (es + [e])[1..] == es[1..] + [e];
      WriteThroughAppend(if es[0].Saved? then m[es[0].id := es[0].v] else m, es[1..], e);
    }
  }

  /** The write-through store holds, for each surface, the last value set for it. */
  lemma {:induction false} WriteThroughHoldsTheLast(m: map<string, Value>, es: seq<Event>, id: string)
    ensures var w, last := WriteThrough(m, es), LastSet(es, id);
            if last.Some? then id in w && w[id] == last.value
            else (id in w <==> id in m) && (id in m ==> w[id] == m[id])
    decreases |es|
  {
    if es != [] {
      var init, e := es[..|es| - 1], es[|es| - 1];
      assert es == init + [e];
      WriteThroughAppend(m, init, e);
      WriteThroughHoldsTheLast(m, init, id);
    }
  }

  /** After everything is flushed the store itself holds the last values, and
   * nothing is waiting. */
  lemma FlushAllStoresTheLast(stored: map<string, Value>, es: seq<Event>, id: string)
    requires LastSet(es, id).Some?
    ensures var s := Step(Run(State(map[], map[], 0, stored), es), FlushedAll);
            s.saves == map[] && id in s.stored && s.stored[id] == LastSet(es, id).value
  {
    var s0 := State(map[], map[], 0, stored);
    RefinesWriteThrough(s0, es);
    assert Visible(s0) == stored;
    WriteThroughHoldsTheLast(stored, es, id);
  }

  /** A save only waits: the store is not written until a timer or a flush writes it, and
   * what waits for the other surfaces stays. */
  lemma SavingOnlyWaits(s: State, id: string, v: Value)
    requires TimersOk(s)
    ensures var t := Step(s, Saved(id, v));
            && t.stored == s.stored && t.saves.Keys == s.saves.Keys + {id} && t.saves[id].state == v
            && (forall d | d in s.saves && d != id :: t.saves[d] == s.saves[d])
            && |t.timers| == |t.saves|
  {
    SaveKeeps(s, id, v);
    OneTimerEach(Step(s, Saved(id, v)));
  }

  /** As many timers as values waiting: a save replaces the timer of the one before. */
  lemma OneTimerEach(s: State)
    requires TimersOk(s)
    ensures |s.timers| == |s.saves|
  {
    var f := (id: string) => if id in s.saves then s.saves[id].timer else 0;
    forall t ensures t in s.timers.Keys <==> t in Image(s.saves.Keys, f) {
      if t in s.timers { assert f(s.timers[t]) == t; }
    }
    ImageSize(s.saves.Keys, f);
    assert s.timers.Keys == Image(s.saves.Keys, f);
  }

  ghost function Image(a: set<string>, f: string -> nat): set<nat> {
    set x | x in a :: f(x)
  }

  lemma {:induction false} ImageSize(a: set<string>, f: string -> nat)
    requires forall x, y | x in a && y in a && x != y :: f(x) != f(y)
    ensures |Image(a, f)| == |a|
  {
    if a != {} {
      var x :| x in a;
      ImageSize(a - {x}, f);
      assert Image(a, f) == Image(a - {x}, f) + {f(x)};
    }
  }

  /** Flushing one surface stores its value and leaves the others waiting. */
  lemma FlushingOneLeavesTheOthers(s: State, id: string)
    requires TimersOk(s) && id in s.saves
    ensures var t := Step(s, Flushed(id));
            && t.saves == s.saves - {id} && t.stored == s.stored[id := s.saves[id].state]
            && t.timers == s.timers - {s.saves[id].timer}
  {
  }
}
