/** Default and favorite models: one ordered list per tab, led by the tab's default. */
module ModelPrefs {
  import opened Seqs

  datatype Modality = Chat | Image | Video
  datatype Model = Model(id: string, name: string, modality: Modality, available: bool)
  datatype ModelEntry = ModelEntry(id: string, name: string, isDefault: bool)
  datatype Tab = ChatTab | MediaTab

  datatype Prefs = Prefs(
    chatDefault: Option<string>,
    imageDefault: Option<string>,
    chat: seq<string>,
    media: seq<string>,
    labels: map<string, string>
  )

  predicate IsChat(m: Model) {
    m.modality == Chat
  }

  function TabOf(m: Model): Tab {
    if IsChat(m) then ChatTab else MediaTab
  }

  function Favorites(p: Prefs, tab: Tab): seq<string> {
    if tab == ChatTab then p.chat else p.media
  }

  function WithFavorites(p: Prefs, tab: Tab, list: seq<string>): Prefs {
    if tab == ChatTab then p.(chat := list) else p.(media := list)
  }

  function DefaultFor(p: Prefs, tab: Tab): Option<string> {
    if tab == ChatTab then p.chatDefault else p.imageDefault
  }

  /** A default that is set: neither absent nor the empty id. */
  predicate IsSet(d: Option<string>) {
    d.Some? && d.value != ""
  }

  function OtherThan(id: string): string -> bool {
    x => x != id
  }

  function In(list: seq<string>): string -> bool {
    x => x in list
  }

  function WithFirst(list: seq<string>, id: string): seq<string> {
    [id] + Filter(list, OtherThan(id))
  }

  function Remember(p: Prefs, m: Model): map<string, string> {
    p.labels[m.id := m.name]
  }

  function SetDefault(p: Prefs, m: Model): Prefs {
    if m.modality == Video then p
    else if TabOf(m) == ChatTab then
      p.(chatDefault := Some(m.id), chat := WithFirst(p.chat, m.id), labels := Remember(p, m))
    else
      p.(imageDefault := Some(m.id), media := WithFirst(p.media, m.id), labels := Remember(p, m))
  }

  /** Star or unstar; `None` when refused. */
  function ToggleFavorite(p: Prefs, m: Model): Option<Prefs> {
    var tab := TabOf(m);
    var list := Favorites(p, tab);
    if m.id in list then
      if DefaultFor(p, tab) == Some(m.id) then None
      else Some(WithFavorites(p, tab, Filter(list, OtherThan(m.id))))
    else Some(WithFavorites(p, tab, list + [m.id]).(labels := Remember(p, m)))
  }

  /** The store's own removal of a model that is not listed right now. */
  function Unstar(p: Prefs, id: string): Option<Prefs> {
    var tab := if id in p.media then MediaTab else ChatTab;
    if p.chatDefault == Some(id) || p.imageDefault == Some(id) then None
    else Some(WithFavorites(p, tab, Filter(Favorites(p, tab), OtherThan(id))))
  }

  function IndexOf(list: seq<string>, id: string): (i: int)
    ensures -1 <= i < |list|
    ensures i == -1 <==> id !in list
    ensures i >= 0 ==> list[i] == id
  {
    if list == [] then -1
    else if list[0] == id then 0
    else var i := IndexOf(list[1..], id); if i < 0 then -1 else i + 1
  }

  /** The first slot a move may touch: slot 1 is the default's when it leads. */
  function Floor(p: Prefs, tab: Tab): nat {
    var list, d := Favorites(p, tab), DefaultFor(p, tab);
    if IsSet(d) && list != [] && list[0] == d.value then 1 else 0
  }

  predicate CanMove(p: Prefs, tab: Tab, id: string, delta: int) {
    var from := IndexOf(Favorites(p, tab), id);
    from >= Floor(p, tab) && Floor(p, tab) <= from + delta < |Favorites(p, tab)|
  }

  function Moved(p: Prefs, tab: Tab, id: string, delta: int): Prefs {
    var list := Favorites(p, tab);
    var from := IndexOf(list, id);
    if CanMove(p, tab, id, delta) then
      WithFavorites(p, tab, list[from := list[from + delta]][from + delta := id])
    else p
  }

  method MoveFavorite(p: Prefs, tab: Tab, id: string, delta: int) returns (r: Prefs)
    requires delta == -1 || delta == 1
    ensures r == Moved(p, tab, id, delta)
  {
    var favorites := Favorites(p, tab);
    var list := new string[|favorites|](i requires 0 <= i < |favorites| => favorites[i]);
    var from := IndexOf(favorites, id);
    var to := from + delta;
    var floor := Floor(p, tab);
    if from < floor || to < floor || to >= list.Length { return p; }
    list[from], list[to] := list[to], list[from];
    assert list[..] == favorites[from := favorites[to]][to := id];
    return WithFavorites(p, tab, list[..]);
  }

  function Reordered(p: Prefs, tab: Tab, ids: seq<string>): Prefs {
    var list := Known(p, tab, ids) + Rest(p, tab, ids);
    var d := DefaultFor(p, tab);
    WithFavorites(p, tab, if IsSet(d) && d.value in list then WithFirst(list, d.value) else list)
  }

  function Known(p: Prefs, tab: Tab, ids: seq<string>): seq<string> {
    Filter(ids, In(Favorites(p, tab)))
  }

  function Rest(p: Prefs, tab: Tab, ids: seq<string>): seq<string> {
    Filter(Favorites(p, tab), Not(In(Known(p, tab, ids))))
  }

  // ---- normalising ----

  function Marked(library: seq<ModelEntry>): Option<ModelEntry> {
    Find(library, (e: ModelEntry) => e.isDefault)
  }

  function Seeded(p: Prefs, library: seq<ModelEntry>): Prefs {
    var marked := Marked(library);
    if !IsSet(p.chatDefault) && marked.Some? then
      p.(chatDefault := Some(marked.value.id), labels := p.labels[marked.value.id := marked.value.name])
    else p
  }

  /** The tab's list, led by its default. */
  function Led(list: seq<string>, d: Option<string>): seq<string> {
    if IsSet(d) && (list == [] || list[0] != d.value) then WithFirst(list, d.value) else list
  }

  function FirstUsable(models: seq<Model>): Option<Model> {
    Find(models, (m: Model) => IsChat(m) && m.available)
  }

  function Normalized(p: Prefs, library: seq<ModelEntry>, models: seq<Model>): Prefs {
    var s := Seeded(p, library);
    var led := s.(chat := Led(s.chat, s.chatDefault), media := Led(s.media, s.imageDefault));
    var first := FirstUsable(models);
    if led.chat == [] && first.Some? then
      led.(chat := [first.value.id], labels := led.labels[first.value.id := first.value.name])
    else led
  }

  method NormalizePrefs(p: Prefs, library: seq<ModelEntry>, models: seq<Model>) returns (next: Prefs)
    ensures next == Normalized(p, library, models)
  {
    next := p;
    if !IsSet(next.chatDefault) {
      var marked := Marked(library);
      if marked.Some? {
        next := next.(chatDefault := Some(marked.value.id), labels := next.labels[marked.value.id := marked.value.name]);
      }
    }
    var tabs := [ChatTab, MediaTab];
    ghost var s := next;
    for i := 0 to 2
      invariant next == s.(chat := if i > 0 then Led(s.chat, s.chatDefault) else s.chat,
                           media := if i > 1 then Led(s.media, s.imageDefault) else s.media)
    {
      var tab := tabs[i];
      var d, list := DefaultFor(next, tab), Favorites(next, tab);
      if IsSet(d) && (list == [] || list[0] != d.value) {
        next := WithFavorites(next, tab, WithFirst(list, d.value));
      }
    }
    if next.chat == [] {
      var first := FirstUsable(models);
      if first.Some? {
        next := next.(chat := [first.value.id], labels := next.labels[first.value.id := first.value.name]);
      }
    }
  }

  // ---- the representation invariant ----

  ghost predicate TabOk(list: seq<string>, d: Option<string>) {
    NoDup(list) && (IsSet(d) ==> list != [] && list[0] == d.value)
  }

  /** Favorites repeat nothing, and a default that is set holds slot one of its tab. */
  ghost predicate Ok(p: Prefs) {
    TabOk(p.chat, p.chatDefault) && TabOk(p.media, p.imageDefault)
  }

  lemma WithFirstOk(list: seq<string>, id: string)
    requires NoDup(list)
    ensures TabOk(WithFirst(list, id), Some(id))
    ensures forall x :: x in WithFirst(list, id) <==> x in list || x == id
  {
    FilterNoDup(list, OtherThan(id));
    forall x ensures x in Filter(list, OtherThan(id)) <==> x in list && x != id {
      FilterIn(list, OtherThan(id), x);
    }
    NoDupAppend([id], Filter(list, OtherThan(id)));
  }

  lemma UnstarOk(list: seq<string>, d: Option<string>, id: string)
    requires TabOk(list, d) && d != Some(id)
    ensures TabOk(Filter(list, OtherThan(id)), d)
  {
    FilterNoDup(list, OtherThan(id));
  }

  function Swapped(list: seq<string>, i: nat, j: nat): seq<string>
    requires i < |list| && j < |list|
  {
    list[i := list[j]][j := list[i]]
  }

  lemma SwapKeepsDistinct(list: seq<string>, i: nat, j: nat)
    requires i < |list| && j < |list| && NoDup(list)
    ensures NoDup(Swapped(list, i, j))
  {
    var list' := Swapped(list, i, j);
    forall a, b | 0 <= a < b < |list'| ensures list'[a] != list'[b] {
      var a', b' := if a == i then j else if a == j then i else a, if b == i then j else if b == j then i else b;
      assert list'[a] == list[a'] && list'[b] == list[b'] && a' != b';
    }
  }

  lemma SwapPermutes(list: seq<string>, i: nat, j: nat)
    requires i < |list| && j < |list|
    ensures Swapped(Swapped(list, i, j), j, i) == list
    ensures multiset(Swapped(list, i, j)) == multiset(list)
  {
  }

  lemma IndexOfTheOnly(list: seq<string>, i: nat)
    requires i < |list| && NoDup(list)
    ensures IndexOf(list, list[i]) == i
  {
  }

  lemma MovedOk(p: Prefs, tab: Tab, id: string, delta: int)
    requires Ok(p) && (delta == -1 || delta == 1)
    ensures Ok(Moved(p, tab, id, delta))
  {
    if CanMove(p, tab, id, delta) {
      var list, from := Favorites(p, tab), IndexOf(Favorites(p, tab), id);
      SwapKeepsDistinct(list, from, from + delta);
    }
  }

  lemma MovedIsASwap(p: Prefs, tab: Tab, id: string, delta: int)
    requires CanMove(p, tab, id, delta)
    ensures var list, from := Favorites(p, tab), IndexOf(Favorites(p, tab), id);
            Moved(p, tab, id, delta) == WithFavorites(p, tab, Swapped(list, from, from + delta))
  {
  }

  /** After a move the model stands one slot on, and may move back. */
  lemma MovedBack(p: Prefs, tab: Tab, id: string, delta: int)
    requires Ok(p) && CanMove(p, tab, id, delta) && (delta == -1 || delta == 1)
    ensures var p' := Moved(p, tab, id, delta);
            IndexOf(Favorites(p', tab), id) == IndexOf(Favorites(p, tab), id) + delta && CanMove(p', tab, id, -delta)
  {
    var list, from, p' := Favorites(p, tab), IndexOf(Favorites(p, tab), id), Moved(p, tab, id, delta);
    MovedIsASwap(p, tab, id, delta);
    SwapKeepsDistinct(list, from, from + delta);
    assert Favorites(p', tab)[from + delta] == id;
    IndexOfTheOnly(Favorites(p', tab), from + delta);
    assert Floor(p', tab) == Floor(p, tab);
  }

  /** Moving permutes the list, touches nothing else, and the opposite move undoes it. */
  lemma MoveIsAPermutation(p: Prefs, tab: Tab, id: string, delta: int)
    requires Ok(p) && (delta == -1 || delta == 1)
    ensures multiset(Favorites(Moved(p, tab, id, delta), tab)) == multiset(Favorites(p, tab))
    ensures Moved(p, tab, id, delta) == WithFavorites(p, tab, Favorites(Moved(p, tab, id, delta), tab))
    ensures CanMove(p, tab, id, delta) ==> Moved(Moved(p, tab, id, delta), tab, id, -delta) == p
  {
    if CanMove(p, tab, id, delta) {
      var list, from, p' := Favorites(p, tab), IndexOf(Favorites(p, tab), id), Moved(p, tab, id, delta);
      MovedIsASwap(p, tab, id, delta);
      MovedBack(p, tab, id, delta);
      MovedOk(p, tab, id, delta);
      MovedIsASwap(p', tab, id, -delta);
      SwapPermutes(list, from, from + delta);
    }
  }

  // ---- reordering ----

  /** The dragged ids that count: favorites, without the default that is pinned. */
  function Dragged(p: Prefs, tab: Tab, ids: seq<string>): seq<string> {
    var d := DefaultFor(p, tab);
    if IsSet(d) then Filter(Known(p, tab, ids), OtherThan(d.value)) else Known(p, tab, ids)
  }

  lemma ReorderShape(p: Prefs, tab: Tab, ids: seq<string>)
    requires Ok(p)
    ensures var d, rest := DefaultFor(p, tab), Rest(p, tab, ids);
            Favorites(Reordered(p, tab, ids), tab) ==
            if IsSet(d) then [d.value] + Dragged(p, tab, ids) + Filter(rest, OtherThan(d.value))
            else Dragged(p, tab, ids) + rest
  {
    var known, rest, d := Known(p, tab, ids), Rest(p, tab, ids), DefaultFor(p, tab);
    if IsSet(d) {
      assert Favorites(p, tab)[0] == d.value;
      FilterIn(Favorites(p, tab), Not(In(known)), d.value);
      FilterAppend(known, rest, OtherThan(d.value));
    }
  }

  lemma ReorderMembers(p: Prefs, tab: Tab, ids: seq<string>, x: string)
    requires Ok(p)
    ensures x in Favorites(Reordered(p, tab, ids), tab) <==> x in Favorites(p, tab)
  {
    var known, rest, d := Known(p, tab, ids), Rest(p, tab, ids), DefaultFor(p, tab);
    ReorderShape(p, tab, ids);
    FilterIn(ids, In(Favorites(p, tab)), x);
    FilterIn(Favorites(p, tab), Not(In(known)), x);
    if IsSet(d) {
      FilterIn(known, OtherThan(d.value), x);
      FilterIn(rest, OtherThan(d.value), x);
    }
  }

  lemma RestIsApart(p: Prefs, tab: Tab, ids: seq<string>)
    requires Ok(p)
    ensures NoDup(Rest(p, tab, ids))
    ensures forall x | x in Rest(p, tab, ids) :: x !in Known(p, tab, ids)
  {
    var known := Known(p, tab, ids);
    FilterNoDup(Favorites(p, tab), Not(In(known)));
    forall x | x in Rest(p, tab, ids) ensures x !in known {
      FilterIn(Favorites(p, tab), Not(In(known)), x);
    }
  }

  /** A list put in front of another it shares nothing with repeats nothing exactly
   * when neither does. */
  lemma ApartNoDup(a: seq<string>, b: seq<string>)
    requires NoDup(b) && forall x | x in a :: x !in b
    ensures NoDup(a + b) <==> NoDup(a)
  {
    if NoDup(a) { NoDupAppend(a, b); }
    if NoDup(a + b) { NoDupParts(a, b); }
  }

  lemma ApartWithout(a: seq<string>, b: seq<string>, id: string)
    requires NoDup(b) && forall x | x in a :: x !in b
    ensures var a', b' := Filter(a, OtherThan(id)), Filter(b, OtherThan(id));
            NoDup([id] + a' + b') <==> NoDup(a')
  {
    var a', b' := Filter(a, OtherThan(id)), Filter(b, OtherThan(id));
    FilterNoDup(b, OtherThan(id));
    forall x ensures (x in a' <==> x in a && x != id) && (x in b' <==> x in b && x != id) {
      FilterIn(a, OtherThan(id), x);
      FilterIn(b, OtherThan(id), x);
    }
    ApartNoDup([id] + a', b');
    if NoDup(a') { NoDupAppend([id], a'); }
    if NoDup([id] + a') { NoDupParts([id], a'); }
  }

  /** A dropped order keeps the preferences sound exactly when no favorite, other
   * than the pinned default, is named twice. */
  lemma ReorderIsSoundExactlyWithoutRepeats(p: Prefs, tab: Tab, ids: seq<string>)
    requires Ok(p)
    ensures Ok(Reordered(p, tab, ids)) <==> NoDup(Dragged(p, tab, ids))
  {
    ReorderShape(p, tab, ids);
    RestIsApart(p, tab, ids);
    var known, rest, d := Known(p, tab, ids), Rest(p, tab, ids), DefaultFor(p, tab);
    if IsSet(d) {
      ApartWithout(known, rest, d.value);
    } else {
      ApartNoDup(known, rest);
    }
  }

  lemma {:induction false} NoDupCount(s: seq<string>, x: string)
    requires NoDup(s)
    ensures multiset(s)[x] == if x in s then 1 else 0
  {
    if s != [] {
      assert s == [s[0]] + s[1..];
      NoDupCount(s[1..], x);
      assert forall i | 0 <= i < |s[1..]| :: s[1..][i] == s[i + 1] != s[0];
    }
  }

  lemma ReorderIsAPermutation(p: Prefs, tab: Tab, ids: seq<string>)
    requires Ok(p) && NoDup(ids)
    ensures Ok(Reordered(p, tab, ids))
    ensures multiset(Favorites(Reordered(p, tab, ids), tab)) == multiset(Favorites(p, tab))
  {
    var p', d := Reordered(p, tab, ids), DefaultFor(p, tab);
    FilterNoDup(ids, In(Favorites(p, tab)));
    if IsSet(d) { FilterNoDup(Known(p, tab, ids), OtherThan(d.value)); }
    ReorderIsSoundExactlyWithoutRepeats(p, tab, ids);
    forall x ensures multiset(Favorites(p', tab))[x] == multiset(Favorites(p, tab))[x] {
      ReorderMembers(p, tab, ids, x);
      NoDupCount(Favorites(p', tab), x);
      NoDupCount(Favorites(p, tab), x);
    }
  }

  // ---- normalising establishes the invariant ----

  lemma LedOk(list: seq<string>, d: Option<string>)
    requires NoDup(list)
    ensures TabOk(Led(list, d), d)
    ensures forall x | x in list :: x in Led(list, d)
    ensures Led(Led(list, d), d) == Led(list, d)
  {
    if IsSet(d) { WithFirstOk(list, d.value); }
  }

  /** From any duplicate-free lists the normaliser makes sound preferences, drops no
   * favorite and keeps a default that was set. */
  lemma NormalizeEstablishes(p: Prefs, library: seq<ModelEntry>, models: seq<Model>)
    requires NoDup(p.chat) && NoDup(p.media)
    ensures var n := Normalized(p, library, models);
            && Ok(n)
            && (forall x | x in p.chat :: x in n.chat) && (forall x | x in p.media :: x in n.media)
            && (IsSet(p.chatDefault) ==> n.chatDefault == p.chatDefault) && n.imageDefault == p.imageDefault
  {
    var s := Seeded(p, library);
    LedOk(s.chat, s.chatDefault);
    LedOk(s.media, s.imageDefault);
  }

  /** The marked entry and the first usable model both have the empty id and are named
   * differently, and both get recorded: the two would take turns as its label. */
  predicate EmptyIdsClash(p: Prefs, library: seq<ModelEntry>, models: seq<Model>) {
    var marked, first := Marked(library), FirstUsable(models);
    && !IsSet(p.chatDefault) && p.chat == []
    && marked.Some? && first.Some? && marked.value.id == first.value.id == ""
    && marked.value.name != first.value.name
  }

  /** Normalising again changes nothing, exactly unless two empty ids clash. */
  lemma NormalizeIsIdempotentExactlyWithoutAClash(p: Prefs, library: seq<ModelEntry>, models: seq<Model>)
    requires NoDup(p.chat) && NoDup(p.media)
    ensures var n := Normalized(p, library, models);
            Normalized(n, library, models) == n <==> !EmptyIdsClash(p, library, models)
  {
    var s, n := Seeded(p, library), Normalized(p, library, models);
    LedOk(s.chat, s.chatDefault);
    LedOk(s.media, s.imageDefault);
    var twice := Normalized(n, library, models);
    assert twice.chat == n.chat && twice.media == n.media;
    assert twice.chatDefault == n.chatDefault && twice.imageDefault == n.imageDefault;
    if EmptyIdsClash(p, library, models) {
      assert n.labels[""] == FirstUsable(models).value.name && twice.labels[""] == Marked(library).value.name;
    }
  }

  // ---- every run of preference operations ----

  datatype Op =
    | MakeDefault(model: Model)
    | Toggle(model: Model)
    | Remove(id: string)
    | Move(tab: Tab, id: string, up: bool)
    | Reorder(tab: Tab, ids: seq<string>)
    | Normalize(library: seq<ModelEntry>, models: seq<Model>)

  function Apply(p: Prefs, op: Op): Prefs {
    match op
    case MakeDefault(m) => SetDefault(p, m)
    case Toggle(m) => var r := ToggleFavorite(p, m); if r.Some? then r.value else p
    case Remove(id) => var r := Unstar(p, id); if r.Some? then r.value else p
    case Move(tab, id, up) => Moved(p, tab, id, if up then -1 else 1)
    case Reorder(tab, ids) => Reordered(p, tab, ids)
    case Normalize(library, models) => Normalized(p, library, models)
  }

  function ApplyAll(p: Prefs, ops: seq<Op>): Prefs
    decreases |ops|
  {
    if ops == [] then p else ApplyAll(Apply(p, ops[0]), ops[1..])
  }

  lemma OpKeepsOk(p: Prefs, op: Op)
    requires Ok(p) && (op.Reorder? ==> NoDup(op.ids))
    ensures Ok(Apply(p, op))
  {
    match op
    case MakeDefault(m) => WithFirstOk(Favorites(p, TabOf(m)), m.id);
    case Toggle(m) =>
      var tab := TabOf(m);
      if m.id !in Favorites(p, tab) { NoDupAppend(Favorites(p, tab), [m.id]); }
      else if DefaultFor(p, tab) != Some(m.id) { UnstarOk(Favorites(p, tab), DefaultFor(p, tab), m.id); }
    case Remove(id) =>
      var tab := if id in p.media then MediaTab else ChatTab;
      if DefaultFor(p, tab) != Some(id) { UnstarOk(Favorites(p, tab), DefaultFor(p, tab), id); }
    case Move(tab, id, up) => MovedOk(p, tab, id, if up then -1 else 1);
    case Reorder(tab, ids) => ReorderIsAPermutation(p, tab, ids);
    case Normalize(library, models) => NormalizeEstablishes(p, library, models);
  }

  lemma {:induction false} EveryRunKeepsOk(p: Prefs, ops: seq<Op>)
    requires Ok(p) && forall op | op in ops :: op.Reorder? ==> NoDup(op.ids)
    ensures Ok(ApplyAll(p, ops))
    decreases |ops|
  {
    if ops != [] {
      assert ops[0] in ops;
      OpKeepsOk(p, ops[0]);
      EveryRunKeepsOk(Apply(p, ops[0]), ops[1..]);
    }
  }

  // ---- each operation on the whole preferences ----

  /** Making a model the default puts it first among the favorites of its kind, keeps the
   * others in order, and remembers its name. A video model is no default. */
  lemma DefaultLeads(p: Prefs, m: Model)
    ensures var r := SetDefault(p, m);
            match m.modality
            case Video => r == p
            case Chat =>
              r == p.(chatDefault := Some(m.id), labels := p.labels[m.id := m.name],
                      chat := [m.id] + Filter(p.chat, (x: string) => x != m.id))
            case Image =>
              r == p.(imageDefault := Some(m.id), labels := p.labels[m.id := m.name],
                      media := [m.id] + Filter(p.media, (x: string) => x != m.id))
  {
    FilterSame(p.chat, OtherThan(m.id), (x: string) => x != m.id);
    FilterSame(p.media, OtherThan(m.id), (x: string) => x != m.id);
  }

  /** Starring adds a model at the end of its tab and remembers its name; unstarring takes
   * it out and keeps the others in order; the tab's default cannot be unstarred. */
  lemma StarsToggle(p: Prefs, m: Model)
    ensures var r, x := ToggleFavorite(p, m), (y: string) => y != m.id;
            if m.modality == Chat then
              if m.id !in p.chat then r == Some(p.(chat := p.chat + [m.id], labels := p.labels[m.id := m.name]))
              else if p.chatDefault == Some(m.id) then r == None
              else r == Some(p.(chat := Filter(p.chat, x)))
            else
              if m.id !in p.media then r == Some(p.(media := p.media + [m.id], labels := p.labels[m.id := m.name]))
              else if p.imageDefault == Some(m.id) then r == None
              else r == Some(p.(media := Filter(p.media, x)))
  {
    FilterSame(p.chat, OtherThan(m.id), (y: string) => y != m.id);
    FilterSame(p.media, OtherThan(m.id), (y: string) => y != m.id);
  }

  /** A model that is not listed right now can be taken out of its tab, but not when it is
   * a default. */
  lemma UnlistedStarsGo(p: Prefs, id: string)
    ensures var r, x := Unstar(p, id), (y: string) => y != id;
            if p.chatDefault == Some(id) || p.imageDefault == Some(id) then r == None
            else if id in p.media then r == Some(p.(media := Filter(p.media, x)))
            else r == Some(p.(chat := Filter(p.chat, x)))
  {
    FilterSame(p.chat, OtherThan(id), (y: string) => y != id);
    FilterSame(p.media, OtherThan(id), (y: string) => y != id);
  }

  lemma {:induction false} IndexOfFirst(list: seq<string>, i: nat)
    requires i < |list| && forall j | 0 <= j < i :: list[j] != list[i]
    ensures IndexOf(list, list[i]) == i
  {
    if i > 0 { IndexOfFirst(list[1..], i - 1); }
  }

  lemma CanMoveReads(p: Prefs, tab: Tab, i: nat, delta: int)
    requires delta == -1 || delta == 1
    requires i < |Favorites(p, tab)| && forall j | 0 <= j < i :: Favorites(p, tab)[j] != Favorites(p, tab)[i]
    ensures var list, d := Favorites(p, tab), DefaultFor(p, tab);
            && IndexOf(list, list[i]) == i
            && (CanMove(p, tab, list[i], delta) <==>
                  0 <= i + delta < |list| && !(IsSet(d) && list[0] == d.value && (i == 0 || i + delta == 0)))
  {
    IndexOfFirst(Favorites(p, tab), i);
  }

  /** A move swaps a favorite with its neighbour exactly when both slots are there and
   * neither is the pinned default's; otherwise nothing moves. */
  lemma MoveSwapsNeighbours(p: Prefs, tab: Tab, i: nat, delta: int)
    requires delta == -1 || delta == 1
    requires var list := if tab == ChatTab then p.chat else p.media;
             i < |list| && forall j | 0 <= j < i :: list[j] != list[i]
    ensures var list, d := if tab == ChatTab then p.chat else p.media, if tab == ChatTab then p.chatDefault else p.imageDefault;
            var pinned := d.Some? && d.value != "" && list[0] == d.value;
            var r := Moved(p, tab, list[i], delta);
            if 0 <= i + delta < |list| && !(pinned && (i == 0 || i + delta == 0)) then
              var list' := list[i := list[i + delta]][i + delta := list[i]];
              r == if tab == ChatTab then p.(chat := list') else p.(media := list')
            else r == p
    ensures forall id | id !in (if tab == ChatTab then p.chat else p.media) :: Moved(p, tab, id, delta) == p
  {
    CanMoveReads(p, tab, i, delta);
  }

  /** Picks what is in `list`, or not in `ids`, and is not the default that is pinned. */
  function DraggedFrom(list: seq<string>, d: Option<string>): string -> bool {
    x => x in list && !(d.Some? && d.value != "" && x == d.value)
  }

  function LeftBy(ids: seq<string>, d: Option<string>): string -> bool {
    x => x !in ids && !(d.Some? && d.value != "" && x == d.value)
  }

  /** A drop: the default stays first; then come the favorites that were dragged, in the
   * order of the drop, then the rest in the order they had. */
  lemma ReorderFollowsTheDrop(p: Prefs, tab: Tab, ids: seq<string>)
    requires Ok(p)
    ensures var list, d := if tab == ChatTab then p.chat else p.media, if tab == ChatTab then p.chatDefault else p.imageDefault;
            var list' := (if d.Some? && d.value != "" then [d.value] else [])
                         + Filter(ids, DraggedFrom(list, d)) + Filter(list, LeftBy(ids, d));
            Reordered(p, tab, ids) == if tab == ChatTab then p.(chat := list') else p.(media := list')
  {
    var list, d := Favorites(p, tab), DefaultFor(p, tab);
    ReorderShape(p, tab, ids);
    DropReads(list, ids, d);
    NothingInFront(Filter(ids, DraggedFrom(list, d)), Filter(list, LeftBy(ids, d)));
  }

  lemma DropReads(list: seq<string>, ids: seq<string>, d: Option<string>)
    ensures var known := Filter(ids, In(list));
            var rest := Filter(list, Not(In(known)));
            && (if IsSet(d) then Filter(known, OtherThan(d.value)) else known) == Filter(ids, DraggedFrom(list, d))
            && (if IsSet(d) then Filter(rest, OtherThan(d.value)) else rest) == Filter(list, LeftBy(ids, d))
  {
    DropSplits(list, ids, Free(d));
    FreeReads(Filter(ids, In(list)), d);
    FreeReads(Filter(list, Not(In(Filter(ids, In(list))))), d);
    FilterSame(ids, Both(In(list), Free(d)), DraggedFrom(list, d));
    FilterSame(list, Both(Not(In(ids)), Free(d)), LeftBy(ids, d));
  }

  lemma NothingInFront(a: seq<string>, b: seq<string>)
    ensures [] + a + b == a + b
  {
  }

  /** Not the pinned default. */
  function Free(d: Option<string>): string -> bool {
    x => !(IsSet(d) && x == d.value)
  }

  lemma FreeReads(list: seq<string>, d: Option<string>)
    ensures Filter(list, Free(d)) == if IsSet(d) then Filter(list, OtherThan(d.value)) else list
  {
    if IsSet(d) { FilterSame(list, Free(d), OtherThan(d.value)); } else { FilterAll(list, Free(d)); }
  }

  lemma DropSplits(list: seq<string>, ids: seq<string>, free: string -> bool)
    ensures var known := Filter(ids, In(list));
            && Filter(known, free) == Filter(ids, Both(In(list), free))
            && Filter(Filter(list, Not(In(known))), free) == Filter(list, Both(Not(In(ids)), free))
  {
    var known := Filter(ids, In(list));
    FilterTwice(ids, In(list), free);
    FilterTwice(list, Not(In(known)), free);
    forall x | x in list ensures Both(Not(In(known)), free)(x) == Both(Not(In(ids)), free)(x) {
      FilterIn(ids, In(list), x);
    }
    FilterSame(list, Both(Not(In(known)), free), Both(Not(In(ids)), free));
  }

  /** Normalising, field by field: the first marked entry becomes the chat default when
   * none is set; each default that does not lead is brought to the front; and with no
   * chat favorite left, the first chat model that is available becomes one. */
  lemma NormalizeReads(p: Prefs, library: seq<ModelEntry>, models: seq<Model>)
    ensures var n := Normalized(p, library, models);
            var marked := Find(library, (e: ModelEntry) => e.isDefault);
            var first := Find(models, (m: Model) => m.modality == Chat && m.available);
            var seeds := (p.chatDefault.None? || p.chatDefault.value == "") && marked.Some?;
            && n.chatDefault == (if seeds then Some(marked.value.id) else p.chatDefault) && n.imageDefault == p.imageDefault
            && n.media == BroughtFirst(p.media, n.imageDefault)
            && var chat := BroughtFirst(p.chat, n.chatDefault);
               var labels := if seeds then p.labels[marked.value.id := marked.value.name] else p.labels;
               if chat == [] && first.Some? then
                 n.chat == [first.value.id] && n.labels == labels[first.value.id := first.value.name]
               else n.chat == chat && n.labels == labels
  {
    forall m | m in models ensures (IsChat(m) && m.available) == (m.modality == Chat && m.available) {
    }
    FindSame(models, (m: Model) => IsChat(m) && m.available, (m: Model) => m.modality == Chat && m.available);
    FindSame(library, (e: ModelEntry) => e.isDefault, (e: ModelEntry) => e.isDefault);
    var s := Seeded(p, library);
    LedReads(s.chat, s.chatDefault);
    LedReads(s.media, s.imageDefault);
  }

  function BroughtFirst(list: seq<string>, d: Option<string>): seq<string> {
    if d.None? || d.value == "" || (list != [] && list[0] == d.value) then list
    else [d.value] + Filter(list, (x: string) => x != d.value)
  }

  lemma LedReads(list: seq<string>, d: Option<string>)
    ensures Led(list, d) == BroughtFirst(list, d)
  {
    if d.Some? { FilterSame(list, OtherThan(d.value), (x: string) => x != d.value); }
  }
}
