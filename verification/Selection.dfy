/** Which chat model to use, and keeping the selection on something that exists. */
module Selection {
  import opened Seqs
  import opened ModelPrefs

  datatype Via = Default | Favorite | Fallback
  datatype Resolved = Resolved(id: Option<string>, skippedDefault: Option<string>, via: Via)

  function HasId(id: string): Model -> bool {
    (m: Model) => m.id == id
  }

  function IsChatModel(): Model -> bool {
    (m: Model) => IsChat(m)
  }

  /** The listed model of that id, when it is a chat model. */
  function ChatOf(models: seq<Model>, id: Option<string>): Option<Model> {
    if !IsSet(id) then None
    else
      var m := Find(models, HasId(id.value));
      if m.Some? && IsChat(m.value) then m else None
  }

  function Usable(models: seq<Model>): string -> bool {
    id => ChatOf(models, Some(id)).Some?
  }

  function ResolveChatModel(models: seq<Model>, library: seq<ModelEntry>, p: Prefs): Resolved {
    if ChatOf(models, p.chatDefault).Some? then Resolved(p.chatDefault, None, Default)
    else
      var favorite := Find(p.chat, Usable(models));
      if favorite.Some? then Resolved(favorite, p.chatDefault, Favorite)
      else
        var marked := Marked(library);
        var byMark := ChatOf(models, if marked.Some? then Some(marked.value.id) else None);
        var any := Find(models, IsChatModel());
        var id := if byMark.Some? then Some(byMark.value.id)
                  else if any.Some? then Some(any.value.id)
                  else if models != [] then Some(models[0].id) else None;
        Resolved(id, p.chatDefault, Fallback)
  }

  // ---- the order of preference, as one list ----

  function OptionToSeq(o: Option<string>): seq<string> {
    if o.Some? then [o.value] else []
  }

  /** Default, favorites, the marked model, then the list of chat models. */
  function Candidates(models: seq<Model>, library: seq<ModelEntry>, p: Prefs): seq<string> {
    var marked := Marked(library);
    OptionToSeq(p.chatDefault) + p.chat + OptionToSeq(if marked.Some? then Some(marked.value.id) else None)
      + Map(Filter(models, IsChatModel()), (m: Model) => m.id)
  }

  ghost predicate Listed(models: seq<Model>, id: string) {
    exists m :: m in models && m.id == id
  }

  /** Ids are what tells models apart. */
  ghost predicate ProperIds(models: seq<Model>) {
    && (forall m | m in models :: m.id != "")
    && (forall i, j | 0 <= i < j < |models| :: models[i].id != models[j].id)
  }

  lemma ChatOfIsListed(models: seq<Model>, id: Option<string>)
    requires ChatOf(models, id).Some?
    ensures id.Some? && ChatOf(models, id).value in models && ChatOf(models, id).value.id == id.value
    ensures IsChat(ChatOf(models, id).value)
  {
    FindSound(models, HasId(id.value));
  }

  /** A chat model whenever one is listed, never a media model in its place. */
  lemma ResolvesToAChatModel(models: seq<Model>, library: seq<ModelEntry>, p: Prefs)
    requires exists m :: m in models && IsChat(m)
    ensures var r := ResolveChatModel(models, library, p);
            r.id.Some? && exists m :: m in models && IsChat(m) && m.id == r.id.value
  {
    var marked := Marked(library);
    var markedId := if marked.Some? then Some(marked.value.id) else None;
    FindSound(models, IsChatModel());
    FindSound(p.chat, Usable(models));
    if ChatOf(models, p.chatDefault).Some? {
      ChatOfIsListed(models, p.chatDefault);
    } else if Find(p.chat, Usable(models)).Some? {
      ChatOfIsListed(models, Find(p.chat, Usable(models)));
    } else if ChatOf(models, markedId).Some? {
      ChatOfIsListed(models, markedId);
    }
  }

  lemma AnyResolvesToAListedModel(models: seq<Model>, library: seq<ModelEntry>, p: Prefs)
    requires models != []
    ensures var r := ResolveChatModel(models, library, p); r.id.Some? && Listed(models, r.id.value)
  {
    if exists m :: m in models && IsChat(m) {
      ResolvesToAChatModel(models, library, p);
    } else {
      forall id | ChatOf(models, id).Some? ensures false { ChatOfIsListed(models, id); }
      FindSound(p.chat, Usable(models));
      FindSound(models, IsChatModel());
      assert models[0] in models;
    }
  }

  lemma UsableByItself(models: seq<Model>, m: Model)
    requires ProperIds(models) && m in models && IsChat(m)
    ensures Usable(models)(m.id)
  {
    FindUnique(models, HasId(m.id), m);
  }

  lemma {:induction false} FirstChatIsFirstUsable(models: seq<Model>, list: seq<Model>)
    requires ProperIds(models) && forall m | m in list :: m in models
    ensures var ids := Map(Filter(list, IsChatModel()), (m: Model) => m.id);
            var any := Find(list, IsChatModel());
            Find(ids, Usable(models)) == if any.Some? then Some(any.value.id) else None
  {
    if list != [] {
      var id := (m: Model) => m.id;
      if IsChat(list[0]) {
        UsableByItself(models, list[0]);
        assert Map(Filter(list, IsChatModel()), id)[0] == list[0].id;
      } else {
        assert Filter(list, IsChatModel()) == Filter(list[1..], IsChatModel());
        FirstChatIsFirstUsable(models, list[1..]);
      }
    }
  }

  /** The whole fallback chain is: the first usable id of one list of candidates. */
  lemma ResolvesToTheFirstUsable(models: seq<Model>, library: seq<ModelEntry>, p: Prefs)
    requires ProperIds(models) && exists m :: m in models && IsChat(m)
    ensures ResolveChatModel(models, library, p).id == Find(Candidates(models, library, p), Usable(models))
  {
    var usable := Usable(models);
    var marked := Marked(library);
    var markedId := if marked.Some? then Some(marked.value.id) else None;
    var d, m := OptionToSeq(p.chatDefault), OptionToSeq(markedId);
    var rest := Map(Filter(models, IsChatModel()), (m: Model) => m.id);
    FindAppend(d + p.chat + m, rest, usable);
    FindAppend(d + p.chat, m, usable);
    FindAppend(d, p.chat, usable);
    FirstChatIsFirstUsable(models, models);
    FindSound(models, IsChatModel());
    FindOptional(p.chatDefault, usable);
    FindOptional(markedId, usable);
    if ChatOf(models, markedId).Some? { ChatOfIsListed(models, markedId); }
  }

  lemma FindOptional(o: Option<string>, f: string -> bool)
    ensures Find(OptionToSeq(o), f) == if o.Some? && f(o.value) then o else None
  {
    if o.Some? { assert [o.value][1..] == []; }
  }

  // ---- keeping the selection ----

  datatype State = State(
    models: seq<Model>,
    library: seq<ModelEntry>,
    prefs: Prefs,
    selected: string,
    lastChat: string,
    settled: bool,
    notice: Option<string>,
    noticeFor: Option<string>
  )

  function LabelOf(p: Prefs, id: string): string {
    if id in p.labels then p.labels[id] else "Your default model"
  }

  function NameOf(models: seq<Model>, id: string): string {
    var m := Find(models, HasId(id));
    if m.Some? then m.value.name else "another model"
  }

  function SkippedNotice(p: Prefs, r: Resolved, models: seq<Model>): Option<string> {
    if !IsSet(r.skippedDefault) || !IsSet(r.id) then None
    else
      Some(LabelOf(p, r.skippedDefault.value) + " isn't available right now. Using " + NameOf(models, r.id.value)
           + if r.via == Favorite then ", your next favorite." else ".")
  }

  /** `reconcileSelection`, applied to the state its patch goes into. */
  function Reconcile(s: State): State {
    var r := ResolveChatModel(s.models, s.library, s.prefs);
    var gone := (id: string) => Find(s.models, HasId(id)).None?;
    var moves := (!s.settled || gone(s.selected)) && IsSet(r.id);
    var s1 := if moves then s.(selected := r.id.value) else s;
    var s2 := if (!s.settled || gone(s.lastChat)) && IsSet(r.id) then s1.(lastChat := r.id.value) else s1;
    if s.settled && moves && IsSet(r.skippedDefault) && s.noticeFor != r.skippedDefault then
      s2.(notice := SkippedNotice(s.prefs, r, s.models), noticeFor := r.skippedDefault)
    else s2
  }

  /** A refresher replaces the composed list, then reconciles. */
  function Refresh(s: State, models: seq<Model>, library: seq<ModelEntry>): State {
    Reconcile(s.(models := models, library := library))
  }

  function Prepared(s: State, prefsLoaded: bool): State {
    if prefsLoaded then s.(prefs := Normalized(s.prefs, s.library, s.models)) else s
  }

  /** `settleSelection`: every source has answered once. */
  function Settle(s: State, prefsLoaded: bool): State {
    var s1 := Prepared(s, prefsLoaded);
    var s2 := if s.settled then s1 else Reconcile(s1);
    var r := ResolveChatModel(s.models, s.library, s1.prefs);
    var s3 := if !s.settled && IsSet(r.skippedDefault) && s.noticeFor != r.skippedDefault
              then s2.(notice := SkippedNotice(s1.prefs, r, s.models), noticeFor := r.skippedDefault) else s2;
    s3.(settled := true)
  }

  lemma FoundIsListed(models: seq<Model>, id: string)
    ensures Find(models, HasId(id)).Some? <==> Listed(models, id)
  {
    FindSound(models, HasId(id));
  }

  /** Whatever the lists become, as long as one model is left, both ids name listed
   * models afterwards, exactly unless the resolved model has the empty id, which the
   * code takes for none. Once settled, neither id moves unless its model is gone;
   * before that, both follow the preference. */
  lemma RefreshKeepsTheSelectionListed(s: State, models: seq<Model>, library: seq<ModelEntry>)
    requires models != []
    ensures var t, r := Refresh(s, models, library), ResolveChatModel(models, library, s.prefs);
            && r.id.Some? && Listed(models, r.id.value)
            && (Listed(models, t.selected) <==> IsSet(r.id) || Listed(models, s.selected))
            && (Listed(models, t.lastChat) <==> IsSet(r.id) || Listed(models, s.lastChat))
            && t.selected == (if IsSet(r.id) && !(s.settled && Listed(models, s.selected)) then r.id.value else s.selected)
            && t.lastChat == (if IsSet(r.id) && !(s.settled && Listed(models, s.lastChat)) then r.id.value else s.lastChat)
            && t.settled == s.settled && t.models == models && t.prefs == s.prefs
  {
    AnyResolvesToAListedModel(models, library, s.prefs);
    FoundIsListed(models, s.selected);
    FoundIsListed(models, s.lastChat);
  }

  /** So with ids as they are, never empty, both are listed after every refresh. */
  lemma RefreshListsBoth(s: State, models: seq<Model>, library: seq<ModelEntry>)
    requires models != [] && forall m | m in models :: m.id != ""
    ensures Listed(models, Refresh(s, models, library).selected) && Listed(models, Refresh(s, models, library).lastChat)
  {
    RefreshKeepsTheSelectionListed(s, models, library);
  }

  /** The empty id: the one model there is does not get selected. */
  lemma AnEmptyIdIsNotSelected(s: State)
    requires s.selected == "gone"
    ensures var models := [Model("", "unnamed", Chat, true)]; !Listed(models, Refresh(s, models, []).selected)
  {
    var models := [Model("", "unnamed", Chat, true)];
    RefreshKeepsTheSelectionListed(s, models, []);
    assert forall m | m in models :: m.id == "";
  }

  datatype Lists = Lists(models: seq<Model>, library: seq<ModelEntry>)

  function RefreshAll(s: State, changes: seq<Lists>): State
    decreases |changes|
  {
    if changes == [] then s else RefreshAll(Refresh(s, changes[0].models, changes[0].library), changes[1..])
  }

  ghost predicate StaysListed(id: string, changes: seq<Lists>) {
    forall c | c in changes :: Listed(c.models, id)
  }

  /** Over any run of refreshes a settled selection that stays listed never moves. */
  lemma {:induction false} ASettledSelectionStays(s: State, changes: seq<Lists>)
    requires s.settled
    ensures RefreshAll(s, changes).settled
    ensures StaysListed(s.selected, changes) ==> RefreshAll(s, changes).selected == s.selected
    ensures StaysListed(s.lastChat, changes) ==> RefreshAll(s, changes).lastChat == s.lastChat
    decreases |changes|
  {
    if changes != [] {
      var c, rest := changes[0], changes[1..];
      assert changes == [c] + rest;
      FoundIsListed(c.models, s.selected);
      FoundIsListed(c.models, s.lastChat);
      ASettledSelectionStays(Refresh(s, c.models, c.library), rest);
    }
  }

  /** Settling for the first time selects the resolved model and leaves sound
   * preferences; settling again moves nothing. */
  lemma SettleSelects(s: State, prefsLoaded: bool)
    requires s.models != []
    requires NoDup(s.prefs.chat) && NoDup(s.prefs.media)
    ensures var t := Settle(s, prefsLoaded); var r := ResolveChatModel(s.models, s.library, t.prefs);
            && t.settled && (prefsLoaded ==> Ok(t.prefs))
            && (s.settled ==> t.selected == s.selected && t.lastChat == s.lastChat)
            && (!s.settled && IsSet(r.id) ==> Listed(s.models, t.selected) && t.lastChat == t.selected == r.id.value)
  {
    var s1 := Prepared(s, prefsLoaded);
    SettleKeepsTheRest(s, prefsLoaded);
    assert prefsLoaded ==> Ok(s1.prefs) by { NormalizeEstablishes(s.prefs, s.library, s.models); }
    if !s.settled {
      RefreshKeepsTheSelectionListed(s1, s1.models, s1.library);
      assert Reconcile(s1) == Refresh(s1, s1.models, s1.library);
    }
  }

  lemma SettleKeepsTheRest(s: State, prefsLoaded: bool)
    ensures var s1, t := Prepared(s, prefsLoaded), Settle(s, prefsLoaded);
            var s2 := if s.settled then s1 else Reconcile(s1);
            t.settled && t.prefs == s1.prefs && t.selected == s2.selected && t.lastChat == s2.lastChat
  {
  }

  // ---- how the model was reached, and what is said about it ----

  predicate FirstNamed(models: seq<Model>, id: string, n: int) {
    0 <= n < |models| && models[n].id == id && forall m | 0 <= m < n :: models[m].id != id
  }

  /** The first model of that id is there and is a chat model. */
  ghost predicate ChatNamed(models: seq<Model>, id: string) {
    id != "" && exists n :: FirstNamed(models, id, n) && models[n].modality == Chat
  }

  lemma UsableReads(models: seq<Model>, id: string)
    ensures Usable(models)(id) <==> ChatNamed(models, id)
  {
    FindSound(models, HasId(id));
    if Find(models, HasId(id)).Some? {
      var n := FindFirst(models, HasId(id));
      assert FirstNamed(models, id, n) by {
        forall m | 0 <= m < n ensures models[m].id != id { assert !HasId(id)(models[m]); }
      }
      assert forall k | FirstNamed(models, id, k) :: k == n;
      assert ChatOf(models, Some(id)).Some? <==> id != "" && IsChat(models[n]);
    } else {
      assert forall k | 0 <= k < |models| :: !HasId(id)(models[k]);
    }
  }

  /** The default when it can be used, with nothing skipped. Otherwise the default, if one
   * was set, is what was skipped: reached is the first favorite that can be used, or a
   * fallback when none can. */
  lemma ResolvedReads(models: seq<Model>, library: seq<ModelEntry>, p: Prefs)
    ensures var r := ResolveChatModel(models, library, p);
            if p.chatDefault.Some? && ChatNamed(models, p.chatDefault.value) then r == Resolved(p.chatDefault, None, Default)
            else
              && r.skippedDefault == p.chatDefault
              && (r.via == Fallback <==> forall x | x in p.chat :: !ChatNamed(models, x))
              && (r.via == Favorite <==> exists x :: x in p.chat && ChatNamed(models, x))
              && (r.via == Favorite ==>
                    exists n :: 0 <= n < |p.chat| && r.id == Some(p.chat[n]) && ChatNamed(models, p.chat[n])
                                && forall m | 0 <= m < n :: !ChatNamed(models, p.chat[m]))
  {
    if p.chatDefault.Some? { UsableReads(models, p.chatDefault.value); }
    forall x ensures Usable(models)(x) <==> ChatNamed(models, x) { UsableReads(models, x); }
    FindSound(p.chat, Usable(models));
    if Find(p.chat, Usable(models)).Some? { var _ := FindFirst(p.chat, Usable(models)); }
  }

  /** The line said when the default had to be skipped. */
  function Line(p: Prefs, models: seq<Model>, was: string, r: Resolved): Option<string> {
    if r.id.None? || r.id.value == "" then None
    else
      var now := Find(models, (m: Model) => m.id == r.id.value);
      Some((if was in p.labels then p.labels[was] else "Your default model") + " isn't available right now. Using "
           + (if now.Some? then now.value.name else "another model")
           + if r.via == Favorite then ", your next favorite." else ".")
  }

  /** A refresh says so exactly when the settled selection had to move, past a default
   * that was set and that it has not said this about before. */
  lemma RefreshSaysSoOnce(s: State, models: seq<Model>, library: seq<ModelEntry>)
    ensures var t, r := Refresh(s, models, library), ResolveChatModel(models, library, s.prefs);
            var skipped := r.skippedDefault.Some? && r.skippedDefault.value != "";
            var moves := s.settled && !Listed(models, s.selected) && r.id.Some? && r.id.value != "";
            if moves && skipped && s.noticeFor != r.skippedDefault then
              t.notice == Line(s.prefs, models, r.skippedDefault.value, r) && t.noticeFor == r.skippedDefault
            else t.notice == s.notice && t.noticeFor == s.noticeFor
  {
    var r := ResolveChatModel(models, library, s.prefs);
    FoundIsListed(models, s.selected);
    if r.id.Some? { FindSame(models, HasId(r.id.value), (m: Model) => m.id == r.id.value); }
  }

  /** So does settling, the first time only, whether or not the selection moved. */
  lemma SettlingSaysSoOnce(s: State, prefsLoaded: bool)
    ensures var t := Settle(s, prefsLoaded);
            var p := if prefsLoaded then Normalized(s.prefs, s.library, s.models) else s.prefs;
            var r := ResolveChatModel(s.models, s.library, p);
            && t.prefs == p
            && if !s.settled && r.skippedDefault.Some? && r.skippedDefault.value != "" && s.noticeFor != r.skippedDefault then
                 t.notice == Line(p, s.models, r.skippedDefault.value, r) && t.noticeFor == r.skippedDefault
               else t.notice == s.notice && t.noticeFor == s.noticeFor
  {
    var r := ResolveChatModel(s.models, s.library, Prepared(s, prefsLoaded).prefs);
    if r.id.Some? { FindSame(s.models, HasId(r.id.value), (m: Model) => m.id == r.id.value); }
  }
}
