/** The persisted tab set: reading whatever is stored, dropping what no longer
 * resolves, and writing the strip back. */
module TabSet {
  import opened Seqs
  import opened JsonValues
  import opened Shell

  const DOCK_VIEWS: seq<string> := ["files", "artifacts", "agents", "browser", "changes"]

  datatype Restored = Restored(tabs: seq<ItemRef>, activeItem: Option<string>, dockView: string)

  /** A field of a parsed value; arrays and other values have none of those read here. */
  function Member(j: Json, name: string): Option<Json> {
    if j.Obj? then At(j.fields, name) else None
  }

  /** JavaScript's `??` on two fields: absent and null both fall through. */
  function Coalesce(a: Option<Json>, b: Option<Json>): Option<Json> {
    if a.None? || a.value == Null then b else a
  }

  function AsString(j: Option<Json>): Option<string> {
    if j.Some? && j.value.Str? then Some(j.value.s) else None
  }

  function KindOf(name: string): Option<Kind> {
    if name == "file" then Some(File)
    else if name == "artifact" then Some(Artifact)
    else if name == "run" then Some(Run)
    else if name == "diff" then Some(Diff)
    else None
  }

  /** `isItemRef`, and the item it lets through. */
  function ReadItem(x: Json): Option<ItemRef> {
    var chat, line, id, kind := Member(x, "conversationId"), Member(x, "line"), Member(x, "id"), AsString(Member(x, "kind"));
    if (chat.Some? && !chat.value.Str?) || (line.Some? && !line.value.Num?) then None
    else if AsString(id).None? || kind.None? || KindOf(kind.value).None? then None
    else
      Some(ItemRef(KindOf(kind.value).value, id.value.s, if line.Some? then Some(line.value.n) else None, AsString(chat)))
  }

  /** Each item that can be read, stamped with its chat; one that has none is dropped. */
  function ReadItems(items: seq<Json>, setChat: Option<string>): seq<ItemRef> {
    if items == [] then []
    else
      var t := ReadItem(items[0]);
      var chat := if t.Some? && t.value.conversation.Some? then t.value.conversation else setChat;
      (if t.Some? && chat.Some? && chat.value != "" then [t.value.(conversation := chat)] else [])
        + ReadItems(items[1..], setChat)
  }

  /** A section of the old strip, read as the sub-view it became. */
  function LegacyPanel(x: Json): Option<string> {
    var id := AsString(Member(x, "id"));
    if Member(x, "kind") == Some(Str("panel")) && id.Some? && id.value in DOCK_VIEWS then id else None
  }

  function LastPanel(items: seq<Json>, view: string): string {
    if items == [] then view
    else LastPanel(items[1..], var p := LegacyPanel(items[0]); if p.Some? then p.value else view)
  }

  function StoredItems(parsed: Json): seq<Json> {
    var items, docs := Member(parsed, "itemTabs"), Member(parsed, "docTabs");
    if items.Some? && items.value.Arr? then items.value.items
    else if docs.Some? && docs.value.Arr? then docs.value.items
    else []
  }

  function SetChat(parsed: Json): Option<string> {
    AsString(Coalesce(Member(parsed, "itemConversationId"), Member(parsed, "docConversationId")))
  }

  function DockViewOf(parsed: Json): string {
    var view := AsString(Member(parsed, "dockView"));
    if view.Some? && view.value in DOCK_VIEWS then view.value else LastPanel(StoredItems(parsed), "files")
  }

  /** What is on disk, before asking what still resolves. `None` is nothing stored,
   * or text that does not parse. */
  function Saved(raw: Option<Json>): Restored {
    if raw.None? then Restored([], None, "files")
    else
      var p := raw.value;
      Restored(ReadItems(StoredItems(p), SetChat(p)),
               AsString(Coalesce(Member(p, "activeItemId"), Member(p, "activeDocId"))), DockViewOf(p))
  }

  // ---- what still resolves ----

  /** Is the path inside the folder? Any relation; the source normalises both first. */
  type Inside = (string, string) -> bool

  /** A later chat of the same id hides an earlier one, as in a JavaScript `Map`. */
  function Owner(conversations: seq<Conversation>, id: string): Option<Conversation> {
    if conversations == [] then None
    else
      var last := conversations[|conversations| - 1];
      if last.id == id then Some(last) else Owner(conversations[..|conversations| - 1], id)
  }

  predicate HasFolder(c: Conversation) {
    c.folder.Some? && c.folder.value != ""
  }

  function Resolves(conversations: seq<Conversation>, inside: Inside): ItemRef -> bool {
    (t: ItemRef) =>
      t.conversation.Some? && t.conversation.value != "" &&
      var owner := Owner(conversations, t.conversation.value);
      owner.Some? &&
      match t.kind
      case Diff => HasFolder(owner.value)
      case File => HasFolder(owner.value) && inside(t.id, owner.value.folder.value)
      case _ => true
  }

  method ValidateTabSet(raw: Option<Json>, conversations: seq<Conversation>, inside: Inside) returns (r: Restored)
    requires conversations != []
    ensures r == Validated(raw, conversations, inside)
  {
    var tabs: seq<ItemRef>, active: Option<string>, view := [], None, "files";
    if raw.Some? && (raw.value.Obj? || raw.value.Arr?) {
      var parsed := raw.value;
      var stored := StoredItems(parsed);
      for i := 0 to |stored|
        invariant LastPanel(stored[i..], view) == LastPanel(stored, "files")
      {
        var panel := LegacyPanel(stored[i]);
        if panel.Some? { view := panel.value; }
      }
      var dock := AsString(Member(parsed, "dockView"));
      if dock.Some? && dock.value in DOCK_VIEWS { view := dock.value; }
      tabs := ReadItems(stored, SetChat(parsed));
      active := AsString(Coalesce(Member(parsed, "activeItemId"), Member(parsed, "activeDocId")));
    }
    tabs := Filter(tabs, Resolves(conversations, inside));
    var item := if active.Some? then Find(tabs, HasKey(active.value)) else None;
    if item.None? || item.value.conversation != Some(conversations[0].id) { active := None; }
    return Restored(tabs, active, view);
  }

  function FocusedOn(tabs: seq<ItemRef>, active: Option<string>, chat: string): Option<string> {
    var item := if active.Some? then Find(tabs, HasKey(active.value)) else None;
    if item.Some? && item.value.conversation == Some(chat) then active else None
  }

  function Validated(raw: Option<Json>, conversations: seq<Conversation>, inside: Inside): Restored
    requires conversations != []
  {
    var saved := Saved(raw);
    var tabs := Filter(saved.tabs, Resolves(conversations, inside));
    Restored(tabs, FocusedOn(tabs, saved.activeItem, conversations[0].id), saved.dockView)
  }

  // ---- writing ----

  function ItemJson(t: ItemRef): Json {
    var m := map["kind" := Str(KindName(t.kind)), "id" := Str(t.id)];
    var m1 := if t.line.Some? then m["line" := Num(t.line.value)] else m;
    Obj(if t.conversation.Some? then m1["conversationId" := Str(t.conversation.value)] else m1)
  }

  function Persisted(tabs: seq<ItemRef>, activeItem: Option<string>, dockView: string): Json {
    Obj(map["itemTabs" := Arr(Map(tabs, ItemJson)),
            "activeItemId" := if activeItem.Some? then Str(activeItem.value) else Null,
            "dockView" := Str(dockView)])
  }

  // ---- reading back what was written ----

  lemma ItemRoundTrip(t: ItemRef)
    ensures ReadItem(ItemJson(t)) == Some(t)
  {
    var j := ItemJson(t);
    assert Member(j, "kind") == Some(Str(KindName(t.kind))) && Member(j, "id") == Some(Str(t.id));
    assert Member(j, "line") == if t.line.Some? then Some(Num(t.line.value)) else None;
    assert Member(j, "conversationId") == if t.conversation.Some? then Some(Str(t.conversation.value)) else None;
    assert KindOf(KindName(t.kind)) == Some(t.kind) by {
      assert KindName(t.kind)[0] == match t.kind case File => 'f' case Artifact => 'a' case Run => 'r' case Diff => 'd';
    }
  }

  lemma {:induction false} ItemsRoundTrip(tabs: seq<ItemRef>, setChat: Option<string>)
    requires Stamped(tabs)
    ensures ReadItems(Map(tabs, ItemJson), setChat) == tabs
  {
    if tabs != [] {
      ItemRoundTrip(tabs[0]);
      assert Map(tabs, ItemJson)[1..] == Map(tabs[1..], ItemJson);
      ItemsRoundTrip(tabs[1..], setChat);
    }
  }

  lemma SavedPersisted(tabs: seq<ItemRef>, activeItem: Option<string>, dockView: string)
    requires Stamped(tabs) && dockView in DOCK_VIEWS
    ensures Saved(Some(Persisted(tabs, activeItem, dockView))) == Restored(tabs, activeItem, dockView)
  {
    var p := Persisted(tabs, activeItem, dockView);
    assert Member(p, "itemTabs") == Some(Arr(Map(tabs, ItemJson)));
    assert Member(p, "dockView") == Some(Str(dockView));
    assert Member(p, "activeItemId") == Some(if activeItem.Some? then Str(activeItem.value) else Null);
    assert Member(p, "activeDocId") == None;
    ItemsRoundTrip(tabs, SetChat(p));
  }

  lemma {:induction false} ReadItemsAreStamped(items: seq<Json>, setChat: Option<string>)
    ensures Stamped(ReadItems(items, setChat))
  {
    if items != [] { ReadItemsAreStamped(items[1..], setChat); }
  }

  lemma {:induction false} LastPanelIsAView(items: seq<Json>, view: string)
    requires view in DOCK_VIEWS
    ensures LastPanel(items, view) in DOCK_VIEWS
  {
    if items != [] {
      LastPanelIsAView(items[1..], var p := LegacyPanel(items[0]); if p.Some? then p.value else view);
    }
  }

  lemma ValidatedIsProper(raw: Option<Json>, conversations: seq<Conversation>, inside: Inside)
    requires conversations != []
    ensures Stamped(Validated(raw, conversations, inside).tabs)
    ensures Validated(raw, conversations, inside).dockView in DOCK_VIEWS
  {
    var saved := Saved(raw);
    if raw.Some? {
      ReadItemsAreStamped(StoredItems(raw.value), SetChat(raw.value));
      LastPanelIsAView(StoredItems(raw.value), "files");
    }
    var p := Resolves(conversations, inside);
    forall t | t in Filter(saved.tabs, p) ensures t in saved.tabs { FilterIn(saved.tabs, p, t); }
  }

  // ---- main results ----

  // ---- what is read from disk, said on its fields ----

  /** The value stored for an item: its kind and id as texts, a line only as a number,
   * and a chat, its own or the one the whole set names. */
  predicate Encodes(x: Json, setChat: Option<string>, t: ItemRef) {
    && x.Obj?
    && At(x.fields, "kind") == Some(Str(match t.kind
                                        case File => "file"
                                        case Artifact => "artifact"
                                        case Run => "run"
                                        case Diff => "diff"))
    && At(x.fields, "id") == Some(Str(t.id))
    && At(x.fields, "line") == (if t.line.Some? then Some(Num(t.line.value)) else None)
    && t.conversation.Some? && t.conversation.value != ""
    && (At(x.fields, "conversationId") == Some(Str(t.conversation.value)) ||
        (At(x.fields, "conversationId") == None && setChat == t.conversation))
  }

  lemma KindReads(name: string, k: Kind)
    ensures KindOf(name) == Some(k) <==> name == match k
                                                  case File => "file"
                                                  case Artifact => "artifact"
                                                  case Run => "run"
                                                  case Diff => "diff"
  {
  }

  /** The item an entry gives once its chat is known. */
  function ItemOf(x: Json, setChat: Option<string>): Option<ItemRef> {
    var t := ReadItem(x);
    var chat := if t.Some? && t.value.conversation.Some? then t.value.conversation else setChat;
    if t.Some? && chat.Some? && chat.value != "" then Some(t.value.(conversation := chat)) else None
  }

  lemma ItemReads(x: Json, setChat: Option<string>, t: ItemRef)
    ensures Encodes(x, setChat, t) <==> ItemOf(x, setChat) == Some(t)
  {
    var kind := AsString(Member(x, "kind"));
    if kind.Some? { KindReads(kind.value, t.kind); }
    if ItemOf(x, setChat) == Some(t) {
      assert x.Obj? && kind.Some? && KindOf(kind.value) == Some(t.kind);
    }
  }

  /** `at` are the entries of `items` that encode an item, in order, and `tabs` the items. */
  ghost predicate ReadAt(items: seq<Json>, setChat: Option<string>, tabs: seq<ItemRef>, at: seq<nat>) {
    && |at| == |tabs|
    && (forall k | 0 <= k < |at| :: at[k] < |items| && Encodes(items[at[k]], setChat, tabs[k]))
    && (forall k, l | 0 <= k < l < |at| :: at[k] < at[l])
    && (forall i: nat | i < |items| && i !in at :: forall t :: !Encodes(items[i], setChat, t))
  }

  lemma ReadAtSnoc(items: seq<Json>, setChat: Option<string>, tabs: seq<ItemRef>, at: seq<nat>, x: Json)
    requires ReadAt(items, setChat, tabs, at)
    ensures ItemOf(x, setChat).None? ==> ReadAt(items + [x], setChat, tabs, at)
    ensures ItemOf(x, setChat).Some? ==>
              ReadAt(items + [x], setChat, tabs + [ItemOf(x, setChat).value], at + [|items|])
  {
    var all := items + [x];
    forall t ensures Encodes(x, setChat, t) <==> ItemOf(x, setChat) == Some(t) { ItemReads(x, setChat, t); }
    forall i: nat | i < |items| ensures all[i] == items[i] {
    }
    if ItemOf(x, setChat).Some? {
      var at' := at + [|items|];
      forall i: nat | i < |all| && i !in at' ensures forall t :: !Encodes(all[i], setChat, t) {
        assert at'[|at|] == |items|;
        assert forall n :: n in at ==> n in at';
      }
    }
  }

  lemma {:induction false} ReadItemsSnoc(items: seq<Json>, x: Json, setChat: Option<string>)
    ensures ReadItems(items + [x], setChat)
            == ReadItems(items, setChat) + if ItemOf(x, setChat).Some? then [ItemOf(x, setChat).value] else []
  {
    if items == [] {
      assert items + [x] == [x] && [x][1..] == [];
    } else {
      assert (items + [x])[1..] == items[1..] + [x];
      ReadItemsSnoc(items[1..], x, setChat);
    }
  }

  /** The items read are those the entries encode, one each and in their order; an entry
   * that encodes none is passed over. */
  lemma {:induction false} ReadsExactlyTheItems(items: seq<Json>, setChat: Option<string>) returns (at: seq<nat>)
    ensures ReadAt(items, setChat, ReadItems(items, setChat), at)
  {
    if items == [] {
      at := [];
    } else {
      var init, x := items[..|items| - 1], items[|items| - 1];
      at := ReadsExactlyTheItems(init, setChat);
      ReadAtSnoc(init, setChat, ReadItems(init, setChat), at, x);
      ReadItemsSnoc(init, x, setChat);
      assert init + [x] == items;
      if ItemOf(x, setChat).Some? { at := at + [|init|]; }
    }
  }

  /** An old strip's entry for a section of the sidebar. */
  predicate IsPanel(x: Json, view: string) {
    x.Obj? && At(x.fields, "kind") == Some(Str("panel")) && At(x.fields, "id") == Some(Str(view))
    && view in ["files", "artifacts", "agents", "browser", "changes"]
  }

  lemma {:induction false} LastPanelSnoc(items: seq<Json>, x: Json, view: string)
    ensures LastPanel(items + [x], view) == if LegacyPanel(x).Some? then LegacyPanel(x).value else LastPanel(items, view)
  {
    if items == [] {
      assert items + [x] == [x] && [x][1..] == [];
    } else {
      assert (items + [x])[1..] == items[1..] + [x];
      var p := LegacyPanel(items[0]);
      LastPanelSnoc(items[1..], x, if p.Some? then p.value else view);
    }
  }

  /** The last such entry names the sub-view; without one it is the one given. */
  lemma {:induction false} LastPanelReads(items: seq<Json>, view: string) returns (n: int)
    ensures -1 <= n < |items|
    ensures if n == -1 then LastPanel(items, view) == view else IsPanel(items[n], LastPanel(items, view))
    ensures forall j, w | n < j < |items| :: !IsPanel(items[j], w)
  {
    if items == [] {
      n := -1;
    } else {
      var init, x := items[..|items| - 1], items[|items| - 1];
      n := LastPanelReads(init, view);
      LastPanelSnoc(init, x, view);
      assert init + [x] == items;
      PanelReads(x);
      if LegacyPanel(x).Some? { n := |init|; }
    }
  }

  lemma PanelReads(x: Json)
    ensures forall v :: IsPanel(x, v) <==> LegacyPanel(x) == Some(v)
  {
  }

  /** Of two fields, the first that is there and not null, when it is a text. */
  function TextOf(f: Fields, a: string, b: string): Option<string> {
    var x := if At(f, a) in {None, Some(Null)} then At(f, b) else At(f, a);
    if x.Some? && x.value.Str? then Some(x.value.s) else None
  }

  function ListOf(f: Fields): seq<Json> {
    if At(f, "itemTabs").Some? && f["itemTabs"].Arr? then f["itemTabs"].items
    else if At(f, "docTabs").Some? && f["docTabs"].Arr? then f["docTabs"].items
    else []
  }

  /** What a stored set says, by the names its fields have now and had before. */
  lemma SavedReads(f: Fields)
    ensures var saved, items := Saved(Some(Obj(f))), ListOf(f);
            && saved.tabs == ReadItems(items, TextOf(f, "itemConversationId", "docConversationId"))
            && saved.activeItem == TextOf(f, "activeItemId", "activeDocId")
            && (forall v | v in ["files", "artifacts", "agents", "browser", "changes"] ::
                  At(f, "dockView") == Some(Str(v)) ==> saved.dockView == v)
            && ((forall v | v in ["files", "artifacts", "agents", "browser", "changes"] :: At(f, "dockView") != Some(Str(v)))
                  ==> saved.dockView == LastPanel(items, "files"))
    ensures Saved(None) == Restored([], None, "files")
    ensures forall j: Json | !j.Obj? :: Saved(Some(j)) == Restored([], None, "files")
  {
    var view := AsString(Member(Obj(f), "dockView"));
    if view.Some? && view.value in DOCK_VIEWS { assert At(f, "dockView") == Some(Str(view.value)); }
  }

  // ---- what can still be opened ----

  /** The chat the tab belongs to is there, the last of its id; a patch needs it to work
   * in a folder, a file a folder the path is inside of. */
  predicate CanOpen(conversations: seq<Conversation>, inside: Inside, t: ItemRef) {
    t.conversation.Some? && t.conversation.value != "" &&
    exists k :: 0 <= k < |conversations| && OwnerAt(conversations, t.conversation.value, k) && OpensIn(conversations[k], inside, t)
  }

  predicate OpensIn(c: Conversation, inside: Inside, t: ItemRef) {
    match t.kind
    case File => c.folder.Some? && c.folder.value != "" && inside(t.id, c.folder.value)
    case Diff => c.folder.Some? && c.folder.value != ""
    case Artifact => true
    case Run => true
  }

  predicate OwnerAt(conversations: seq<Conversation>, id: string, k: int)
    requires 0 <= k < |conversations|
  {
    conversations[k].id == id && forall l | k < l < |conversations| :: conversations[l].id != id
  }

  lemma {:induction false} OwnerReads(conversations: seq<Conversation>, id: string)
    ensures Owner(conversations, id).None? ==> forall k | 0 <= k < |conversations| :: conversations[k].id != id
    ensures forall k | 0 <= k < |conversations| && OwnerAt(conversations, id, k) ::
              Owner(conversations, id) == Some(conversations[k])
    ensures Owner(conversations, id).Some? ==> exists k :: 0 <= k < |conversations| && OwnerAt(conversations, id, k)
  {
    if conversations != [] {
      var n := |conversations| - 1;
      if conversations[n].id == id {
        assert OwnerAt(conversations, id, n);
      } else {
        OwnerReads(conversations[..n], id);
        forall k | 0 <= k < n ensures OwnerAt(conversations, id, k) <==> OwnerAt(conversations[..n], id, k) {
        }
        if Owner(conversations, id).Some? {
          var k :| 0 <= k < n && OwnerAt(conversations[..n], id, k);
          assert OwnerAt(conversations, id, k);
        }
      }
    }
  }

  lemma ResolvesIn(conversations: seq<Conversation>, inside: Inside, t: ItemRef, c: Conversation)
    requires t.conversation.Some? && Owner(conversations, t.conversation.value) == Some(c)
    ensures Resolves(conversations, inside)(t) <==> t.conversation.value != "" && OpensIn(c, inside, t)
  {
    assert HasFolder(c) == (c.folder.Some? && c.folder.value != "");
    assert t.kind == Diff ==> (Resolves(conversations, inside)(t) <==> t.conversation.value != "" && HasFolder(c));
  }

  lemma ResolvesReads(conversations: seq<Conversation>, inside: Inside, t: ItemRef)
    ensures Resolves(conversations, inside)(t) <==> CanOpen(conversations, inside, t)
  {
    if t.conversation.Some? {
      var id := t.conversation.value;
      OwnerReads(conversations, id);
      if Owner(conversations, id).Some? {
        var k :| 0 <= k < |conversations| && OwnerAt(conversations, id, k);
        ResolvesIn(conversations, inside, t, conversations[k]);
      }
    }
  }

  function Openable(conversations: seq<Conversation>, inside: Inside): ItemRef -> bool {
    (t: ItemRef) => CanOpen(conversations, inside, t)
  }

  /** Restoring keeps exactly the saved tabs that can still be opened, in their order, and
   * the saved focus exactly when the first surviving tab of its key belongs to the
   * first conversation. */
  lemma RestoreKeepsExactlyWhatResolves(raw: Option<Json>, conversations: seq<Conversation>, inside: Inside)
    returns (at: seq<nat>)
    requires conversations != []
    ensures var r, saved := Validated(raw, conversations, inside), Saved(raw).tabs;
            && |at| == |r.tabs|
            && (forall k | 0 <= k < |at| :: at[k] < |saved| && r.tabs[k] == saved[at[k]])
            && (forall k, l | 0 <= k < l < |at| :: at[k] < at[l])
            && (forall i: nat | i < |saved| :: i in at <==> CanOpen(conversations, inside, saved[i]))
    ensures var active, saved := Saved(raw).activeItem, Saved(raw).tabs;
            Validated(raw, conversations, inside).activeItem
            == if active.Some? && exists i :: FirstOfKey(saved, Openable(conversations, inside), active.value, i)
                                              && saved[i].conversation == Some(conversations[0].id)
               then active else None
  {
    var saved, p := Saved(raw), Resolves(conversations, inside);
    at := FilterPositions(saved.tabs, p);
    if saved.activeItem.Some? {
      FocusReads(saved.tabs, p, saved.activeItem.value, Some(conversations[0].id));
    }
    forall t ensures p(t) == Openable(conversations, inside)(t) { ResolvesReads(conversations, inside, t); }
    forall key, i ensures FirstOfKey(saved.tabs, p, key, i) <==> FirstOfKey(saved.tabs, Openable(conversations, inside), key, i) {
    }
  }

  /** The first of the tabs that satisfy `p` to have the key. */
  ghost predicate FirstOfKey(tabs: seq<ItemRef>, p: ItemRef -> bool, key: string, i: int) {
    && 0 <= i < |tabs| && p(tabs[i]) && ItemKey(tabs[i]) == key
    && forall j | 0 <= j < i :: p(tabs[j]) ==> ItemKey(tabs[j]) != key
  }

  lemma FindStep(tabs: seq<ItemRef>, p: ItemRef -> bool, key: string)
    requires tabs != []
    ensures Find(Filter(tabs, p), HasKey(key))
            == if p(tabs[0]) && ItemKey(tabs[0]) == key then Some(tabs[0]) else Find(Filter(tabs[1..], p), HasKey(key))
  {
    var rest := Filter(tabs[1..], p);
    assert ([tabs[0]] + rest)[1..] == rest && [] + rest == rest;
  }

  lemma LaterFirst(tabs: seq<ItemRef>, p: ItemRef -> bool, key: string, j: int)
    requires tabs != [] && !(p(tabs[0]) && ItemKey(tabs[0]) == key)
    ensures FirstOfKey(tabs, p, key, j) <==> FirstOfKey(tabs[1..], p, key, j - 1)
  {
    if FirstOfKey(tabs, p, key, j) {
      assert forall k | 0 <= k < j - 1 :: tabs[1..][k] == tabs[k + 1];
    }
    if FirstOfKey(tabs[1..], p, key, j - 1) {
      forall k | 0 <= k < j ensures p(tabs[k]) ==> ItemKey(tabs[k]) != key {
        assert k > 0 ==> tabs[1..][k - 1] == tabs[k];
      }
    }
  }

  /** Looking the key up among the tabs that are left is looking for its first tab
   * among all of them. */
  lemma {:induction false} FoundIsFirst(tabs: seq<ItemRef>, p: ItemRef -> bool, key: string, i: int)
    ensures FirstOfKey(tabs, p, key, i) ==> Find(Filter(tabs, p), HasKey(key)) == Some(tabs[i])
  {
    if FirstOfKey(tabs, p, key, i) {
      FindStep(tabs, p, key);
      if i > 0 {
        LaterFirst(tabs, p, key, i);
        FoundIsFirst(tabs[1..], p, key, i - 1);
      }
    }
  }

  lemma {:induction false} FoundHasAPlace(tabs: seq<ItemRef>, p: ItemRef -> bool, key: string) returns (i: int)
    requires Find(Filter(tabs, p), HasKey(key)).Some?
    ensures FirstOfKey(tabs, p, key, i)
  {
    FindStep(tabs, p, key);
    if p(tabs[0]) && ItemKey(tabs[0]) == key {
      i := 0;
    } else {
      i := FoundHasAPlace(tabs[1..], p, key);
      LaterFirst(tabs, p, key, i + 1);
      i := i + 1;
    }
  }

  lemma FocusReads(tabs: seq<ItemRef>, p: ItemRef -> bool, key: string, chat: Option<string>)
    ensures var t := Find(Filter(tabs, p), HasKey(key));
            t.Some? && t.value.conversation == chat
            <==> exists i :: FirstOfKey(tabs, p, key, i) && tabs[i].conversation == chat
  {
    if Find(Filter(tabs, p), HasKey(key)).Some? {
      var i := FoundHasAPlace(tabs, p, key);
      FoundIsFirst(tabs, p, key, i);
    }
    forall i | FirstOfKey(tabs, p, key, i) ensures Find(Filter(tabs, p), HasKey(key)) == Some(tabs[i]) {
      FoundIsFirst(tabs, p, key, i);
    }
  }

  /** Restore, persist, restore again: the same as restoring once, whatever was
   * stored, the shape of older builds included. */
  lemma RestoringTwiceIsRestoringOnce(raw: Option<Json>, conversations: seq<Conversation>, inside: Inside)
    requires conversations != []
    ensures var r := Validated(raw, conversations, inside);
            Validated(Some(Persisted(r.tabs, r.activeItem, r.dockView)), conversations, inside) == r
  {
    var r, p := Validated(raw, conversations, inside), Resolves(conversations, inside);
    ValidatedIsProper(raw, conversations, inside);
    SavedPersisted(r.tabs, r.activeItem, r.dockView);
    forall t | t in r.tabs ensures p(t) { FilterIn(Saved(raw).tabs, p, t); }
    FilterAll(r.tabs, p);
  }

  /** The strip as `bootstrap` sets it up from what was restored. */
  function Boot(r: Restored, conversations: seq<Conversation>): State
    requires conversations != []
  {
    var item := if r.activeItem.Some? then Find(r.tabs, HasKey(r.activeItem.value)) else None;
    State(r.tabs, r.activeItem, if item.Some? then ToSelection(item.value) else None,
          Some(conversations[0].id), conversations, {})
  }

  /** The stored tabs that resolve are of different items. */
  ghost predicate StoredApart(saved: seq<ItemRef>, p: ItemRef -> bool) {
    forall i, j | 0 <= i < j < |saved| && p(saved[i]) && p(saved[j]) ::
      !(saved[i].kind == saved[j].kind && saved[i].id == saved[j].id)
  }

  lemma FilteredApart(saved: seq<ItemRef>, p: ItemRef -> bool)
    ensures DistinctKeys(Filter(saved, p)) <==> StoredApart(saved, p)
  {
    var tabs := Filter(saved, p);
    var at := FilterPositions(saved, p);
    if StoredApart(saved, p) {
      forall k, l | 0 <= k < l < |tabs| ensures ItemKey(tabs[k]) != ItemKey(tabs[l]) {
        assert at[k] < at[l] && saved[at[k]] == tabs[k] && saved[at[l]] == tabs[l];
        assert at[k] in at && at[l] in at;
        if ItemKey(tabs[k]) == ItemKey(tabs[l]) { ItemKeyInjective(tabs[k], tabs[l]); }
      }
    }
    if DistinctKeys(tabs) {
      forall i: nat, j: nat | i < j < |saved| && p(saved[i]) && p(saved[j])
        ensures !(saved[i].kind == saved[j].kind && saved[i].id == saved[j].id)
      {
        assert i in at && j in at;
        var k, l :| 0 <= k < |at| && 0 <= l < |at| && at[k] == i && at[l] == j;
        assert k < l;
        assert ItemKey(tabs[k]) != ItemKey(tabs[l]);
      }
    }
  }

  lemma BootIsSound(raw: Option<Json>, conversations: seq<Conversation>, inside: Inside)
    requires conversations != []
    ensures var r := Validated(raw, conversations, inside);
            Inv(Boot(r, conversations)) <==> DistinctKeys(r.tabs)
  {
    var r := Validated(raw, conversations, inside);
    ValidatedIsProper(raw, conversations, inside);
    if r.activeItem.Some? { FindSound(r.tabs, HasKey(r.activeItem.value)); }
  }

  /** The strip restored at start is sound exactly when no item is stored twice among
   * those that resolve: the restore itself does not take out repeats. */
  lemma BootIsSoundExactlyWithoutRepeats(raw: Option<Json>, conversations: seq<Conversation>, inside: Inside)
    requires conversations != []
    ensures Inv(Boot(Validated(raw, conversations, inside), conversations))
            <==> StoredApart(Saved(raw).tabs, Openable(conversations, inside))
  {
    BootIsSound(raw, conversations, inside);
    FilteredApart(Saved(raw).tabs, Resolves(conversations, inside));
    forall t ensures Resolves(conversations, inside)(t) == Openable(conversations, inside)(t) {
      ResolvesReads(conversations, inside, t);
    }
  }

  /** One tab stored twice is restored twice. */
  lemma ARepeatIsRestoredTwice(chat: Conversation, inside: Inside)
    requires chat.id != ""
    ensures var t := ItemRef(Run, "r", None, Some(chat.id));
            var r := Validated(Some(Persisted([t, t], None, "files")), [chat], inside);
            r.tabs == [t, t] && !Inv(Boot(r, [chat]))
  {
    var t := ItemRef(Run, "r", None, Some(chat.id));
    SavedPersisted([t, t], None, "files");
    assert Owner([chat], chat.id) == Some(chat);
    assert Resolves([chat], inside)(t);
    FilterAll([t, t], Resolves([chat], inside));
    var b := Boot(Validated(Some(Persisted([t, t], None, "files")), [chat], inside), [chat]);
    assert b.tabs[0] == b.tabs[1];
  }

  /** What the shell itself persisted always restores to a sound strip, holding the
   * tabs that still resolve and the focus when it is on one of the first chat. */
  lemma RestoringTheShellIsSound(s: State, dockView: string, conversations: seq<Conversation>, inside: Inside)
    requires Inv(s) && dockView in DOCK_VIEWS && conversations != []
    ensures var r := Validated(Some(Persisted(s.tabs, s.activeItem, dockView)), conversations, inside);
            && r.tabs == Filter(s.tabs, Openable(conversations, inside)) && r.dockView == dockView
            && Inv(Boot(r, conversations))
  {
    var raw := Some(Persisted(s.tabs, s.activeItem, dockView));
    SavedPersisted(s.tabs, s.activeItem, dockView);
    FilterKeepsKeys(s.tabs, Resolves(conversations, inside));
    forall t | t in s.tabs ensures Resolves(conversations, inside)(t) == Openable(conversations, inside)(t) {
      ResolvesReads(conversations, inside, t);
    }
    FilterSame(s.tabs, Resolves(conversations, inside), Openable(conversations, inside));
    BootIsSound(raw, conversations, inside);
  }
}
