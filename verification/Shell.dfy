/** The header strip: item tabs, the focused one, and the selection that mirrors it. */
module Shell {
  import opened Seqs

  datatype Kind = File | Artifact | Run | Diff

  datatype ItemRef = ItemRef(kind: Kind, id: string, line: Option<int>, conversation: Option<string>)
  datatype Shown = Shown(kind: Kind, id: string)
  datatype Conversation = Conversation(id: string, folder: Option<string>)

  function KindName(k: Kind): string {
    match k
    case File => "file"
    case Artifact => "artifact"
    case Run => "run"
    case Diff => "diff"
  }

  function ItemKey(t: ItemRef): string {
    KindName(t.kind) + ":" + t.id
  }

  function ToSelection(t: ItemRef): Option<Shown> {
    if t.kind == Run || t.kind == Diff then None else Some(Shown(t.kind, t.id))
  }

  datatype State = State(
    tabs: seq<ItemRef>,
    activeItem: Option<string>,
    selected: Option<Shown>,
    activeConversation: Option<string>,
    conversations: seq<Conversation>,
    unsaved: set<string>
  )

  function HasKey(key: string): ItemRef -> bool {
    (t: ItemRef) => ItemKey(t) == key
  }

  function InChat(chat: Option<string>): ItemRef -> bool {
    (t: ItemRef) => t.conversation == chat
  }

  function FindLast(s: seq<ItemRef>, p: ItemRef -> bool): Option<ItemRef> {
    if s == [] then None else if p(s[|s| - 1]) then Some(s[|s| - 1]) else FindLast(s[..|s| - 1], p)
  }

  function KeyIndex(tabs: seq<ItemRef>, key: string): (i: int)
    ensures -1 <= i < |tabs|
    ensures i == -1 ==> forall t | t in tabs :: ItemKey(t) != key
    ensures i >= 0 ==> ItemKey(tabs[i]) == key && forall j | 0 <= j < i :: ItemKey(tabs[j]) != key
  {
    if tabs == [] then -1
    else if ItemKey(tabs[0]) == key then 0
    else var i := KeyIndex(tabs[1..], key); if i < 0 then -1 else i + 1
  }

  function Unfocused(s: State): State {
    s.(activeItem := None, selected := None)
  }

  function SetActive(s: State, id: string): State {
    (if s.activeConversation != Some(id) then Unfocused(s) else s).(activeConversation := Some(id))
  }

  function Replaced(tabs: seq<ItemRef>, t: ItemRef): seq<ItemRef> {
    Map(tabs, (u: ItemRef) => if ItemKey(u) == ItemKey(t) then t else u)
  }

  function Focus(s: State, ref: ItemRef): State {
    var chat := if ref.conversation.Some? then ref.conversation else s.activeConversation;
    if chat.None? || chat.value == "" then s
    else
      var s1 := if chat != s.activeConversation then SetActive(s, chat.value) else s;
      var stamped := ref.(conversation := chat);
      var tabs := if KeyIndex(s1.tabs, ItemKey(stamped)) >= 0 then Replaced(s1.tabs, stamped) else s1.tabs + [stamped];
      s1.(tabs := tabs, activeItem := Some(ItemKey(stamped)), selected := ToSelection(stamped))
  }

  function Without(tabs: seq<ItemRef>, i: nat): seq<ItemRef>
    requires i < |tabs|
  {
    tabs[..i] + tabs[i + 1..]
  }

  /** The right-hand neighbour of the same chat first, then the left. */
  function Neighbor(tabs: seq<ItemRef>, i: nat, chat: Option<string>): Option<ItemRef>
    requires i <= |tabs|
  {
    var right := Find(tabs[i..], InChat(chat));
    if right.Some? then right else FindLast(tabs[..i], InChat(chat))
  }

  /** Closing a file with unsaved edits asks first. */
  predicate Refused(s: State, key: string, confirmed: bool) {
    var closing := Find(s.tabs, HasKey(key));
    closing.Some? && closing.value.kind == File && closing.value.id in s.unsaved && !confirmed
  }

  function Dropped(s: State, i: nat): State
    requires i < |s.tabs|
  {
    var closed := s.tabs[i];
    s.(tabs := Without(s.tabs, i), unsaved := if closed.kind == File then s.unsaved - {closed.id} else s.unsaved)
  }

  function Refocused(s: State, next: Option<ItemRef>): State {
    if next.Some? then s.(activeItem := Some(ItemKey(next.value)), selected := ToSelection(next.value))
    else Unfocused(s)
  }

  function Close(s: State, key: string, confirmed: bool): State {
    var i := KeyIndex(s.tabs, key);
    if i < 0 || Refused(s, key, confirmed) then s
    else if s.activeItem != Some(key) then Dropped(s, i)
    else Refocused(Dropped(s, i), Neighbor(Without(s.tabs, i), i, s.tabs[i].conversation))
  }

  function NotNamed(id: string): Conversation -> bool {
    (c: Conversation) => c.id != id
  }

  function Delete(s: State, id: string): State {
    var remaining := Filter(s.conversations, NotNamed(id));
    var first := if remaining == [] then None else Some(remaining[0].id);
    var tabs := Filter(s.tabs, Not(InChat(Some(id))));
    var s1 := s.(conversations := remaining, tabs := tabs,
                 activeConversation := if s.activeConversation == Some(id) then first else s.activeConversation);
    if s.activeItem.Some? && KeyIndex(tabs, s.activeItem.value) < 0 then Unfocused(s1) else s1
  }

  function New(s: State, c: Conversation): State {
    Unfocused(s).(conversations := [c] + s.conversations, activeConversation := Some(c.id))
  }

  function Fork(s: State, c: Conversation): State {
    SetActive(s.(conversations := [c] + s.conversations), c.id)
  }

  function SessionOpened(s: State, id: string): State {
    SetActive(if s.activeItem.Some? then Unfocused(s) else s, id)
  }

  function ConversationShown(s: State): State {
    if s.activeItem.None? then s else Unfocused(s)
  }

  function WithFolder(s: State, folder: Option<string>): seq<Conversation> {
    Map(s.conversations, (c: Conversation) => if Some(c.id) == s.activeConversation then c.(folder := folder) else c)
  }

  function Attach(s: State, folder: string): State {
    if s.activeConversation.None? then s else s.(conversations := WithFolder(s, Some(folder)), selected := None)
  }

  function Detach(s: State): State {
    if s.activeConversation.None? then s
    else
      s.(conversations := WithFolder(s, None),
         selected := if s.selected.Some? && s.selected.value.kind == File then None else s.selected)
  }

  function SetUnsaved(s: State, path: string, unsaved: bool): State {
    s.(unsaved := if unsaved then s.unsaved + {path} else s.unsaved - {path})
  }

  // ---- the store's fields ----

  class Store {
    var tabs: seq<ItemRef>
    var activeItem: Option<string>
    var selected: Option<Shown>
    var activeConversation: Option<string>
    var conversations: seq<Conversation>
    var unsaved: set<string>

    function View(): State
      reads this
    {
      State(tabs, activeItem, selected, activeConversation, conversations, unsaved)
    }

    method SetActiveConversation(id: string)
      modifies this
      ensures View() == SetActive(old(View()), id)
    {
      var switching := activeConversation != Some(id);
      activeConversation := Some(id);
      if switching { selected, activeItem := None, None; }
    }

    method FocusItem(ref: ItemRef)
      modifies this
      ensures View() == Focus(old(View()), ref)
    {
      var chat := if ref.conversation.Some? then ref.conversation else activeConversation;
      if chat.None? || chat.value == "" { return; }
      if chat != activeConversation { SetActiveConversation(chat.value); }
      var stamped := ref.(conversation := chat);
      var key := ItemKey(stamped);
      if KeyIndex(tabs, key) >= 0 {
        tabs := Replaced(tabs, stamped);
      } else {
        tabs := tabs + [stamped];
      }
      activeItem, selected := Some(key), ToSelection(stamped);
    }

    /** Drops the tab at `i`, asking nothing; its unsaved mark goes with it. */
    method Drop(i: nat) returns (closed: ItemRef)
      requires i < |tabs|
      modifies this`tabs, this`unsaved
      ensures closed == old(tabs)[i] && View() == Dropped(old(View()), i)
    {
      closed := tabs[i];
      if closed.kind == File { unsaved := unsaved - {closed.id}; }
      tabs := tabs[..i] + tabs[i + 1..];
    }

    method CloseItem(key: string, confirmed: bool)
      modifies this
      ensures View() == Close(old(View()), key, confirmed)
    {
      FindIsAtKeyIndex(tabs, key);
      var closing := Find(tabs, HasKey(key));
      if closing.Some? && closing.value.kind == File && closing.value.id in unsaved && !confirmed { return; }
      var i := KeyIndex(tabs, key);
      if i < 0 { return; }
      var closed := Drop(i);
      if activeItem != Some(key) { return; }
      var next := Find(tabs[i..], InChat(closed.conversation));
      if next.None? { next := FindLast(tabs[..i], InChat(closed.conversation)); }
      activeItem := if next.Some? then Some(ItemKey(next.value)) else None;
      selected := if next.Some? then ToSelection(next.value) else None;
    }

    method DeleteConversation(id: string)
      modifies this
      ensures View() == Delete(old(View()), id)
    {
      conversations := Filter(conversations, NotNamed(id));
      if activeConversation == Some(id) {
        activeConversation := if conversations == [] then None else Some(conversations[0].id);
      }
      tabs := Filter(tabs, Not(InChat(Some(id))));
      if activeItem.Some? && KeyIndex(tabs, activeItem.value) < 0 {
        activeItem, selected := None, None;
      }
    }

    method NewConversation(c: Conversation)
      modifies this
      ensures View() == New(old(View()), c)
    {
      conversations, activeConversation := [c] + conversations, Some(c.id);
      selected, activeItem := None, None;
    }

    method OpenSession(id: string)
      modifies this
      ensures View() == SessionOpened(old(View()), id)
    {
      if activeItem.Some? { activeItem, selected := None, None; }
      SetActiveConversation(id);
    }

    method ShowConversation()
      modifies this
      ensures View() == ConversationShown(old(View()))
    {
      if activeItem.None? { return; }
      activeItem, selected := None, None;
    }

    method AttachFolder(folder: string)
      modifies this
      ensures View() == Attach(old(View()), folder)
    {
      if activeConversation.None? { return; }
      conversations, selected := WithFolder(View(), Some(folder)), None;
    }

    method DetachFolder()
      modifies this
      ensures View() == Detach(old(View()))
    {
      if activeConversation.None? { return; }
      conversations := WithFolder(View(), None);
      if selected.Some? && selected.value.kind == File { selected := None; }
    }
  }

  lemma {:induction false} FindIsAtKeyIndex(tabs: seq<ItemRef>, key: string)
    ensures var i := KeyIndex(tabs, key); Find(tabs, HasKey(key)) == if i < 0 then None else Some(tabs[i])
  {
    if tabs != [] { FindIsAtKeyIndex(tabs[1..], key); }
  }

  // ---- the invariant ----

  ghost predicate DistinctKeys(tabs: seq<ItemRef>) {
    forall i, j | 0 <= i < j < |tabs| :: ItemKey(tabs[i]) != ItemKey(tabs[j])
  }

  /** Each tab remembers its chat. */
  ghost predicate Stamped(tabs: seq<ItemRef>) {
    forall t | t in tabs :: t.conversation.Some? && t.conversation.value != ""
  }

  /** The focused item is an open tab of the live chat, and what is selected is
   * nothing or that tab's selection. */
  ghost predicate FocusOk(s: State) {
    if s.activeItem.None? then s.selected.None?
    else
      s.activeConversation.Some? &&
      exists t :: t in s.tabs && ItemKey(t) == s.activeItem.value && t.conversation == s.activeConversation
                  && (s.selected.None? || s.selected == ToSelection(t))
  }

  ghost predicate Inv(s: State) {
    DistinctKeys(s.tabs) && Stamped(s.tabs) && FocusOk(s)
  }

  lemma ReplacedKeeps(tabs: seq<ItemRef>, t: ItemRef)
    requires DistinctKeys(tabs) && Stamped(tabs) && t.conversation.Some? && t.conversation.value != ""
    requires KeyIndex(tabs, ItemKey(t)) >= 0
    ensures DistinctKeys(Replaced(tabs, t)) && Stamped(Replaced(tabs, t)) && t in Replaced(tabs, t)
  {
    var tabs' := Replaced(tabs, t);
    forall j, k | 0 <= j < k < |tabs'| ensures ItemKey(tabs'[j]) != ItemKey(tabs'[k]) {
      assert ItemKey(tabs'[j]) == ItemKey(tabs[j]) && ItemKey(tabs'[k]) == ItemKey(tabs[k]);
    }
    assert tabs'[KeyIndex(tabs, ItemKey(t))] == t;
  }

  lemma AddedKeeps(tabs: seq<ItemRef>, t: ItemRef)
    requires DistinctKeys(tabs) && Stamped(tabs) && t.conversation.Some? && t.conversation.value != ""
    requires KeyIndex(tabs, ItemKey(t)) < 0
    ensures DistinctKeys(tabs + [t]) && Stamped(tabs + [t]) && t in tabs + [t]
  {
    assert (tabs + [t])[|tabs|] == t;
    forall i | 0 <= i < |tabs| ensures ItemKey(tabs[i]) != ItemKey(t) {
      assert tabs[i] in tabs;
    }
  }

  lemma FocusKeeps(s: State, ref: ItemRef)
    requires Inv(s)
    ensures Inv(Focus(s, ref))
  {
    var chat := if ref.conversation.Some? then ref.conversation else s.activeConversation;
    if chat.Some? && chat.value != "" {
      var stamped := ref.(conversation := chat);
      if KeyIndex(s.tabs, ItemKey(stamped)) >= 0 {
        ReplacedKeeps(s.tabs, stamped);
      } else {
        AddedKeeps(s.tabs, stamped);
      }
    }
  }

  lemma {:induction false} FindLastSound(s: seq<ItemRef>, p: ItemRef -> bool)
    ensures FindLast(s, p).Some? ==> FindLast(s, p).value in s && p(FindLast(s, p).value)
    ensures FindLast(s, p).None? <==> forall t | t in s :: !p(t)
  {
    if s != [] {
      FindLastSound(s[..|s| - 1], p);
      assert forall t :: t in s <==> t in s[..|s| - 1] || t == s[|s| - 1];
    }
  }

  lemma NeighborSound(tabs: seq<ItemRef>, i: nat, chat: Option<string>)
    requires i <= |tabs|
    ensures var n := Neighbor(tabs, i, chat);
            n.Some? ==> n.value in tabs && n.value.conversation == chat
  {
    FindSound(tabs[i..], InChat(chat));
    FindLastSound(tabs[..i], InChat(chat));
  }

  lemma WithoutKeeps(tabs: seq<ItemRef>, i: nat)
    requires i < |tabs| && DistinctKeys(tabs) && Stamped(tabs)
    ensures DistinctKeys(Without(tabs, i)) && Stamped(Without(tabs, i))
    ensures forall t | t in tabs && t != tabs[i] :: t in Without(tabs, i)
  {
    var rest := Without(tabs, i);
    forall j, k | 0 <= j < k < |rest| ensures ItemKey(rest[j]) != ItemKey(rest[k]) {
      var j', k' := if j < i then j else j + 1, if k < i then k else k + 1;
      assert rest[j] == tabs[j'] && rest[k] == tabs[k'];
    }
    forall t | t in tabs && t != tabs[i] ensures t in rest {
      var j :| 0 <= j < |tabs| && tabs[j] == t;
      assert rest[if j < i then j else j - 1] == t;
    }
  }

  lemma RefocusKeeps(s: State, next: Option<ItemRef>)
    requires DistinctKeys(s.tabs) && Stamped(s.tabs)
    requires next.Some? ==> next.value in s.tabs && next.value.conversation == s.activeConversation
    ensures Inv(Refocused(s, next))
  {
  }

  lemma DropKeepsFocus(s: State, i: nat)
    requires i < |s.tabs| && FocusOk(s) && s.activeItem != Some(ItemKey(s.tabs[i]))
    requires forall t | t in s.tabs && t != s.tabs[i] :: t in Without(s.tabs, i)
    ensures FocusOk(Dropped(s, i))
  {
  }

  lemma FocusedTabIsLive(s: State, i: nat)
    requires Inv(s) && i < |s.tabs| && s.activeItem == Some(ItemKey(s.tabs[i]))
    ensures s.tabs[i].conversation == s.activeConversation
  {
    var t :| t in s.tabs && ItemKey(t) == s.activeItem.value && t.conversation == s.activeConversation;
    var j :| 0 <= j < |s.tabs| && s.tabs[j] == t;
    assert j == i;
  }

  lemma CloseKeeps(s: State, key: string, confirmed: bool)
    requires Inv(s)
    ensures Inv(Close(s, key, confirmed))
  {
    var i := KeyIndex(s.tabs, key);
    if i >= 0 && !Refused(s, key, confirmed) {
      WithoutKeeps(s.tabs, i);
      if s.activeItem == Some(key) {
        FocusedTabIsLive(s, i);
        NeighborSound(Without(s.tabs, i), i, s.tabs[i].conversation);
        RefocusKeeps(Dropped(s, i), Neighbor(Without(s.tabs, i), i, s.tabs[i].conversation));
      } else {
        DropKeepsFocus(s, i);
      }
    }
  }

  lemma {:induction false} FilterKeepsKeys(tabs: seq<ItemRef>, p: ItemRef -> bool)
    requires DistinctKeys(tabs)
    ensures DistinctKeys(Filter(tabs, p))
    ensures forall t | t in Filter(tabs, p) :: t in tabs && p(t)
  {
    var at := FilterPositions(tabs, p);
    forall i, j | 0 <= i < j < |at| ensures ItemKey(Filter(tabs, p)[i]) != ItemKey(Filter(tabs, p)[j]) {
      assert at[i] < at[j];
    }
    forall t | t in Filter(tabs, p) ensures t in tabs && p(t) {
      FilterIn(tabs, p, t);
    }
  }

  /** The tab that carries the focus. */
  ghost predicate Focused(s: State, t: ItemRef) {
    && t in s.tabs && s.activeItem == Some(ItemKey(t)) && t.conversation == s.activeConversation
    && (s.selected.None? || s.selected == ToSelection(t))
  }

  lemma KeyTellsTabs(tabs: seq<ItemRef>, t: ItemRef, u: ItemRef)
    requires DistinctKeys(tabs) && t in tabs && u in tabs && ItemKey(t) == ItemKey(u)
    ensures t == u
  {
    var i, j :| 0 <= i < |tabs| && 0 <= j < |tabs| && tabs[i] == t && tabs[j] == u;
  }

  /** Deleting the live chat takes its focus with it; deleting another leaves the focus. */
  lemma DeleteKeepsFocus(s: State, id: string, t: ItemRef)
    requires Inv(s) && Focused(s, t)
    ensures var tabs := Filter(s.tabs, Not(InChat(Some(id))));
            if s.activeConversation == Some(id) then KeyIndex(tabs, ItemKey(t)) < 0 else t in tabs
  {
    var p := Not(InChat(Some(id)));
    FilterIn(s.tabs, p, t);
    if s.activeConversation == Some(id) {
      forall u | u in Filter(s.tabs, p) ensures ItemKey(u) != ItemKey(t) {
        FilterIn(s.tabs, p, u);
        if ItemKey(u) == ItemKey(t) { KeyTellsTabs(s.tabs, t, u); }
      }
    }
  }

  lemma DeleteKeeps(s: State, id: string)
    requires Inv(s)
    ensures Inv(Delete(s, id))
  {
    FilterKeepsKeys(s.tabs, Not(InChat(Some(id))));
    if s.activeItem.Some? {
      var t :| t in s.tabs && ItemKey(t) == s.activeItem.value && t.conversation == s.activeConversation
               && (s.selected.None? || s.selected == ToSelection(t));
      assert Focused(s, t);
      DeleteKeepsFocus(s, id, t);
      if s.activeConversation != Some(id) { assert Focused(Delete(s, id), t); }
    }
  }

  datatype Event =
    | Opens(ref: ItemRef)
    | Closes(key: string, confirmed: bool)
    | Deletes(id: string)
    | Switches(id: string)
    | Starts(c: Conversation)
    | Forks(c: Conversation)
    | OpensSession(id: string)
    | ShowsConversation
    | Attaches(folder: string)
    | Detaches
    | Edits(path: string, unsaved: bool)

  function Step(s: State, e: Event): State {
    match e
    case Opens(ref) => Focus(s, ref)
    case Closes(key, confirmed) => Close(s, key, confirmed)
    case Deletes(id) => Delete(s, id)
    case Switches(id) => SetActive(s, id)
    case Starts(c) => New(s, c)
    case Forks(c) => Fork(s, c)
    case OpensSession(id) => SessionOpened(s, id)
    case ShowsConversation => ConversationShown(s)
    case Attaches(folder) => Attach(s, folder)
    case Detaches => Detach(s)
    case Edits(path, unsaved) => SetUnsaved(s, path, unsaved)
  }

  function RunAll(s: State, es: seq<Event>): State
    decreases |es|
  {
    if es == [] then s else RunAll(Step(s, es[0]), es[1..])
  }

  lemma StepKeeps(s: State, e: Event)
    requires Inv(s)
    ensures Inv(Step(s, e))
  {
    if e.Opens? { FocusKeeps(s, e.ref); }
    else if e.Closes? { CloseKeeps(s, e.key, e.confirmed); }
    else if e.Deletes? { DeleteKeeps(s, e.id); }
  }

  /** In every reachable state tab keys are distinct, the focused item is an open tab
   * of the live chat, and the selection mirrors it or is empty. */
  lemma {:induction false} EveryRunKeepsTheStrip(s: State, es: seq<Event>)
    requires Inv(s)
    ensures Inv(RunAll(s, es))
    decreases |es|
  {
    if es != [] {
      StepKeeps(s, es[0]);
      EveryRunKeepsTheStrip(Step(s, es[0]), es[1..]);
    }
  }

  // ---- what closing does ----

  /** A key tells apart everything but the line and the chat. */
  lemma ItemKeyInjective(a: ItemRef, b: ItemRef)
    requires ItemKey(a) == ItemKey(b)
    ensures a.kind == b.kind && a.id == b.id
  {
    var x, y := ItemKey(a), ItemKey(b);
    assert x[0] == KindName(a.kind)[0] && y[0] == KindName(b.kind)[0];
    var n := |KindName(a.kind)| + 1;
    assert a.id == x[n..] && b.id == y[n..];
  }

  lemma {:induction false} FindIsLeast(tabs: seq<ItemRef>, p: ItemRef -> bool, j: nat)
    requires j < |tabs| && p(tabs[j]) && forall k | 0 <= k < j :: !p(tabs[k])
    ensures Find(tabs, p) == Some(tabs[j])
  {
    if j > 0 { FindIsLeast(tabs[1..], p, j - 1); }
  }

  lemma {:induction false} FindLastIsGreatest(tabs: seq<ItemRef>, p: ItemRef -> bool, j: nat)
    requires j < |tabs| && p(tabs[j]) && forall k | j < k < |tabs| :: !p(tabs[k])
    ensures FindLast(tabs, p) == Some(tabs[j])
  {
    if j < |tabs| - 1 { FindLastIsGreatest(tabs[..|tabs| - 1], p, j); }
  }

  /** `j` is the nearest tab of the chat of `i`: to the right, else to the left. */
  ghost predicate Nearest(tabs: seq<ItemRef>, i: nat, j: nat)
    requires i < |tabs| && j < |tabs|
  {
    && i != j && tabs[j].conversation == tabs[i].conversation
    && (i < j ==> forall k | i < k < j :: tabs[k].conversation != tabs[i].conversation)
    && (j < i ==> forall k | j < k < |tabs| && k != i :: tabs[k].conversation != tabs[i].conversation)
  }

  lemma NeighborIsNearest(tabs: seq<ItemRef>, i: nat, j: nat)
    requires i < |tabs| && j < |tabs| && Nearest(tabs, i, j)
    ensures Neighbor(Without(tabs, i), i, tabs[i].conversation) == Some(tabs[j])
  {
    var rest, same := Without(tabs, i), InChat(tabs[i].conversation);
    assert rest[i..] == tabs[i + 1..] && rest[..i] == tabs[..i];
    if i < j {
      FindIsLeast(rest[i..], same, j - i - 1);
    } else {
      FindSound(rest[i..], same);
      FindLastIsGreatest(rest[..i], same, j);
    }
  }

  lemma IndexOfTab(tabs: seq<ItemRef>, i: nat)
    requires i < |tabs| && DistinctKeys(tabs)
    ensures KeyIndex(tabs, ItemKey(tabs[i])) == i
  {
  }

  /** Closing the focused tab focuses the nearest one of the same chat to the right,
   * and with none there the nearest to the left. */
  lemma CloseFocusesTheNearest(s: State, i: nat, j: nat, confirmed: bool)
    requires i < |s.tabs| && j < |s.tabs| && Inv(s) && Nearest(s.tabs, i, j)
    requires s.activeItem == Some(ItemKey(s.tabs[i])) && !Refused(s, ItemKey(s.tabs[i]), confirmed)
    ensures var t := Close(s, ItemKey(s.tabs[i]), confirmed);
            && t.activeItem == Some(ItemKey(s.tabs[j])) && t.selected == ToSelection(s.tabs[j])
            && t.tabs == s.tabs[..i] + s.tabs[i + 1..] && t.activeConversation == s.activeConversation
  {
    IndexOfTab(s.tabs, i);
    NeighborIsNearest(s.tabs, i, j);
  }

  /** With no other tab of that chat, the conversation shows again. */
  lemma CloseOfTheLastShowsTheConversation(s: State, i: nat, confirmed: bool)
    requires i < |s.tabs| && Inv(s)
    requires s.activeItem == Some(ItemKey(s.tabs[i])) && !Refused(s, ItemKey(s.tabs[i]), confirmed)
    requires forall j | 0 <= j < |s.tabs| && j != i :: s.tabs[j].conversation != s.tabs[i].conversation
    ensures var t := Close(s, ItemKey(s.tabs[i]), confirmed);
            t.activeItem == None && t.selected == None && t.tabs == s.tabs[..i] + s.tabs[i + 1..]
  {
    var tabs, chat := Without(s.tabs, i), s.tabs[i].conversation;
    IndexOfTab(s.tabs, i);
    NeighborSound(tabs, i, chat);
    forall t | t in tabs ensures t.conversation != chat {
      var k :| 0 <= k < |tabs| && tabs[k] == t;
      assert t == s.tabs[if k < i then k else k + 1];
    }
  }

  /** Opening what is open already keeps every other tab in its place and lets the one
   * tab follow the chat that opened it last; otherwise the tab goes to the end. */
  lemma OpeningKeepsOneTab(s: State, ref: ItemRef)
    requires Inv(s) && s.activeConversation.Some? && s.activeConversation.value != "" && ref.conversation.None?
    ensures var t, stamped, i := Focus(s, ref), ref.(conversation := s.activeConversation), KeyIndex(s.tabs, ItemKey(ref));
            && t.tabs == (if i >= 0 then s.tabs[i := stamped] else s.tabs + [stamped])
            && t.activeItem == Some(ItemKey(ref)) && t.activeConversation == s.activeConversation
  {
    var stamped := ref.(conversation := s.activeConversation);
    var i := KeyIndex(s.tabs, ItemKey(ref));
    assert ItemKey(stamped) == ItemKey(ref);
    if i >= 0 { assert Replaced(s.tabs, stamped) == s.tabs[i := stamped]; }
  }

  // ---- each operation on the whole state ----

  /** Closing takes exactly that tab out, wherever the focus is, forgets the unsaved mark
   * of that file and no other, and changes neither chat nor chats. An unsaved file whose
   * close is declined stays, with everything else. */
  lemma CloseTakesOut(s: State, i: nat, confirmed: bool)
    requires Inv(s) && i < |s.tabs|
    ensures var t, closed := Close(s, ItemKey(s.tabs[i]), confirmed), s.tabs[i];
            if closed.kind == File && closed.id in s.unsaved && !confirmed then t == s
            else
              && t.tabs == s.tabs[..i] + s.tabs[i + 1..]
              && t.unsaved == (if closed.kind == File then s.unsaved - {closed.id} else s.unsaved)
              && t.activeConversation == s.activeConversation && t.conversations == s.conversations
              && (s.activeItem != Some(ItemKey(closed)) ==> t.activeItem == s.activeItem && t.selected == s.selected)
  {
    IndexOfTab(s.tabs, i);
    FindIsAtKeyIndex(s.tabs, ItemKey(s.tabs[i]));
  }

  lemma CloseOfNoTabDoesNothing(s: State, key: string, confirmed: bool)
    requires forall t | t in s.tabs :: ItemKey(t) != key
    ensures Close(s, key, confirmed) == s
  {
  }

  /** The key of an item is its kind and its id, and files and artifacts are what the
   * sidebar can select. */
  lemma KeysAndSelections(t: ItemRef)
    ensures ItemKey(t) == (match t.kind
                           case File => "file:" + t.id
                           case Artifact => "artifact:" + t.id
                           case Run => "run:" + t.id
                           case Diff => "diff:" + t.id)
    ensures ToSelection(t) == if t.kind == File || t.kind == Artifact then Some(Shown(t.kind, t.id)) else None
  {
  }

  /** Opening an item shows it in its own chat, which becomes the live one; without a
   * chat to own it, nothing opens. Its tab replaces the one of its key in place or goes
   * to the end, and no other tab, chat or edit changes. */
  lemma OpeningShowsTheItem(s: State, ref: ItemRef)
    requires Inv(s)
    ensures var chat := if ref.conversation.Some? then ref.conversation else s.activeConversation;
            var t, stamped := Focus(s, ref), ref.(conversation := chat);
            if chat.None? || chat.value == "" then t == s
            else
              && t.activeConversation == chat && t.conversations == s.conversations && t.unsaved == s.unsaved
              && t.activeItem == Some(ItemKey(ref)) && t.selected == ToSelection(ref)
              && (forall i | 0 <= i < |s.tabs| && s.tabs[i].kind == ref.kind && s.tabs[i].id == ref.id ::
                    t.tabs == s.tabs[i := stamped])
              && ((forall u | u in s.tabs :: !(u.kind == ref.kind && u.id == ref.id)) ==> t.tabs == s.tabs + [stamped])
  {
    var chat := if ref.conversation.Some? then ref.conversation else s.activeConversation;
    if chat.Some? && chat.value != "" {
      var stamped := ref.(conversation := chat);
      assert ItemKey(stamped) == ItemKey(ref);
      var k := KeyIndex(s.tabs, ItemKey(stamped));
      if k >= 0 {
        ItemKeyInjective(s.tabs[k], stamped);
        assert s.tabs[k] in s.tabs;
        assert Replaced(s.tabs, stamped) == s.tabs[k := stamped];
        forall i | 0 <= i < |s.tabs| && s.tabs[i].kind == ref.kind && s.tabs[i].id == ref.id ensures i == k {
          assert ItemKey(s.tabs[i]) == ItemKey(s.tabs[k]);
        }
      } else {
        forall u | u in s.tabs ensures !(u.kind == ref.kind && u.id == ref.id) {
          assert ItemKey(u) == ItemKey(stamped) ==> false;
        }
      }
    }
  }

  /** Switching to the live chat changes nothing; to another, it becomes live and only
   * focus and selection go. Opening a session goes back to the conversation as well. */
  lemma SwitchingMovesOnlyTheFocus(s: State, id: string)
    ensures Step(s, Switches(id)) == if s.activeConversation == Some(id) then s
                                     else s.(activeConversation := Some(id), activeItem := None, selected := None)
    ensures Step(s, OpensSession(id)) == if s.activeConversation == Some(id) && s.activeItem.None? then s
                                         else s.(activeConversation := Some(id), activeItem := None, selected := None)
    ensures Step(s, ShowsConversation) == if s.activeItem.None? then s else s.(activeItem := None, selected := None)
  {
  }

  /** A new chat and a fork go first and are live, with nothing focused; a fork that is
   * live already keeps the focus. */
  lemma NewChatsGoFirst(s: State, c: Conversation)
    ensures Step(s, Starts(c)) == s.(conversations := [c] + s.conversations, activeConversation := Some(c.id),
                                     activeItem := None, selected := None)
    ensures s.activeConversation != Some(c.id) ==> Step(s, Forks(c)) == Step(s, Starts(c))
  {
  }

  /** Deleting takes out that chat and its tabs, keeps the others in order and the edits,
   * and moves on to the first chat left, if any, when it was the live one. The focus
   * goes exactly when its tab did. */
  lemma DeleteTakesOut(s: State, id: string)
    requires Inv(s)
    ensures var t := Delete(s, id);
            && t.conversations == Filter(s.conversations, (c: Conversation) => c.id != id)
            && t.tabs == Filter(s.tabs, (u: ItemRef) => u.conversation != Some(id)) && t.unsaved == s.unsaved
            && (s.activeConversation != Some(id) ==>
                  t.activeConversation == s.activeConversation && t.activeItem == s.activeItem && t.selected == s.selected)
            && (s.activeConversation == Some(id) ==>
                  && t.activeItem == None && t.selected == None
                  && t.activeConversation == if t.conversations == [] then None else Some(t.conversations[0].id))
  {
    FilterSame(s.conversations, NotNamed(id), (c: Conversation) => c.id != id);
    FilterSame(s.tabs, Not(InChat(Some(id))), (u: ItemRef) => u.conversation != Some(id));
    if s.activeItem.Some? {
      var t :| t in s.tabs && ItemKey(t) == s.activeItem.value && t.conversation == s.activeConversation
               && (s.selected.None? || s.selected == ToSelection(t));
      assert Focused(s, t);
      DeleteKeepsFocus(s, id, t);
      if s.activeConversation != Some(id) {
        assert KeyIndex(Filter(s.tabs, Not(InChat(Some(id)))), ItemKey(t)) >= 0;
      }
    }
  }

  /** Attaching and detaching a folder change the folder of the live chat and no other;
   * attaching clears the selection, detaching only a file's, and neither the focus. */
  lemma FoldersChangeOneChat(s: State, folder: string)
    ensures s.activeConversation.None? ==> Step(s, Attaches(folder)) == s && Step(s, Detaches) == s
    ensures var a, d := Step(s, Attaches(folder)), Step(s, Detaches);
            s.activeConversation.Some? ==>
              && a == s.(conversations := a.conversations, selected := None)
              && d == s.(conversations := d.conversations,
                         selected := if s.selected.Some? && s.selected.value.kind == File then None else s.selected)
              && |a.conversations| == |d.conversations| == |s.conversations|
              && forall i | 0 <= i < |s.conversations| ::
                   var c, live := s.conversations[i], s.conversations[i].id == s.activeConversation.value;
                   && a.conversations[i] == (if live then c.(folder := Some(folder)) else c)
                   && d.conversations[i] == (if live then c.(folder := None) else c)
  {
  }

  /** Marking a file's edits touches the mark of that file and nothing else. */
  lemma EditsMarkOneFile(s: State, path: string, unsaved: bool, other: string)
    ensures var t := Step(s, Edits(path, unsaved));
            t == s.(unsaved := t.unsaved) && (other in t.unsaved <==> if other == path then unsaved else other in s.unsaved)
  {
  }
}
