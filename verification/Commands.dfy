/** The `/` menu: how names are given out, and what a typed line resolves to. */
module Commands {
  import opened Seqs
  import opened Sorting
  import opened Text

  datatype Spec = Spec(name: string, aliases: seq<string>)
  datatype Skill = Skill(name: string, enabled: bool, userInvocable: bool, used: int)
  datatype Prompt = Prompt(connector: string, name: string)

  datatype Source = Builtin(spec: Spec) | FromSkill(skill: Skill) | FromPrompt(prompt: Prompt)

  datatype View = View(name: string, aliases: seq<string>, source: Source)

  /** `toLowerCase`, of which nothing is needed but that it is a function. */
  type Lower = string -> string

  // ---- names ----

  /** The characters of a name that can be typed after `/`. */
  predicate WordChar(c: char) {
    'A' <= c <= 'Z' || 'a' <= c <= 'z' || '0' <= c <= '9' || c == '_' || c == '-'
  }

  predicate Typable(s: string) {
    s != "" && forall c | c in s :: WordChar(c)
  }

  /** Every run of other characters becomes one dash. */
  function Dashed(s: string): string
    decreases |s|
  {
    if s == "" then ""
    else if WordChar(s[0]) then [s[0]] + Dashed(s[1..])
    else
      TrimStartShrinks(s[1..], c => !WordChar(c));
      "-" + Dashed(TrimStart(s[1..], c => !WordChar(c)))
  }

  lemma {:induction false} TrimStartShrinks(s: string, p: char -> bool)
    ensures |TrimStart(s, p)| <= |s|
  {
    if s != "" { TrimStartShrinks(s[1..], p); }
  }

  /** A prompt's name as something that can be typed. */
  function CommandName(raw: string): string {
    Trim(Dashed(Trim(raw, JsSpace)), c => c == '-')
  }

  // ---- the menu ----

  function NamesOf(v: View): seq<string> {
    [v.name] + v.aliases
  }

  /** Every name and alias of the manifest, one after the other. */
  function Manifest(specs: seq<Spec>): seq<string> {
    if specs == [] then [] else [specs[0].name] + specs[0].aliases + Manifest(specs[1..])
  }

  predicate IsBuiltinName(specs: seq<Spec>, name: string, lower: Lower) {
    lower(name) in Manifest(specs)
  }

  function OfSpec(s: Spec): View {
    View(s.name, s.aliases, Builtin(s))
  }

  function OfSkill(s: Skill): View {
    View(s.name, [], FromSkill(s))
  }

  function OfPrompt(name: string, p: Prompt): View {
    View(name, [], FromPrompt(p))
  }

  function Offered(specs: seq<Spec>, lower: Lower): Skill -> bool {
    (s: Skill) => s.enabled && s.userInvocable && !IsBuiltinName(specs, s.name, lower)
  }

  function MoreUsed(): (Skill, Skill) -> bool {
    (a: Skill, b: Skill) => b.used - a.used < 0
  }

  /** Most used first; ties keep the store's order. */
  function Ranked(specs: seq<Spec>, skills: seq<Skill>, lower: Lower): seq<Skill> {
    Sort(Filter(skills, Offered(specs, lower)), MoreUsed())
  }

  function Folded(v: View, lower: Lower): set<string> {
    set n | n in NamesOf(v) :: lower(n)
  }

  /** All the names of some views, in lower case. */
  function Taken(views: seq<View>, lower: Lower): set<string> {
    if views == [] then {} else Folded(views[0], lower) + Taken(views[1..], lower)
  }

  /** The name a prompt gets when `taken` is taken, if it gets one. */
  function Admit(p: Prompt, taken: set<string>, lower: Lower): Option<string> {
    var own := CommandName(p.name);
    if own == "" then None
    else
      var name := if lower(own) in taken then CommandName(p.connector + "-" + p.name) else own;
      if name == "" || lower(name) in taken then None else Some(name)
  }

  function Admitted(prompts: seq<Prompt>, taken: set<string>, lower: Lower): seq<View> {
    if prompts == [] then []
    else
      var name := Admit(prompts[0], taken, lower);
      if name.None? then Admitted(prompts[1..], taken, lower)
      else [OfPrompt(name.value, prompts[0])] + Admitted(prompts[1..], taken + {lower(name.value)}, lower)
  }

  function Fixed(specs: seq<Spec>, skills: seq<Skill>, lower: Lower): seq<View> {
    Map(specs, OfSpec) + Map(Ranked(specs, skills, lower), OfSkill)
  }

  function Menu(specs: seq<Spec>, skills: seq<Skill>, prompts: seq<Prompt>, lower: Lower): seq<View> {
    var fixed := Fixed(specs, skills, lower);
    fixed + Admitted(prompts, Taken(fixed, lower), lower)
  }

  /** One prompt of the loop. */
  lemma AdmitStep(views: seq<View>, p: Prompt, rest: seq<Prompt>, taken: set<string>, lower: Lower)
    ensures var name := Admit(p, taken, lower);
            views + Admitted([p] + rest, taken, lower)
            == if name.None? then views + Admitted(rest, taken, lower)
               else views + [OfPrompt(name.value, p)] + Admitted(rest, taken + {lower(name.value)}, lower)
  {
    assert ([p] + rest)[1..] == rest;
    var name := Admit(p, taken, lower);
    if name.Some? {
      var more := Admitted(rest, taken + {lower(name.value)}, lower);
      assert views + ([OfPrompt(name.value, p)] + more) == views + [OfPrompt(name.value, p)] + more;
    }
  }

  method CommandViews(specs: seq<Spec>, skills: seq<Skill>, prompts: seq<Prompt>, lower: Lower)
    returns (views: seq<View>)
    ensures views == Menu(specs, skills, prompts, lower)
  {
    views := Map(specs, OfSpec);
    var ranked := Ranked(specs, skills, lower);
    for i := 0 to |ranked|
      invariant views == Map(specs, OfSpec) + Map(ranked[..i], OfSkill)
    {
      assert Map(ranked[..i + 1], OfSkill) == Map(ranked[..i], OfSkill) + [OfSkill(ranked[i])];
      views := views + [OfSkill(ranked[i])];
    }
    assert ranked[..|ranked|] == ranked;
    var taken := Taken(views, lower);
    ghost var menu := views + Admitted(prompts, taken, lower);
    assert menu == Menu(specs, skills, prompts, lower);
    assert prompts[0..] == prompts;
    for i := 0 to |prompts|
      invariant views + Admitted(prompts[i..], taken, lower) == menu
    {
      var p := prompts[i];
      assert prompts[i..] == [p] + prompts[i + 1..];
      AdmitStep(views, p, prompts[i + 1..], taken, lower);
      var name := CommandName(p.name);
      if name == "" { continue; }
      if lower(name) in taken { name := CommandName(p.connector + "-" + p.name); }
      if name == "" || lower(name) in taken { continue; }
      taken := taken + {lower(name)};
      views := views + [OfPrompt(name, p)];
    }
    assert prompts[|prompts|..] == [];
  }

  // ---- reading a typed line ----

  datatype Parsed = Parsed(name: string, args: string, view: View)

  function WordOf(s: string): string {
    if s != "" && WordChar(s[0]) then [s[0]] + WordOf(s[1..]) else ""
  }

  lemma {:induction false} WordIsAPrefix(s: string)
    ensures |WordOf(s)| <= |s| && WordOf(s) == s[..|WordOf(s)|]
  {
    if s != "" { WordIsAPrefix(s[1..]); }
  }

  function HasName(word: string, lower: Lower): View -> bool {
    (v: View) => lower(v.name) == word
  }

  function HasAlias(word: string, lower: Lower): View -> bool {
    (v: View) => exists a | a in v.aliases :: lower(a) == word
  }

  /** A name match wins over an alias match. */
  function Resolve(word: string, views: seq<View>, lower: Lower): Option<View> {
    var named := Find(views, HasName(word, lower));
    if named.Some? then named else Find(views, HasAlias(word, lower))
  }

  function ParseCommandLine(text: string, views: seq<View>, lower: Lower): Option<Parsed> {
    var t := TrimStart(text, JsSpace);
    if t == "" || t[0] != '/' then None
    else
      var word := WordOf(t[1..]);
      WordIsAPrefix(t[1..]);
      var rest := t[1 + |word|..];
      if word == "" || (rest != "" && !JsSpace(rest[0])) then None
      else
        var view := Resolve(lower(word), views, lower);
        if view.None? then None
        else Some(Parsed(view.value.name, Trim(TrimStart(rest, JsSpace), JsSpace), view.value))
  }

  predicate Blank(s: string) {
    forall c | c in s :: JsSpace(c)
  }

  lemma {:induction false} TrimStartSkips(lead: string, s: string)
    requires Blank(lead) && s != "" && !JsSpace(s[0])
    ensures TrimStart(lead + s, JsSpace) == s
  {
    if lead == "" {
      assert lead + s == s;
    } else {
      assert (lead + s)[0] == lead[0] && (lead + s)[1..] == lead[1..] + s;
      TrimStartSkips(lead[1..], s);
    }
  }

  lemma {:induction false} WordStops(w: string, tail: string)
    requires (forall c | c in w :: WordChar(c)) && (tail == "" || !WordChar(tail[0]))
    ensures WordOf(w + tail) == w
  {
    if w == "" {
      assert w + tail == tail;
    } else {
      assert (w + tail)[0] == w[0] && (w + tail)[1..] == w[1..] + tail;
      WordStops(w[1..], tail);
    }
  }

  lemma {:induction false} TrimStartTwice(s: string)
    ensures TrimStart(TrimStart(s, JsSpace), JsSpace) == TrimStart(s, JsSpace)
  {
    if s != "" && JsSpace(s[0]) { TrimStartTwice(s[1..]); }
  }

  /** A line `/word`, perhaps with blanks before it and arguments after it, is read as
   * that word and the trimmed arguments. */
  lemma TypedLine(lead: string, word: string, tail: string, views: seq<View>, lower: Lower)
    requires Blank(lead) && Typable(word) && (tail == "" || JsSpace(tail[0]))
    ensures ParseCommandLine(lead + "/" + word + tail, views, lower)
            == match Resolve(lower(word), views, lower)
               case None => None
               case Some(v) => Some(Parsed(v.name, Trim(tail, JsSpace), v))
  {
    var line := "/" + word + tail;
    assert lead + "/" + word + tail == lead + line;
    TrimStartSkips(lead, line);
    assert line[1..] == word + tail;
    WordStops(word, tail);
    assert line[1 + |word|..] == tail;
    TrimStartTwice(tail);
  }

  // ---- names that can be typed ----

  lemma {:induction false} TrimKeeps(s: string, p: char -> bool)
    ensures forall c | c in TrimStart(s, p) :: c in s
    ensures forall c | c in TrimEnd(s, p) :: c in s
    decreases |s|
  {
    if s != "" {
      TrimKeeps(s[1..], p);
      TrimKeeps(s[..|s| - 1], p);
    }
  }

  lemma {:induction false} DashedIsTypable(s: string)
    ensures forall c | c in Dashed(s) :: WordChar(c)
    decreases |s|
  {
    if s != "" {
      if WordChar(s[0]) {
        DashedIsTypable(s[1..]);
      } else {
        TrimStartShrinks(s[1..], c => !WordChar(c));
        DashedIsTypable(TrimStart(s[1..], c => !WordChar(c)));
      }
    }
  }

  /** A command name is empty or can be typed. */
  lemma CommandNameIsTypable(raw: string)
    ensures CommandName(raw) == "" || Typable(CommandName(raw))
  {
    var d := Dashed(Trim(raw, JsSpace));
    DashedIsTypable(Trim(raw, JsSpace));
    TrimKeeps(d, c => c == '-');
    TrimKeeps(TrimStart(d, c => c == '-'), c => c == '-');
  }

  // ---- nothing is shadowed ----

  lemma {:induction false} TakenHolds(views: seq<View>, lower: Lower, n: string)
    ensures n in Taken(views, lower) <==> exists v | v in views :: n in Folded(v, lower)
  {
    if views != [] {
      TakenHolds(views[1..], lower, n);
      if n in Folded(views[0], lower) { assert views[0] in views; }
    }
  }

  lemma {:induction false} TakenAppend(a: seq<View>, b: seq<View>, lower: Lower)
    ensures Taken(a + b, lower) == Taken(a, lower) + Taken(b, lower)
  {
    if a == [] {
      assert a + b == b;
    } else {
      assert (a + b)[1..] == a[1..] + b;
      TakenAppend(a[1..], b, lower);
    }
  }

  lemma TakenByPrompt(name: string, p: Prompt, lower: Lower)
    ensures Folded(OfPrompt(name, p), lower) == {lower(name)}
    ensures Taken([OfPrompt(name, p)], lower) == {lower(name)}
  {
    assert NamesOf(OfPrompt(name, p)) == [name];
    assert [OfPrompt(name, p)][1..] == [];
  }

  /** The admitted prompts stay clear of what is taken and of each other. */
  lemma {:induction false} AdmittedIsFresh(prompts: seq<Prompt>, taken: set<string>, lower: Lower)
    ensures var views := Admitted(prompts, taken, lower);
            && (forall v | v in views :: v.source.FromPrompt? && v.aliases == [] && Typable(v.name))
            && (forall v | v in views :: lower(v.name) !in taken && v.source.prompt in prompts)
            && (forall i, j | 0 <= i < j < |views| :: lower(views[i].name) != lower(views[j].name))
  {
    if prompts != [] {
      var name := Admit(prompts[0], taken, lower);
      if name.None? {
        AdmittedIsFresh(prompts[1..], taken, lower);
      } else {
        AdmittedIsFresh(prompts[1..], taken + {lower(name.value)}, lower);
        CommandNameIsTypable(prompts[0].name);
        CommandNameIsTypable(prompts[0].connector + "-" + prompts[0].name);
      }
    }
  }

  /** What the loop makes of one prompt, with the names in front of it in hand. */
  lemma {:induction false} AdmittedSplits(a: seq<Prompt>, b: seq<Prompt>, taken: set<string>, lower: Lower)
    ensures var first := Admitted(a, taken, lower);
            Admitted(a + b, taken, lower) == first + Admitted(b, taken + Taken(first, lower), lower)
  {
    if a == [] {
      assert a + b == b && taken + {} == taken;
    } else {
      assert (a + b)[1..] == a[1..] + b;
      var name := Admit(a[0], taken, lower);
      if name.None? {
        AdmittedSplits(a[1..], b, taken, lower);
      } else {
        var view, taken' := OfPrompt(name.value, a[0]), taken + {lower(name.value)};
        AdmittedSplits(a[1..], b, taken', lower);
        var more := Admitted(a[1..], taken', lower);
        TakenByPrompt(name.value, a[0], lower);
        TakenAppend([view], more, lower);
        assert taken + Taken([view] + more, lower) == taken' + Taken(more, lower);
      }
    }
  }

  lemma AdmittedBehind(fixed: seq<View>, a: seq<Prompt>, b: seq<Prompt>, lower: Lower)
    ensures var front := fixed + Admitted(a, Taken(fixed, lower), lower);
            fixed + Admitted(a + b, Taken(fixed, lower), lower) == front + Admitted(b, Taken(front, lower), lower)
  {
    var taken := Taken(fixed, lower);
    var shown := Admitted(a, taken, lower);
    AdmittedSplits(a, b, taken, lower);
    assert Taken(fixed + shown, lower) == taken + Taken(shown, lower) by { TakenAppend(fixed, shown, lower); }
    AppendAssociates(fixed, shown, Admitted(b, taken + Taken(shown, lower), lower));
  }

  /** A prompt is shown under its own name, else under its connector's, else not at
   * all: it is left out exactly when its name has nothing to type in it, or both
   * names are unusable. What is in front of it in the menu is what counts as taken. */
  lemma PromptIsLeftOutExactlyWhenItsNamesAreTaken(
    specs: seq<Spec>, skills: seq<Skill>, before: seq<Prompt>, p: Prompt, after: seq<Prompt>, lower: Lower)
    returns (back: seq<View>)
    ensures var own, long := CommandName(p.name), CommandName(p.connector + "-" + p.name);
            var front := Menu(specs, skills, before, lower);
            var menu := Menu(specs, skills, before + [p] + after, lower);
            if own != "" && lower(own) !in Taken(front, lower) then menu == front + [OfPrompt(own, p)] + back
            else if own != "" && long != "" && lower(long) !in Taken(front, lower) then
              menu == front + [OfPrompt(long, p)] + back
            else menu == front + back
    ensures forall v | v in back :: v.source.FromPrompt? && v.source.prompt in after
  {
    var front := Menu(specs, skills, before, lower);
    AdmitCases(p, Taken(front, lower), lower);
    back := MenuAround(specs, skills, before, p, after, lower);
  }

  lemma AdmitCases(p: Prompt, taken: set<string>, lower: Lower)
    ensures var own, long := CommandName(p.name), CommandName(p.connector + "-" + p.name);
            Admit(p, taken, lower) ==
            if own != "" && lower(own) !in taken then Some(own)
            else if own != "" && long != "" && lower(long) !in taken then Some(long)
            else None
  {
  }

  lemma MenuAround(
    specs: seq<Spec>, skills: seq<Skill>, before: seq<Prompt>, p: Prompt, after: seq<Prompt>, lower: Lower)
    returns (back: seq<View>)
    ensures var front := Menu(specs, skills, before, lower);
            var name := Admit(p, Taken(front, lower), lower);
            Menu(specs, skills, before + [p] + after, lower)
            == if name.None? then front + back else front + [OfPrompt(name.value, p)] + back
    ensures forall v | v in back :: v.source.FromPrompt? && v.source.prompt in after
  {
    var front := Menu(specs, skills, before, lower);
    var taken := Taken(front, lower);
    AdmittedBehind(Fixed(specs, skills, lower), before, [p] + after, lower);
    assert before + ([p] + after) == before + [p] + after;
    AdmitStep(front, p, after, taken, lower);
    var name := Admit(p, taken, lower);
    var taken' := if name.Some? then taken + {lower(name.value)} else taken;
    back := Admitted(after, taken', lower);
    AdmittedIsFresh(after, taken', lower);
  }

  /** The manifest: names and aliases distinct, written in lower case. */
  ghost predicate Qualifies(specs: seq<Spec>, lower: Lower) {
    NoDup(Manifest(specs)) && forall n | n in Manifest(specs) :: lower(n) == n && Typable(n)
  }

  lemma {:induction false} ManifestHolds(specs: seq<Spec>, n: string)
    ensures n in Manifest(specs) <==> exists s | s in specs :: n in NamesOf(OfSpec(s))
  {
    if specs != [] {
      ManifestHolds(specs[1..], n);
      if n in NamesOf(OfSpec(specs[0])) { assert specs[0] in specs; }
    }
  }

  /** A name of the manifest belongs to one command. */
  lemma {:induction false} ManifestNamesOne(specs: seq<Spec>, s: Spec, t: Spec, n: string)
    requires NoDup(Manifest(specs)) && s in specs && t in specs
    requires n in NamesOf(OfSpec(s)) && n in NamesOf(OfSpec(t))
    ensures s == t
  {
    var head, rest := NamesOf(OfSpec(specs[0])), Manifest(specs[1..]);
    assert Manifest(specs) == head + rest;
    NoDupParts(head, rest);
    ManifestHolds(specs[1..], n);
    if s != specs[0] { assert s in specs[1..]; }
    if t != specs[0] { assert t in specs[1..]; }
    if s != specs[0] && t != specs[0] { ManifestNamesOne(specs[1..], s, t, n); }
  }

  /** Where the views of the menu come from. */
  lemma MenuHolds(specs: seq<Spec>, skills: seq<Skill>, prompts: seq<Prompt>, lower: Lower, v: View)
    requires v in Menu(specs, skills, prompts, lower)
    ensures v.source.Builtin? ==> v.source.spec in specs && v == OfSpec(v.source.spec)
    ensures v.source.FromSkill? ==>
              v == OfSkill(v.source.skill) && v.source.skill in skills && Offered(specs, lower)(v.source.skill)
    ensures v.source.FromPrompt? ==>
              && v in Admitted(prompts, Taken(Fixed(specs, skills, lower), lower), lower)
              && v.aliases == [] && Typable(v.name)
              && lower(v.name) !in Taken(Fixed(specs, skills, lower), lower)
  {
    var fixed := Fixed(specs, skills, lower);
    AdmittedIsFresh(prompts, Taken(fixed, lower), lower);
    if v in Map(Ranked(specs, skills, lower), OfSkill) {
      var offered := Filter(skills, Offered(specs, lower));
      SortPermutes(offered, MoreUsed());
      assert v.source.skill in multiset(Ranked(specs, skills, lower));
      FilterIn(skills, Offered(specs, lower), v.source.skill);
    }
  }

  lemma SpecIsInTheMenu(specs: seq<Spec>, skills: seq<Skill>, prompts: seq<Prompt>, lower: Lower, s: Spec)
    requires s in specs
    ensures OfSpec(s) in Fixed(specs, skills, lower) && OfSpec(s) in Menu(specs, skills, prompts, lower)
  {
    var i :| 0 <= i < |specs| && specs[i] == s;
    assert Map(specs, OfSpec)[i] == OfSpec(s);
    assert OfSpec(s) in Map(specs, OfSpec);
  }

  /** Only the command itself answers to a built-in name or alias. */
  lemma OnlyTheBuiltinAnswers(specs: seq<Spec>, skills: seq<Skill>, prompts: seq<Prompt>, lower: Lower,
                              s: Spec, n: string, v: View)
    requires Qualifies(specs, lower) && s in specs && n in NamesOf(OfSpec(s))
    requires v in Menu(specs, skills, prompts, lower) && n in Folded(v, lower)
    ensures v == OfSpec(s)
  {
    MenuHolds(specs, skills, prompts, lower, v);
    ManifestHolds(specs, n);
    var m :| m in NamesOf(v) && lower(m) == n;
    match v.source {
      case Builtin(t) =>
        ManifestHolds(specs, m);
        ManifestNamesOne(specs, s, t, n);
      case FromSkill(sk) =>
        assert false;
      case FromPrompt(_) =>
        assert m == v.name;
        SpecIsInTheMenu(specs, skills, prompts, lower, s);
        assert lower(n) in Folded(OfSpec(s), lower);
        TakenHolds(Fixed(specs, skills, lower), lower, n);
        assert false;
    }
  }

  /** Typing a built-in's name or one of its aliases runs that built-in, whatever the
   * skills and prompts are called. */
  lemma BuiltinsAreNeverShadowed(
    specs: seq<Spec>, skills: seq<Skill>, prompts: seq<Prompt>, lower: Lower,
    s: Spec, n: string, lead: string, word: string, tail: string)
    requires Qualifies(specs, lower) && s in specs && n in NamesOf(OfSpec(s))
    requires Blank(lead) && Typable(word) && lower(word) == n && (tail == "" || JsSpace(tail[0]))
    ensures ParseCommandLine(lead + "/" + word + tail, Menu(specs, skills, prompts, lower), lower)
            == Some(Parsed(s.name, Trim(tail, JsSpace), OfSpec(s)))
  {
    var menu := Menu(specs, skills, prompts, lower);
    TypedLine(lead, word, tail, menu, lower);
    SpecIsInTheMenu(specs, skills, prompts, lower, s);
    ManifestHolds(specs, n);
    forall v | v in menu && (HasName(n, lower)(v) || HasAlias(n, lower)(v)) ensures v == OfSpec(s) {
      if HasName(n, lower)(v) {
        assert v.name in NamesOf(v);
      } else {
        var a :| a in v.aliases && lower(a) == n;
        assert a in NamesOf(v);
      }
      OnlyTheBuiltinAnswers(specs, skills, prompts, lower, s, n, v);
    }
    FindSound(menu, HasName(n, lower));
    if n == s.name {
      FindUnique(menu, HasName(n, lower), OfSpec(s));
    } else {
      assert n in s.aliases && HasAlias(n, lower)(OfSpec(s));
      FindUnique(menu, HasAlias(n, lower), OfSpec(s));
    }
  }

  lemma AdmittedTellsApart(prompts: seq<Prompt>, taken: set<string>, lower: Lower, v: View, w: View)
    requires v in Admitted(prompts, taken, lower) && w in Admitted(prompts, taken, lower)
    requires lower(v.name) in Folded(w, lower)
    ensures w == v
  {
    var admitted := Admitted(prompts, taken, lower);
    AdmittedIsFresh(prompts, taken, lower);
    assert NamesOf(w) == [w.name];
    var i :| 0 <= i < |admitted| && admitted[i] == v;
    var j :| 0 <= j < |admitted| && admitted[j] == w;
  }

  /** Only the prompt itself answers to the name it was given. */
  lemma OnlyThePromptAnswers(specs: seq<Spec>, skills: seq<Skill>, prompts: seq<Prompt>, lower: Lower, v: View, w: View)
    requires v in Menu(specs, skills, prompts, lower) && v.source.FromPrompt?
    requires w in Menu(specs, skills, prompts, lower) && lower(v.name) in Folded(w, lower)
    ensures w == v
  {
    var fixed := Fixed(specs, skills, lower);
    MenuHolds(specs, skills, prompts, lower, v);
    if w in fixed {
      TakenHolds(fixed, lower, lower(v.name));
    } else {
      AdmittedTellsApart(prompts, Taken(fixed, lower), lower, v, w);
    }
  }

  /** Every prompt in the menu has a name that can be typed, and typing it, in any case,
   * resolves to that prompt. */
  lemma PromptsResolveToThemselves(
    specs: seq<Spec>, skills: seq<Skill>, prompts: seq<Prompt>, lower: Lower,
    v: View, lead: string, word: string, tail: string)
    requires v in Menu(specs, skills, prompts, lower) && v.source.FromPrompt?
    requires Blank(lead) && Typable(word) && lower(word) == lower(v.name) && (tail == "" || JsSpace(tail[0]))
    ensures Typable(v.name)
    ensures ParseCommandLine(lead + "/" + word + tail, Menu(specs, skills, prompts, lower), lower)
            == Some(Parsed(v.name, Trim(tail, JsSpace), v))
  {
    var menu := Menu(specs, skills, prompts, lower);
    TypedLine(lead, word, tail, menu, lower);
    MenuHolds(specs, skills, prompts, lower, v);
    forall w | w in menu && HasName(lower(v.name), lower)(w) ensures w == v {
      assert w.name in NamesOf(w);
      OnlyThePromptAnswers(specs, skills, prompts, lower, v, w);
    }
    FindUnique(menu, HasName(lower(v.name), lower), v);
  }

  // ---- which skills are in the menu, and where ----

  /** A skill is in the menu exactly when it is enabled, may be run by the user and is not
   * named like a built-in, in whatever case. */
  lemma SkillsInTheMenu(specs: seq<Spec>, skills: seq<Skill>, prompts: seq<Prompt>, lower: Lower, sk: Skill)
    ensures OfSkill(sk) in Menu(specs, skills, prompts, lower)
            <==> sk in skills && sk.enabled && sk.userInvocable && lower(sk.name) !in Manifest(specs)
  {
    var offered := Filter(skills, Offered(specs, lower));
    SortPermutes(offered, MoreUsed());
    FilterIn(skills, Offered(specs, lower), sk);
    var ranked := Ranked(specs, skills, lower);
    assert sk in multiset(offered) <==> sk in multiset(ranked);
    if sk in ranked {
      var i :| 0 <= i < |ranked| && ranked[i] == sk;
      assert Map(ranked, OfSkill)[i] == OfSkill(sk);
      assert OfSkill(sk) in Map(ranked, OfSkill);
    }
    if OfSkill(sk) in Menu(specs, skills, prompts, lower) {
      MenuHolds(specs, skills, prompts, lower, OfSkill(sk));
    }
  }

  function UsedTimes(n: int): Skill -> bool {
    (s: Skill) => s.used == n
  }

  /** The menu is the built-ins in the order of the manifest, then the skills, most used
   * first and ties in the order they came, then prompts. */
  lemma MenuIsInOrder(specs: seq<Spec>, skills: seq<Skill>, prompts: seq<Prompt>, lower: Lower, n: int)
    returns (ranked: seq<Skill>, rest: seq<View>)
    ensures Menu(specs, skills, prompts, lower)
            == Map(specs, (s: Spec) => View(s.name, s.aliases, Builtin(s)))
               + Map(ranked, (s: Skill) => View(s.name, [], FromSkill(s))) + rest
    ensures forall v | v in rest :: v.source.FromPrompt? && v.source.prompt in prompts
    ensures forall i, j | 0 <= i < j < |ranked| :: ranked[i].used >= ranked[j].used
    ensures multiset(ranked) == multiset(Filter(skills, Offered(specs, lower)))
    ensures Filter(ranked, UsedTimes(n)) == Filter(Filter(skills, Offered(specs, lower)), UsedTimes(n))
  {
    ranked := Ranked(specs, skills, lower);
    rest := Admitted(prompts, Taken(Fixed(specs, skills, lower), lower), lower);
    AdmittedIsFresh(prompts, Taken(Fixed(specs, skills, lower), lower), lower);
    var offered := Filter(skills, Offered(specs, lower));
    SortSorts(offered, MoreUsed());
    SortPermutes(offered, MoreUsed());
    SortIsStable(offered, MoreUsed(), UsedTimes(n));
    forall i, j | 0 <= i < j < |ranked| ensures ranked[i].used >= ranked[j].used {
      assert !MoreUsed()(ranked[j], ranked[i]);
    }
    assert Map(specs, OfSpec) == Map(specs, (s: Spec) => View(s.name, s.aliases, Builtin(s)));
    assert Map(ranked, OfSkill) == Map(ranked, (s: Skill) => View(s.name, [], FromSkill(s)));
  }

  // ---- what becomes of a prompt's name ----

  predicate Letter(c: char) {
    'A' <= c <= 'Z' || 'a' <= c <= 'z' || '0' <= c <= '9' || c == '_'
  }

  lemma {:induction false} TrimStartKeepsLetters(s: string, p: char -> bool)
    requires forall c | p(c) :: !Letter(c)
    ensures Filter(TrimStart(s, p), Letter) == Filter(s, Letter)
  {
    if s != "" && p(s[0]) { TrimStartKeepsLetters(s[1..], p); }
  }

  lemma {:induction false} TrimEndKeepsLetters(s: string, p: char -> bool)
    requires forall c | p(c) :: !Letter(c)
    ensures Filter(TrimEnd(s, p), Letter) == Filter(s, Letter)
  {
    if s != "" && p(s[|s| - 1]) {
      TrimEndKeepsLetters(s[..|s| - 1], p);
      assert s == s[..|s| - 1] + [s[|s| - 1]] && [s[|s| - 1]][1..] == [];
      FilterAppend(s[..|s| - 1], [s[|s| - 1]], Letter);
    }
  }

  lemma {:induction false} DashedKeepsLetters(s: string)
    ensures Filter(Dashed(s), Letter) == Filter(s, Letter)
    decreases |s|
  {
    if s != "" {
      if WordChar(s[0]) {
        DashedKeepsLetters(s[1..]);
      } else {
        var p := c => !WordChar(c);
        TrimStartShrinks(s[1..], p);
        DashedKeepsLetters(TrimStart(s[1..], p));
        TrimStartKeepsLetters(s[1..], p);
        assert ("-" + Dashed(TrimStart(s[1..], p)))[1..] == Dashed(TrimStart(s[1..], p));
      }
    }
  }

  /** A prompt's name keeps its letters, digits and underscores in order. */
  lemma CommandNameKeepsLetters(raw: string)
    ensures Filter(CommandName(raw), Letter) == Filter(raw, Letter)
  {
    var t := Trim(raw, JsSpace);
    TrimStartKeepsLetters(raw, JsSpace);
    TrimEndKeepsLetters(TrimStart(raw, JsSpace), JsSpace);
    DashedKeepsLetters(t);
    TrimStartKeepsLetters(Dashed(t), c => c == '-');
    TrimEndKeepsLetters(TrimStart(Dashed(t), c => c == '-'), c => c == '-');
  }

  lemma {:induction false} DashedStays(s: string)
    requires forall c | c in s :: WordChar(c)
    ensures Dashed(s) == s
  {
    if s != "" { DashedStays(s[1..]); }
  }

  /** A name that can be typed and has no dash at either end is left as it is, and no
   * name is given with one. */
  lemma TypableNamesStay(raw: string)
    ensures Typable(raw) && raw[0] != '-' && raw[|raw| - 1] != '-' ==> CommandName(raw) == raw
    ensures var n := CommandName(raw); n != "" ==> n[0] != '-' && n[|n| - 1] != '-'
  {
    var dash := c => c == '-';
    var d := Dashed(Trim(raw, JsSpace));
    TrimStartEnds(d, dash);
    TrimEndEnds(TrimStart(d, dash), dash);
    if Typable(raw) && raw[0] != '-' && raw[|raw| - 1] != '-' {
      assert raw[0] in raw && raw[|raw| - 1] in raw;
      TrimTakesBothEnds("", raw, "", JsSpace);
      assert "" + raw + "" == raw;
      DashedStays(raw);
      TrimTakesBothEnds("", raw, "", dash);
    }
  }

  lemma {:induction false} DashedJoins(x: string, gap: string, y: string)
    requires (forall c | c in x :: WordChar(c)) && (forall c | c in y :: WordChar(c))
    requires gap != "" && y != "" && forall c | c in gap :: !WordChar(c)
    ensures Dashed(x + gap + y) == x + "-" + y
  {
    if x == "" {
      var p := c => !WordChar(c);
      assert x + gap + y == gap + y && (gap + y)[0] == gap[0] && (gap + y)[1..] == gap[1..] + y;
      assert gap[0] in gap && y[0] in y;
      TrimStartTakes(gap[1..], y, p);
      DashedStays(y);
    } else {
      assert (x + gap + y)[0] == x[0] && (x + gap + y)[1..] == x[1..] + gap + y;
      assert x[0] in x;
      DashedJoins(x[1..], gap, y);
    }
  }

  /** Whatever stands between two words becomes one dash. */
  lemma WordsAreJoinedByOneDash(x: string, gap: string, y: string)
    requires Typable(x) && Typable(y) && x[0] != '-' && y[|y| - 1] != '-'
    requires gap != "" && forall c | c in gap :: !WordChar(c)
    ensures CommandName(x + gap + y) == x + "-" + y
  {
    var s, dash := x + gap + y, c => c == '-';
    assert x[0] in x && y[|y| - 1] in y && s[0] == x[0] && s[|s| - 1] == y[|y| - 1];
    TrimTakesBothEnds("", s, "", JsSpace);
    assert "" + s + "" == s;
    DashedJoins(x, gap, y);
    var n := x + "-" + y;
    TrimTakesBothEnds("", n, "", dash);
    assert "" + n + "" == n;
  }

  lemma {:induction false} TrimStartEnds(s: string, p: char -> bool)
    ensures TrimStart(s, p) != "" ==> !p(TrimStart(s, p)[0])
  {
    if s != "" && p(s[0]) { TrimStartEnds(s[1..], p); }
  }

  lemma {:induction false} TrimEndEnds(s: string, p: char -> bool)
    ensures var t := TrimEnd(s, p); t != "" ==> !p(t[|t| - 1]) && s != "" && t[0] == s[0]
  {
    if s != "" && p(s[|s| - 1]) { TrimEndEnds(s[..|s| - 1], p); }
  }

  // ---- what is a command line at all ----

  lemma {:induction false} TrimStartSplits(s: string) returns (lead: string)
    ensures s == lead + TrimStart(s, JsSpace) && Blank(lead)
  {
    if s != "" && JsSpace(s[0]) {
      var more := TrimStartSplits(s[1..]);
      lead := [s[0]] + more;
      assert s == [s[0]] + s[1..];
    } else {
      lead := "";
    }
  }

  lemma {:induction false} WordIsTypable(s: string)
    ensures forall c | c in WordOf(s) :: WordChar(c)
  {
    if s != "" { WordIsTypable(s[1..]); }
  }

  /** Only a slash, a word that can be typed, and a blank before anything else make a
   * command line, and only when the word resolves. Anything else is a message. */
  lemma OnlyKnownWordsAreCommands(text: string, views: seq<View>, lower: Lower) returns (lead: string, word: string, tail: string)
    ensures ParseCommandLine(text, views, lower).Some? ==>
              && text == lead + "/" + word + tail && Blank(lead) && Typable(word) && (tail == "" || JsSpace(tail[0]))
              && Resolve(lower(word), views, lower).Some?
  {
    lead, word, tail := "", "", "";
    if ParseCommandLine(text, views, lower).Some? {
      var t := TrimStart(text, JsSpace);
      lead := TrimStartSplits(text);
      word := WordOf(t[1..]);
      WordIsAPrefix(t[1..]);
      WordIsTypable(t[1..]);
      tail := t[1 + |word|..];
      assert t == "/" + word + tail;
    }
  }

  /** A word names the first view of that name, else the first that has it as an alias. */
  lemma ResolveReads(word: string, views: seq<View>, lower: Lower) returns (n: nat)
    ensures Resolve(word, views, lower).None? ==> forall v | v in views :: word !in Folded(v, lower)
    ensures Resolve(word, views, lower).Some? ==>
              && n < |views| && views[n] == Resolve(word, views, lower).value && word in Folded(views[n], lower)
              && (lower(views[n].name) == word ==> forall m | 0 <= m < n :: lower(views[m].name) != word)
              && (lower(views[n].name) != word ==>
                    && (forall v | v in views :: lower(v.name) != word)
                    && forall m | 0 <= m < n :: word !in Folded(views[m], lower))
  {
    n := 0;
    FindSound(views, HasName(word, lower));
    FindSound(views, HasAlias(word, lower));
    forall v | v in views ensures word in Folded(v, lower) <==> HasName(word, lower)(v) || HasAlias(word, lower)(v) {
      FoldedReads(v, word, lower);
    }
    if Find(views, HasName(word, lower)).Some? {
      n := FindFirst(views, HasName(word, lower));
    } else if Find(views, HasAlias(word, lower)).Some? {
      n := FindFirst(views, HasAlias(word, lower));
    }
  }

  lemma FoldedReads(v: View, word: string, lower: Lower)
    ensures word in Folded(v, lower) <==> HasName(word, lower)(v) || HasAlias(word, lower)(v)
  {
    if HasName(word, lower)(v) { assert v.name in NamesOf(v); }
    if HasAlias(word, lower)(v) {
      var a :| a in v.aliases && lower(a) == word;
      assert a in NamesOf(v);
    }
  }
}
