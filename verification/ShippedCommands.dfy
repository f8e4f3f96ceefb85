/** The commands the app ships, and that they qualify for what is proved of the menu. */
module ShippedCommands {
  import opened Seqs
  import opened Text
  import opened Commands

  // The manifest, section by section.

  const TURN: seq<Spec> := [
    Spec("effort", []), Spec("steps", []), Spec("stop", []), Spec("continue", []), Spec("retry", []),
    Spec("plan", []), Spec("btw", [])
  ]

  const CONVERSATION: seq<Spec> := [
    Spec("new", ["clear"]), Spec("rename", []), Spec("fork", []), Spec("export", []), Spec("rewind", []),
    Spec("compact", []), Spec("context", []), Spec("why", []), Spec("talk", ["voice"])
  ]

  const ME: seq<Spec> := [
    Spec("remember", []), Spec("forget", []), Spec("always", []), Spec("reflect", []), Spec("checkup", []),
    Spec("apps", []), Spec("connect", []), Spec("skillify", ["make-skill"]), Spec("tidy", []),
    Spec("self", []), Spec("autonomy", [])
  ]

  const MODES: seq<Spec> := [
    Spec("workspace", []), Spec("tools", []), Spec("external", []), Spec("persona", []), Spec("model", [])
  ]

  const AGENTS: seq<Spec> := [
    Spec("delegate", []), Spec("agents", []), Spec("schedule", [])
  ]

  const CREATE: seq<Spec> := [
    Spec("image", []), Spec("video", [])
  ]

  const WORK: seq<Spec> := [
    Spec("goal", []), Spec("init", []), Spec("review", []), Spec("verify", []), Spec("changes", []),
    Spec("undo", []), Spec("keep", []), Spec("permissions", [])
  ]

  const INSPECT: seq<Spec> := [
    Spec("usage", []), Spec("activity", []), Spec("help", [])
  ]

  const SHIPPED: seq<Spec> := TURN + CONVERSATION + ME + MODES + AGENTS + CREATE + WORK + INSPECT

  /** The characters the shipped names are made of. */
  predicate Written(n: string) {
    |n| > 0 && forall i | 0 <= i < |n| :: 'a' <= n[i] <= 'z' || n[i] == '-'
  }

  /** Which command of the manifest answers to a name, read off its length and a few
   * of its letters. */
  function Place(n: string): int {
    match |n|
    case 3 => (
      match n[0]
      case 'b' => 6 case 'n' => 7 case _ => 14)
    case 4 => (
      match n[0]
      case 'a' => 21 case 'f' => 9 case 'g' => 37 case 'h' => 47 case 'i' => 38 case 'k' => 43
      case 'p' => 5 case 's' => (match n[1] case 'e' => 25 case _ => 2)
      case 't' => (match n[1] case 'a' => 15 case _ => 24) case _ => 42)
    case 5 => (
      match n[0]
      case 'c' => 7 case 'i' => 35 case 'm' => 31 case 'r' => 4 case 's' => 1 case 't' => 28
      case 'u' => 45 case _ => (match n[1] case 'i' => 36 case _ => 15))
    case 6 => (
      match n[2]
      case 'e' => 33 case 'f' => 0 case 'n' => 8 case 'p' => 10
      case 'r' => (match n[0] case 'f' => 17 case _ => 40) case 'v' => 39
      case _ => (match n[0] case 'a' => 18 case _ => 11))
    case 7 => (
      match n[2]
      case 'a' => 41 case 'e' => 20 case 'f' => 19 case 'm' => 12
      case 'n' => (match n[3] case 'n' => 22 case _ => 13) case _ => 30)
    case 8 => (
      match n[4]
      case 'd' => 34 case 'g' => 32 case 'i' => 3 case 'l' => 23 case 'm' => 16 case 'n' => 26
      case 'r' => 29 case _ => 46)
    case 9 => 27
    case 10 => 23
    case 11 => 44
    case _ => -1
  }

  /** Every name of the command leads to its place. */
  ghost predicate PlacedAt(k: nat, s: Spec) {
    && NoDup(NamesOf(OfSpec(s)))
    && forall n | n in NamesOf(OfSpec(s)) :: Place(n) == k && Written(n)
  }

  ghost predicate Placed(specs: seq<Spec>, from: nat) {
    forall i | 0 <= i < |specs| :: PlacedAt(from + i, specs[i])
  }

  lemma OneName(k: nat, name: string)
    requires Place(name) == k && Written(name)
    ensures PlacedAt(k, Spec(name, []))
  {
    assert NamesOf(OfSpec(Spec(name, []))) == [name];
  }

  lemma TwoNames(k: nat, name: string, other: string)
    requires Place(name) == k && Written(name) && Place(other) == k && Written(other) && |name| != |other|
    ensures PlacedAt(k, Spec(name, [other]))
  {
    assert NamesOf(OfSpec(Spec(name, [other]))) == [name, other];
  }

  lemma PlacedAppend(a: seq<Spec>, b: seq<Spec>, from: nat)
    requires Placed(a, from) && Placed(b, from + |a|)
    ensures Placed(a + b, from)
  {
    forall i | 0 <= i < |a + b| ensures PlacedAt(from + i, (a + b)[i]) {
      assert i >= |a| ==> PlacedAt(from + |a| + (i - |a|), b[i - |a|]);
    }
  }

  lemma TurnPlaced(i: nat)
    requires i < |TURN|
    ensures PlacedAt(0 + i, TURN[i])
  {
    if i == 0 {
      OneName(0, "effort");
    } else if i == 1 {
      OneName(1, "steps");
    } else if i == 2 {
      OneName(2, "stop");
    } else if i == 3 {
      OneName(3, "continue");
    } else if i == 4 {
      OneName(4, "retry");
    } else if i == 5 {
      OneName(5, "plan");
    } else {
      OneName(6, "btw");
    }
  }

  lemma ConversationPlaced0To4(i: nat)
    requires 0 <= i < 5
    ensures PlacedAt(7 + i, CONVERSATION[i])
  {
    if i == 0 {
      TwoNames(7, "new", "clear");
    } else if i == 1 {
      OneName(8, "rename");
    } else if i == 2 {
      OneName(9, "fork");
    } else if i == 3 {
      OneName(10, "export");
    } else {
      OneName(11, "rewind");
    }
  }

  lemma ConversationPlaced5To8(i: nat)
    requires 5 <= i < 9
    ensures PlacedAt(7 + i, CONVERSATION[i])
  {
    if i == 5 {
      OneName(12, "compact");
    } else if i == 6 {
      OneName(13, "context");
    } else if i == 7 {
      OneName(14, "why");
    } else {
      TwoNames(15, "talk", "voice");
    }
  }

  lemma ConversationPlaced(i: nat)
    requires i < |CONVERSATION|
    ensures PlacedAt(7 + i, CONVERSATION[i])
  {
    if i < 5 {
      ConversationPlaced0To4(i);
    } else {
      ConversationPlaced5To8(i);
    }
  }

  lemma MePlaced0To3(i: nat)
    requires 0 <= i < 4
    ensures PlacedAt(16 + i, ME[i])
  {
    if i == 0 {
      OneName(16, "remember");
    } else if i == 1 {
      OneName(17, "forget");
    } else if i == 2 {
      OneName(18, "always");
    } else {
      OneName(19, "reflect");
    }
  }

  lemma MePlaced4To7(i: nat)
    requires 4 <= i < 8
    ensures PlacedAt(16 + i, ME[i])
  {
    if i == 4 {
      OneName(20, "checkup");
    } else if i == 5 {
      OneName(21, "apps");
    } else if i == 6 {
      OneName(22, "connect");
    } else {
      TwoNames(23, "skillify", "make-skill");
    }
  }

  lemma MePlaced8To10(i: nat)
    requires 8 <= i < 11
    ensures PlacedAt(16 + i, ME[i])
  {
    if i == 8 {
      OneName(24, "tidy");
    } else if i == 9 {
      OneName(25, "self");
    } else {
      OneName(26, "autonomy");
    }
  }

  lemma MePlaced(i: nat)
    requires i < |ME|
    ensures PlacedAt(16 + i, ME[i])
  {
    if i < 4 {
      MePlaced0To3(i);
    } else if i < 8 {
      MePlaced4To7(i);
    } else {
      MePlaced8To10(i);
    }
  }

  lemma ModesPlaced(i: nat)
    requires i < |MODES|
    ensures PlacedAt(27 + i, MODES[i])
  {
    if i == 0 {
      OneName(27, "workspace");
    } else if i == 1 {
      OneName(28, "tools");
    } else if i == 2 {
      OneName(29, "external");
    } else if i == 3 {
      OneName(30, "persona");
    } else {
      OneName(31, "model");
    }
  }

  lemma AgentsPlaced(i: nat)
    requires i < |AGENTS|
    ensures PlacedAt(32 + i, AGENTS[i])
  {
    if i == 0 {
      OneName(32, "delegate");
    } else if i == 1 {
      OneName(33, "agents");
    } else {
      OneName(34, "schedule");
    }
  }

  lemma CreatePlaced(i: nat)
    requires i < |CREATE|
    ensures PlacedAt(35 + i, CREATE[i])
  {
    if i == 0 {
      OneName(35, "image");
    } else {
      OneName(36, "video");
    }
  }

  lemma WorkPlaced0To3(i: nat)
    requires 0 <= i < 4
    ensures PlacedAt(37 + i, WORK[i])
  {
    if i == 0 {
      OneName(37, "goal");
    } else if i == 1 {
      OneName(38, "init");
    } else if i == 2 {
      OneName(39, "review");
    } else {
      OneName(40, "verify");
    }
  }

  lemma WorkPlaced4To7(i: nat)
    requires 4 <= i < 8
    ensures PlacedAt(37 + i, WORK[i])
  {
    if i == 4 {
      OneName(41, "changes");
    } else if i == 5 {
      OneName(42, "undo");
    } else if i == 6 {
      OneName(43, "keep");
    } else {
      OneName(44, "permissions");
    }
  }

  lemma WorkPlaced(i: nat)
    requires i < |WORK|
    ensures PlacedAt(37 + i, WORK[i])
  {
    if i < 4 {
      WorkPlaced0To3(i);
    } else {
      WorkPlaced4To7(i);
    }
  }

  lemma InspectPlaced(i: nat)
    requires i < |INSPECT|
    ensures PlacedAt(45 + i, INSPECT[i])
  {
    if i == 0 {
      OneName(45, "usage");
    } else if i == 1 {
      OneName(46, "activity");
    } else {
      OneName(47, "help");
    }
  }

  lemma ShippedIsPlaced()
    ensures Placed(SHIPPED, 0)
  {
    forall i: nat | i < |TURN| ensures PlacedAt(0 + i, TURN[i]) {
      TurnPlaced(i);
    }
    forall i: nat | i < |CONVERSATION| ensures PlacedAt(7 + i, CONVERSATION[i]) {
      ConversationPlaced(i);
    }
    PlacedAppend(TURN, CONVERSATION, 0);
    forall i: nat | i < |ME| ensures PlacedAt(16 + i, ME[i]) {
      MePlaced(i);
    }
    PlacedAppend(TURN + CONVERSATION, ME, 0);
    forall i: nat | i < |MODES| ensures PlacedAt(27 + i, MODES[i]) {
      ModesPlaced(i);
    }
    PlacedAppend(TURN + CONVERSATION + ME, MODES, 0);
    forall i: nat | i < |AGENTS| ensures PlacedAt(32 + i, AGENTS[i]) {
      AgentsPlaced(i);
    }
    PlacedAppend(TURN + CONVERSATION + ME + MODES, AGENTS, 0);
    forall i: nat | i < |CREATE| ensures PlacedAt(35 + i, CREATE[i]) {
      CreatePlaced(i);
    }
    PlacedAppend(TURN + CONVERSATION + ME + MODES + AGENTS, CREATE, 0);
    forall i: nat | i < |WORK| ensures PlacedAt(37 + i, WORK[i]) {
      WorkPlaced(i);
    }
    PlacedAppend(TURN + CONVERSATION + ME + MODES + AGENTS + CREATE, WORK, 0);
    forall i: nat | i < |INSPECT| ensures PlacedAt(45 + i, INSPECT[i]) {
      InspectPlaced(i);
    }
    PlacedAppend(TURN + CONVERSATION + ME + MODES + AGENTS + CREATE + WORK, INSPECT, 0);
  }

  /** Names that lead to different places are different, so with aliases distinct within
   * one command all the names are. */
  lemma {:induction false} PlacedIsDistinct(specs: seq<Spec>, from: nat)
    requires Placed(specs, from)
    ensures NoDup(Manifest(specs))
    ensures forall n | n in Manifest(specs) :: Place(n) >= from && Written(n)
    decreases |specs|
  {
    if specs != [] {
      var names, rest := NamesOf(OfSpec(specs[0])), specs[1..];
      assert PlacedAt(from + 0, specs[0]);
      forall i | 0 <= i < |rest| ensures PlacedAt(from + 1 + i, rest[i]) {
        assert PlacedAt(from + (i + 1), specs[i + 1]);
      }
      PlacedIsDistinct(rest, from + 1);
      NoDupAppend(names, Manifest(rest));
    }
  }

  lemma WrittenIsTypable(n: string)
    requires Written(n)
    ensures Typable(n)
  {
  }

  /** The shipped manifest is one the results apply to, for any `toLowerCase` that
   * leaves lower-case letters and dashes alone. */
  lemma ShippedManifestQualifies(lower: Lower)
    requires forall n | Written(n) :: lower(n) == n
    ensures Qualifies(SHIPPED, lower)
  {
    ShippedIsPlaced();
    PlacedIsDistinct(SHIPPED, 0);
    forall n | n in Manifest(SHIPPED) ensures lower(n) == n && Typable(n) {
      WrittenIsTypable(n);
    }
  }

  /** In the app as shipped, typing the name or an alias of a command, in any case, runs
   * that command. */
  lemma ShippedCommandsAreNeverShadowed(
    skills: seq<Skill>, prompts: seq<Prompt>, lower: Lower,
    s: Spec, n: string, lead: string, word: string, tail: string)
    requires forall w | Written(w) :: lower(w) == w
    requires s in SHIPPED && n in NamesOf(OfSpec(s)) && Typable(word) && lower(word) == n
    requires Blank(lead) && (tail == "" || JsSpace(tail[0]))
    ensures ParseCommandLine(lead + "/" + word + tail, Menu(SHIPPED, skills, prompts, lower), lower)
            == Some(Parsed(s.name, Trim(tail, JsSpace), OfSpec(s)))
  {
    ShippedManifestQualifies(lower);
    BuiltinsAreNeverShadowed(SHIPPED, skills, prompts, lower, s, n, lead, word, tail);
  }
}
