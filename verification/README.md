# State logic of the assistant, verified

This project models the state logic of the desktop app and proves what it keeps. It has
seven parts, each in its own modules; `dafny verify dfyconfig.toml` checks all of them.

**The goal loop** (`GoalLoop`, `GoalProofs`, `GoalEndings`, `GoalOutcomes`,
`GoalRestarts`, `GoalStore`). A goal is a task the assistant carries on with by itself: a
run ends, a check is asked whether the goal is met, and if it is not, a continuation is
sent. The check is awaited, and meanwhile the user may stop, leave the chat, send
something or start another goal. `GoalLoop` is the state machine over the atomic steps,
cut at the awaits, over a map from chat to goal, the open chat and the checks in flight.
`GoalStore` carries the steps out on mutable fields, patch by patch, and each method is
proved to make exactly one step. `GoalProofs` proves what every interleaving keeps,
`GoalEndings` that the status a goal ends with is true of its history, `GoalOutcomes` what
each step does to the whole state and where every continuation comes from. A check that
comes back re-reads only the status of the goal, so stopping a goal and starting another
in the same chat while the check is in flight lets the old verdict decide the new goal.
The comments of the loop do not mention this. `GoalRestarts` shows it for every state with
such a check, and proves that an old verdict can decide the new goal, at once or in any
later run, if and only if a check of that chat is in flight when the goal is started. The
other results assume that no goal is started then.

**Experiments** (`Experiments`). Switches over a dependency graph, with a recursive
off-cascade, for any registry with unique ids and acyclic requirements; the shipped
registry is shown to be one. The startup migration writes switches without looking at
requirements, so for some registries it can leave one on without what it needs
(`TheFoldCanStrand`); when it does not is proved exactly, and for the shipped registry
it never does.

**The tab strip** (`Shell`, `TabSet`). Tabs, focus, selection and the live chat as a
class with the store's fields, and the restore function for what was persisted. Restore
does not take out repeated entries, so a stored set that names an item twice breaks
"keys are distinct" (`ARepeatIsRestoredTwice`); the restored strip is proved sound
exactly when no two stored tabs that resolve are of one item, and always when the app
itself wrote the set.

**Small refinements** (`Questions`, `MergePatch`, `SurfaceSaves`, `Selection`). The
question queue against one list, the JSON merge patch against RFC 7386, the debounced
surface saves against a write-through store, and the model selection. The merge patch is
documented as "RFC 7386-style": a patch object that lands where the target has no object
is stored as it is, nulls included, where the standard drops them. The project proves
exactly when the two agree.

**Default and favorite models** (`ModelPrefs`). One ordered list per tab, led by the
default; six operations and a normaliser.

**The classify table** (`Classify`, `Csv`, `Sorting`). Corrections, the low-confidence
view, the sort, and the CSV export with a reader for section 2 of RFC 4180.

**Activity rows and the command menu** (`Decisions`, `Commands`, `ShippedCommands`).
Grouping with accumulation in place, and giving out names that shadow nothing;
`ShippedCommands` holds the shipped manifest and shows that the results apply to it.

`Seqs`, `Text` and `JsonValues` hold what these share. Operations that the source does in
place are methods on class fields or loops over locals; each is proved equal to a
specification function, and the results are lemmas about those functions over all inputs
or all runs. I/O is left to parameters: what a check replied, which folder was picked,
which chat was created, whether a close was confirmed. Backend writes are updates of a
map in the order they are issued.

## Model

| member | source | states |
|---|---|---|
| GoalStore.ShownOnce | src/lib/goal.ts:89-93 | the loop that collects the errors of a round keeps each key once, skips the empty key, and finds the same first wall as the whole list for any counters |
| GoalStore.WeighRound | src/lib/goal.ts:86-105 | the loops compute the quiet count, raise each wall of the round by one however often it appeared, and stop with the first wall hit three times, else for two rounds without progress |
| GoalProofs.WeighExtends | src/lib/goal.ts:86-105 | weighing adds exactly this round to the history: quiet is the longest run of continuations at the end with no successful call, each wall is the number of rounds it appeared in, and without a stop reason all limits still hold |
| GoalProofs.QuietRunIsTheLongestSuffix | src/lib/goal.ts:77-85 | the quiet run used above is the longest suffix of rounds from the second on in which no call worked: all of it qualifies, and the round before it does not |
| GoalStore.Store.AfterRun | src/lib/goal.ts:166-185 | a run end stops the goal, leaves it, or launches one check, and changes no other chat |
| GoalStore.Store.CheckReplied | src/lib/goal.ts:185-228 | the code after the await, patch by patch, makes exactly the step that decides the goal |
| GoalStore.Store.Continue | src/lib/goal.ts:204-228 | stalled, out of rounds, or one round more and one send, with the lines and outcomes in this order |
| GoalStore.Store.CheckFailed | src/lib/goal.ts:185-193 | a check that could not run stops whatever goal the chat has then, and says so |
| GoalStore.Store.SendMessage | src/lib/store.ts:3883-3951 | a send is dropped while busy, with no open chat, or spoken with no model; else what an ended goal left behind is cleared, and a chat turn starts only with a chat model |
| GoalStore.Store.StartGoal | src/lib/store.ts:2207-2215 | a start replaces the goal and attempts the opening turn |
| GoalStore.Store.StopGoal | src/lib/store.ts:2216-2223 | stopping ends an active goal, and the run with it when that chat is running |
| GoalStore.Store.StopGenerating | src/lib/store.ts:4214-4223 | stopping the run stops the goal of the open chat |
| GoalProofs.StepKeeps | src/lib/goal.ts:166-228 | every atomic step keeps: one check per chat in flight, captured goals not stale, counters equal to the history, rounds within limits |
| GoalProofs.EveryRunKeepsTheInvariant | src/lib/goal.ts:166-228 | so does every interleaving without a restart under a check |
| GoalProofs.ReachableGoals | src/lib/goal.ts:86-105 | in every reachable state quiet and walls are what the history says, an active goal has quiet below 2 and every wall below 3, its round is within its limit, and a goal marked as checking has a check in flight |
| GoalRestarts.OldVerdictDecidesTheNewGoal | src/lib/goal.ts:194-202 | whenever a check of the chat is in flight at a start, a reply "met" marks the new goal as met, whatever the old goal was |
| GoalRestarts.StartIsSafeExactlyWhenNoCheckIsInFlight | src/lib/goal.ts:185-228 | a check asked before a start can decide the new goal, then or in any later run, if and only if one of that chat is in flight at the start; exactly without one the start keeps the invariant |
| GoalRestarts.RestartLetsAnOldVerdictLand | src/lib/goal.ts:194-202 | such a state is reached: start, run end, stop, start again, and the old reply marks the new goal as met |
| GoalProofs.ContinuationsLandInTheirOwnChat | src/lib/goal.ts:218-228 | a continuation is attempted only for an active goal, raises its round by exactly one within the limit, and goes to the open chat, which is the goal's own; it starts a chat turn exactly when none is running and a chat model is picked |
| GoalProofs.StepSpends | src/lib/goal.ts:217-228 | a step sends at most what it takes from `maxRounds - round`, and only a start makes a goal active |
| GoalProofs.ContinuationsAreBounded | src/lib/goal.ts:166-228 | over any run that does not start the goal again, continuations sent plus rounds left never grow, and a goal that is over neither returns nor sends |
| GoalProofs.AGoalSendsAtMostFourContinuations | src/lib/goal.ts:60-62 | a goal just started causes at most `maxRounds - 1` continuations |
| GoalOutcomes.RunEndDecides | src/lib/goal.ts:167-185 | for each way a run can end: aborted, failed or timed out stops the goal silently; with none given, completed, out of steps or interrupted it is judged, in a chat the user left it stops with one line, with a plan waiting nothing changes, and else one check is launched with this goal and this evidence |
| GoalOutcomes.OtherRunEndsDoNothing | src/lib/goal.ts:167-168 | without an active goal that is not being checked a run end changes nothing |
| GoalOutcomes.UnmetReplyDecides | src/lib/goal.ts:208-227 | an unmet reply in the open chat, decided by the history alone: at a limit the goal stalls, else in round five it is exhausted, else the next round starts; with the exact lines, reports and send, in order, and no other goal touched |
| GoalOutcomes.ReplyEnds | src/lib/goal.ts:199-207 | met ends the goal as met; unmet in a chat the user has left stops it with one line |
| GoalOutcomes.ReplyForAnEndedGoal | src/lib/goal.ts:193-197 | a reply for a goal that is over only clears the mark |
| GoalOutcomes.FailedCheckStops | src/lib/goal.ts:186-191 | a check that could not run stops the goal and says so |
| GoalOutcomes.StallReasonReads | src/lib/goal.ts:94-103 | a wall is named before missing progress, by the first error in its third round, its words cut at 160 characters |
| GoalOutcomes.SendDecides | src/lib/store.ts:3883-3951 | what a send takes, clears and starts, for each model and for spoken turns |
| GoalOutcomes.StartDecides | src/lib/store.ts:2207-2215 | a start leaves a fresh goal of five rounds, on record, and clears no goal but an ended one of the open chat |
| GoalOutcomes.StopDecides | src/lib/store.ts:2216-2223 | a stop ends an active goal and its check mark, and with a run in that chat the goal of the open chat |
| GoalOutcomes.StoppedStaysStopped | src/lib/goal.ts:193-197 | no reply of its check brings a stopped goal back |
| GoalOutcomes.NothingComesFromABrokenRun | src/lib/goal.ts:154-165 | over every run, each weighed round and each continuation goes back to a run end of that chat that did not break off and left nothing to approve, and to an unmet check; a round is weighed on that run's own evidence |
| GoalEndings.StallsExactlyAtALimit | src/lib/goal.ts:77-105 | weighing gives a reason to stop exactly when the round brings the goal to one of the two limits |
| GoalEndings.EndingsAreTrue | src/lib/goal.ts:199-222 | in every reachable state a met goal was judged met, an exhausted one is at its last round, judged unmet and below both limits, and a stalled one had two rounds without progress or one error in three rounds |
| Experiments.Db.SetIn | src-tauri/src/experiments.rs:292-311 | the recursive cascade ends on every acyclic registry, turns off exactly the experiment and its dependants, and changes nothing when it refuses |
| Experiments.CascadeComplete | src-tauri/src/experiments.rs:305-309 | the direct dependants and all of theirs are all the dependants |
| Experiments.DependantsShrink | src-tauri/src/experiments.rs:305-309 | a direct dependant has strictly fewer dependants, the measure by which the cascade ends |
| Experiments.OffTakesExactlyTheDependants | src-tauri/src/experiments.rs:285-311 | turning off always succeeds and leaves on exactly what was on and does not depend on it, directly or through others |
| Experiments.SetAgreesWithList | src-tauri/src/experiments.rs:255-304 | turning on succeeds exactly when the list says `can_turn_on`, the switch is then on, and a refused set changes nothing |
| Experiments.TurnsOnExactlyWhenItsNeedsHold | src-tauri/src/experiments.rs:188-304 | for any registry, turning on succeeds exactly when the experiment exists and each need holds on its own fact, and then writes "on" under its key and nothing else |
| Experiments.RefusalNamesTheFirstUnmetNeed | src-tauri/src/experiments.rs:293-303 | a refusal names an unknown id, or the title and the first need that fails |
| Experiments.CardShows | src-tauri/src/experiments.rs:255-277 | each card shows its own experiment: on or off, every need in order with its own truth, and whether all hold |
| Experiments.StoredChoiceWins | src-tauri/src/experiments.rs:143-159 | a stored "on" or "off", white space aside, wins over the default; without one the default counts; an unknown id is off |
| Experiments.OffWritesOnlyItsSwitches | src-tauri/src/experiments.rs:304-309 | turning off writes "off" for the experiment and its dependants and no other key |
| Experiments.ShippedNeeds | src-tauri/src/experiments.rs:61-134 | when each shipped switch can be turned on, from the facts alone |
| Experiments.SetKeepsClosed | src-tauri/src/experiments.rs:292-311 | a set keeps "an experiment that is on has every experiment it requires on" |
| Experiments.Db.Migrate | src-tauri/src/experiments.rs:320-348 | the fold and the migration write exactly these settings |
| Experiments.MigrationReads | src-tauri/src/experiments.rs:320-348 | the migration switch by switch: which it turns on, which off, and that it leaves every other as it was |
| Experiments.MigrateKeepsClosed | src-tauri/src/experiments.rs:320-348 | the migration keeps "on only with its requirements on" if and only if nothing it turns on lacks a requirement and nothing that stays on needs what it turns off; always so when the registry leaves the migrated switches unrelated |
| Experiments.TheFoldCanStrand | src-tauri/src/experiments.rs:338-348 | a registry and settings where the fold leaves fast-slow on without what it requires |
| Experiments.EveryRunKeepsClosed | src-tauri/src/experiments.rs:288-348 | so does every run of sets, writes to other settings and migrations that fit |
| Experiments.MigrationRunsOnce | src-tauri/src/experiments.rs:320-348 | a migration leaves both markers, and while they stay it is the identity whatever else was written |
| Experiments.MigrationRespectsChoices | src-tauri/src/experiments.rs:316-348 | a choice made for the workspace is kept, and the old verify setting is gone after the fold |
| Experiments.ShippedIsAcyclic | src-tauri/src/experiments.rs:61-134 | the shipped requirements have no cycle |
| Experiments.ShippedRegistryQualifies | src-tauri/src/experiments.rs:61-134 | the shipped registry has unique ids, no cycle, migrated switches that are unrelated, and is closed by default |
| Experiments.ShippedSwitchesStayClosed | src-tauri/src/experiments.rs:61-348 | from defaults, over every run of the shipped switches, migrations and other writes, an experiment that is on has every experiment it requires on |
| Shell.Store.FocusItem | src/lib/store.ts:5288-5308 | opening an item stamps it with its chat, switches to that chat, and replaces the tab of the same key or adds one |
| Shell.Store.CloseItem | src/lib/store.ts:4488-4518 | closing asks about unsaved edits, drops the tab, and moves the focus |
| Shell.Store.DeleteConversation | src/lib/store.ts:3865-3881 | deleting a chat takes its tabs, its place as the live chat and, with its tab gone, the focus |
| Shell.Store.SetActiveConversation | src/lib/store.ts:3553-3579 | a real switch clears focus and selection, a click on the live chat does not |
| Shell.Store.NewConversation | src/lib/store.ts:3746-3753 | a new chat goes first, live and without focus |
| Shell.Store.OpenSession | src/lib/store.ts:4525-4530 | opening a session closes the item pane, then switches |
| Shell.Store.ShowConversation | src/lib/store.ts:4550-4554 | showing the conversation drops focus and selection, and is nothing without a focused item |
| Shell.Store.AttachFolder | src/lib/store.ts:4768-4789 | attaching sets the folder of the live chat and clears the selection, not the focus |
| Shell.Store.DetachFolder | src/lib/store.ts:4803-4821 | detaching clears only a file's selection |
| Shell.StepKeeps | src/lib/store.ts:5277-5308 | every step keeps: distinct keys, stamped tabs, the focused item is an open tab of the live chat, the selection is empty or that tab's |
| Shell.EveryRunKeepsTheStrip | src/lib/store.ts:5277-5308 | so does every run of opens, closes, deletes, switches, new chats, forks and folder changes |
| Shell.CloseFocusesTheNearest | src/lib/store.ts:4503-4515 | closing the focused tab focuses the nearest tab of the same chat to the right, else to the left, and takes only that tab out |
| Shell.CloseOfTheLastShowsTheConversation | src/lib/store.ts:4506-4515 | with no other tab of that chat nothing is focused or selected |
| Shell.CloseTakesOut | src/lib/store.ts:4488-4515 | closing any tab, focused or not, takes exactly it out and forgets the unsaved mark of its file; focus and selection stay unless it had them; a declined close changes nothing |
| Shell.CloseOfNoTabDoesNothing | src/lib/store.ts:4500-4501 | closing a key that no tab has changes nothing |
| Shell.OpeningShowsTheItem | src/lib/store.ts:5288-5306 | opening an item makes its chat live, focuses and selects it, and replaces its tab in place or adds one at the end; without a chat nothing opens |
| Shell.DeleteTakesOut | src/lib/store.ts:3867-3879 | deleting takes out that chat and its tabs, and moves to the first chat left only when it was the live one |
| Shell.SwitchingMovesOnlyTheFocus | src/lib/store.ts:3553-3567 | switching to the live chat changes nothing; to another only focus and selection go; the same for a session and for showing the conversation |
| Shell.NewChatsGoFirst | src/lib/store.ts:3746-3753 | new chats and forks go first, live and without focus |
| Shell.FoldersChangeOneChat | src/lib/store.ts:4768-4819 | attaching and detaching change the folder of the live chat and no other, and clear what they clear |
| Shell.EditsMarkOneFile | src/lib/store.ts:4478-4487 | marking a file's edits touches that mark alone |
| Shell.KeysAndSelections | src/lib/store.ts:5144-5153 | keys are kind and id; files and artifacts can be selected, runs and patches not |
| Shell.OpeningKeepsOneTab | src/lib/store.ts:5296-5303 | opening an open item keeps it at its place and changes no other tab |
| Shell.ItemKeyInjective | src/lib/store.ts:5144-5146 | two items with one key have one kind and one id |
| TabSet.ValidateTabSet | src/lib/store.ts:5176-5250 | the loops over what was stored compute the stored tabs filtered by what resolves |
| TabSet.RestoreKeepsExactlyWhatResolves | src/lib/store.ts:5226-5247 | restore gives exactly the saved tabs whose chat is there and, for files, whose path is inside its folder, for patches, that has a folder; each once and in order; and keeps the saved focus exactly when the first surviving tab of its key belongs to the first conversation |
| TabSet.SavedReads | src/lib/store.ts:5187-5220 | what a stored value says by the names its fields have now and had before: the list, the chat of the whole set, the focus, the sub-view |
| TabSet.ReadsExactlyTheItems | src/lib/store.ts:5214-5268 | the items read are exactly those the entries encode, with their own chat or the set's, in order |
| TabSet.LastPanelReads | src/lib/store.ts:5205-5275 | an old set's last section entry names the sub-view |
| TabSet.SavedPersisted | src/lib/store.ts:5323-5335 | what is persisted reads back as the same tabs, focus and view |
| TabSet.RestoringTwiceIsRestoringOnce | src/lib/store.ts:5176-5250 | restore after persist after restore is restore, from any stored value, the older shapes included |
| TabSet.BootIsSoundExactlyWithoutRepeats | src/lib/store.ts:3443-3475 | the strip set up at start is sound if and only if no two stored tabs that resolve have the same kind and id |
| TabSet.ARepeatIsRestoredTwice | src/lib/store.ts:5205-5243 | one run tab stored twice comes back twice, and the strip is not sound |
| TabSet.RestoringTheShellIsSound | src/lib/store.ts:5310-5335 | what a sound strip persisted restores to a sound strip with the tabs that still resolve |
| Questions.Store.JobEnded | src/lib/store.ts:5588-5597 | the loop over a snapshot of all open questions drops them one by one from the current state |
| Questions.Store.Asked | src/lib/store.ts:5698-5717 | a question goes on an empty card, else to the end of the queue, and nowhere without a turn to show it in |
| Questions.Store.Drop | src/lib/store.ts:5573-5585 | dropping an id takes it out of the queue; when it was on the card the next one comes up, and with none the mark returns to what goes on |
| Questions.DropRefines | src/lib/store.ts:5573-5585 | dropping an id filters one list, with its head on the card |
| Questions.DropEachRefines | src/lib/store.ts:5588-5597 | dropping a job's questions filters that list by their ids |
| Questions.EveryRunRefinesTheList | src/lib/store.ts:5688-5719 | every run of ask, answer, withdraw and job end, with any other writes of the mark between them, is a run of append and filter on one list, and nothing waits behind an empty card |
| Questions.TheMarkListensUnlessOverwritten | src/lib/store.ts:5578-5584 | a mark that listens exactly while a question is open does so after the next step too, exactly unless another writer of the mark says otherwise |
| Questions.TheMarkListensWhileAsked | src/lib/store.ts:5578-5584 | over a run in which nothing else writes the mark, it listens exactly while the list is not empty |
| Questions.TheMarkGoesBack | src/lib/store.ts:6023-6026 | when the last question goes, a listening mark goes back to the running turn, else a reflection, else rest; another mark stays |
| Questions.JobEndRemovesExactlyItsOwn | src/lib/store.ts:5587-5597 | a job's end removes exactly its own questions and keeps the rest in order, if and only if no other job's open question shares an id with them |
| Questions.AnswerTakesTheHead | src/lib/store.ts:2099-2107 | with distinct ids, answering removes the head and nothing else |
| MergePatch.MergePatch | src/lib/store.ts:7219-7240 | the loop over the patch's keys, in any order, computes the merge key by key |
| MergePatch.AgreesWithRfc7386 | src/lib/store.ts:7218-7240 | the result is MergePatch of section 2 of RFC 7386 if and only if no null lies inside a patch object that lands where the target has no object |
| MergePatch.IdempotentExactlyWhenClean | src/lib/store.ts:7219-7240 | merging the same patch again changes nothing under exactly the same condition |
| MergePatch.BuildClearPatch | src/lib/store.ts:4208-4210 | the loop nests the parts of the path around one null |
| MergePatch.ClearRemovesExactlyUnderParents | src/lib/store.ts:4204-4212 | clearing a path removes it if and only if its proper prefixes are all objects; otherwise a null is left there |
| MergePatch.ClearingUnderNothingLeavesANull | src/lib/store.ts:4204-4212 | clearing `a.b` where there is no `a` leaves a null, the standard an empty object, and clearing it again changes the result |
| MergePatch.ClearLeavesTheRest | src/lib/store.ts:4204-4212 | paths neither above nor below keep what they held, and the paths above stay objects |
| MergePatch.ClearRemovesBelow | src/lib/store.ts:4204-4212 | nothing below the cleared path is left |
| SurfaceSaves.Saves.SaveSurfaceState | src/lib/store.ts:7283-7289 | a save cancels the timer of the value it replaces and starts its own |
| SurfaceSaves.Saves.FlushSurfaceState | src/lib/store.ts:7291-7297 | a flush stores what is waiting and cancels its timer |
| SurfaceSaves.Saves.TimerFires | src/lib/store.ts:7287 | a timer that goes off flushes its own surface |
| SurfaceSaves.Saves.FlushAll | src/lib/store.ts:7301-7303 | the loop leaves nothing waiting, no timer, and every value stored |
| SurfaceSaves.FireKeeps | src/lib/store.ts:7287-7297 | a timer that fires stores the last value set, never a stale one |
| SurfaceSaves.SavingOnlyWaits | src/lib/store.ts:7283-7289 | a save writes nothing, keeps what waits for other surfaces, and there is one timer per waiting value |
| SurfaceSaves.FlushingOneLeavesTheOthers | src/lib/store.ts:7291-7297 | a flush stores that surface's value and leaves the others waiting |
| SurfaceSaves.RefinesWriteThrough | src/lib/store.ts:7277-7303 | in every interleaving of saves, timers and flushes, the waiting value, else the stored one, is what a write-through store holds |
| SurfaceSaves.FlushAllStoresTheLast | src/lib/store.ts:7299-7303 | after a flush of all, the store holds the last value set for each surface and nothing waits |
| Selection.ResolvesToTheFirstUsable | src/lib/modelPrefs.ts:148-163 | the chain of fallbacks is the first usable chat model of default, favorites, the marked one, the list |
| Selection.ResolvesToAChatModel | src/lib/modelPrefs.ts:148-163 | a chat model whenever one is listed |
| Selection.ResolvedReads | src/lib/modelPrefs.ts:148-163 | how the model was reached and what was skipped: the usable default with nothing skipped, else the first usable favorite or a fallback with the default skipped |
| Selection.RefreshKeepsTheSelectionListed | src/lib/store.ts:1277-1304 | after a refresh with a model left both ids name listed models, exactly unless the resolved id is empty, which the code takes for none; settled, each moves only when its model is gone; before, both follow the preference |
| Selection.RefreshListsBoth | src/lib/store.ts:1277-1304 | with ids that are not empty, both ids name listed models after every refresh with a model left |
| Selection.AnEmptyIdIsNotSelected | src/lib/store.ts:1291-1296 | the exception: the one model there is has the empty id, and a refresh leaves the selection on a model that is gone |
| Selection.ASettledSelectionStays | src/lib/store.ts:1634-1764 | over any run of refreshes neither id moves, once settled, while its model stays listed |
| Selection.SettleSelects | src/lib/store.ts:1831-1844 | settling first selects the resolved model and leaves sound preferences; settling again moves nothing |
| Selection.RefreshSaysSoOnce | src/lib/store.ts:1297-1302 | the notice is set exactly when a settled selection had to move past a set default not yet spoken of, in these words |
| Selection.SettlingSaysSoOnce | src/lib/store.ts:1836-1843 | settling sets it the first time only, and stores the normal form of the preferences |
| ModelPrefs.MoveFavorite | src/lib/modelPrefs.ts:111-119 | the swap in the copied array is the move, refused at the ends and past a pinned default |
| ModelPrefs.MoveIsAPermutation | src/lib/modelPrefs.ts:111-119 | a move permutes the list and touches nothing else, and the opposite move undoes it |
| ModelPrefs.MoveSwapsNeighbours | src/lib/modelPrefs.ts:109-119 | a move swaps a favorite with its neighbour exactly when both slots exist and neither is the pinned default's |
| ModelPrefs.ReorderIsSoundExactlyWithoutRepeats | src/lib/modelPrefs.ts:122-129 | a dropped order keeps the preferences sound if and only if no favorite besides the pinned default is named twice |
| ModelPrefs.ReorderIsAPermutation | src/lib/modelPrefs.ts:122-129 | with distinct ids reordering permutes the favorites, unknown ids dropped and missing ones kept |
| ModelPrefs.ReorderFollowsTheDrop | src/lib/modelPrefs.ts:121-129 | the default first, then the dragged favorites in the order of the drop, then the rest in theirs |
| ModelPrefs.NormalizePrefs | src/lib/modelPrefs.ts:179-208 | the loop over the tabs computes the normal form |
| ModelPrefs.NormalizeEstablishes | src/lib/modelPrefs.ts:179-208 | from any duplicate-free lists: favorites without repeats, a set default in slot one, no favorite dropped, a set default kept |
| ModelPrefs.NormalizeReads | src/lib/modelPrefs.ts:175-208 | field by field: the marked entry seeds a missing default, each default is brought first, and with no chat favorite the first available chat model becomes one |
| ModelPrefs.NormalizeIsIdempotentExactlyWithoutAClash | src/lib/modelPrefs.ts:179-208 | normalising again changes nothing, if and only if the marked entry and the first usable model do not both have the empty id under different names |
| ModelPrefs.EveryRunKeepsOk | src/lib/modelPrefs.ts:71-129 | every run of preference operations keeps favorites duplicate-free and a set default in slot one |
| ModelPrefs.OpKeepsOk | src/lib/store.ts:1865-1882 | so does each of them, the removal of a model that is not listed included |
| ModelPrefs.DefaultLeads | src/lib/modelPrefs.ts:79-91 | a new default goes first in its tab, the others keep their order, its name is remembered, and a video model is refused |
| ModelPrefs.StarsToggle | src/lib/modelPrefs.ts:93-107 | a star adds at the end and remembers the name, an unstar takes out that one, and the default cannot be unstarred |
| ModelPrefs.UnlistedStarsGo | src/lib/store.ts:1867-1876 | a model that is not listed can be unstarred unless it is a default |
| Classify.CompareIsAnOrder | src/lib/classify.ts:140-148 | the comparator is a strict weak order that tells rows of different index apart, for any total preorder on texts, though keys of a column may be missing |
| Classify.ArrangeIsTheSortedPermutation | src/lib/classify.ts:132-149 | the result is a sorted permutation of the view, and the only one |
| Classify.ArrangedRows | src/lib/classify.ts:129-149 | rows without a key are last in both directions, keys go up or down as asked, ties keep the list order |
| Classify.ArrangedByColumn | src/lib/classify.ts:129-149 | the same column by column: lower-case items and shown answers by the locale, confidences by number |
| Classify.LowCountIsTheSizeOfTheLowView | src/lib/classify.ts:124-137 | the count is the size of the low view, sorted or not |
| Classify.CorrectionNeverRaisesTheCount | src/lib/classify.ts:102-127 | a correction or confirmation lowers the count by one when its row was low and leaves it otherwise |
| Classify.CorrectionFiltersTheLowView | src/lib/classify.ts:102-137 | the low view after a correction is the low view before without that row |
| Classify.ShownReads | src/lib/classify.ts:93-111 | what a row shows untouched, confirmed and corrected, the correction by its label |
| Classify.LabelReads | src/lib/classify.ts:104-106 | the label is that of the first choice of the value |
| Csv.CellReadsBack | src/lib/classify.ts:151-156 | a cell in front of a separator, a line break or the end reads back as its guarded text |
| Csv.RecordReadsBack | src/lib/classify.ts:166-175 | a printed record reads back field by field |
| Csv.FileReadsBack | src/lib/classify.ts:161-177 | a printed file reads back record by record |
| Classify.CsvReadsBack | src/lib/classify.ts:158-177 | a reader for section 2 of RFC 4180 gives one header and one record per row, every field the guarded cell character for character |
| Classify.ExportReads | src/lib/classify.ts:161-177 | the export read back, column by column: names, item, path, shown answer, confidence and status of every row |
| Csv.CellIsQuotedWhenNeeded | src/lib/classify.ts:151-156 | a cell is quoted exactly when it holds a quote, a comma or a line break |
| Csv.GuardReads | src/lib/classify.ts:154 | an apostrophe goes in front of exactly the texts a spreadsheet would run |
| Classify.CsvIsRectangularAndSafe | src/lib/classify.ts:151-177 | all records have the header's width and no field starts with a formula character |
| Sorting.SortedPermutationIsUnique | src/lib/classify.ts:140-148 | any sort by a comparator that tells elements apart returns the same list, so the algorithm does not matter |
| Decisions.RowsOf | src/lib/decisions.ts:175-197 | the loop that fills the map of groups, grows entries in place and raises their time computes the list of rows said group by group |
| Decisions.SlotKeyInjective | src/lib/decisions.ts:183-184 | a group key names one purpose and one hour, whatever the purpose holds |
| Decisions.RowsConserveTheInput | src/lib/decisions.ts:172-197 | each activity entry and each decision is in the rows once, counting repeats |
| Decisions.OneGroupPerPurposeAndHour | src/lib/decisions.ts:182-194 | the background decisions of one purpose and hour are in exactly one row, in input order, and there is no row without any |
| Decisions.GroupRowsAreTrue | src/lib/decisions.ts:182-191 | a group holds exactly the background decisions of its purpose that fall into its hour, in input order, the first one's label and the time of the last |
| Decisions.EntryRowsAreTrue | src/lib/decisions.ts:176-180 | an activity row and a decision row hold an entry of the input, at its own time, under its own key |
| Decisions.RowTimeIsItsLatest | src/lib/decisions.ts:176-191 | a row's time is that of the latest thing it holds |
| Decisions.NewestComesFirst | src/lib/decisions.ts:172-196 | of two rows the earlier holds something at least as new as everything in the later one |
| Decisions.NewestFirst | src/lib/decisions.ts:195-196 | the rows' times descend, and rows of one moment keep the order they were made in |
| Decisions.KeysTellRowsApart | src/lib/decisions.ts:176-191 | with distinct ids no two rows share a key |
| Decisions.ViewsPartitionTheList | src/lib/decisions.ts:199-202 | the activity and the decisions view split the rows; the first holds all activity and no decision, the second the reverse |
| Decisions.ChipsAreTheFiltersThatShowSomething | src/lib/decisions.ts:199-214 | an experiment has a chip exactly when its filter shows a row |
| Decisions.FiltersShow | src/lib/decisions.ts:199-209 | which rows each filter shows |
| Decisions.FirstSeenComesFirst | src/lib/decisions.ts:212-214 | chips and groups come in order of first appearance |
| Commands.CommandViews | src/lib/commands.ts:202-260 | the loops that push views and grow the set of taken names compute the menu |
| Commands.MenuIsInOrder | src/lib/commands.ts:202-230 | the manifest in its order, then skills most used first with ties as they came, then prompts |
| Commands.SkillsInTheMenu | src/lib/commands.ts:208-209 | a skill is in the menu exactly when enabled, open to the user and not named like a built-in |
| Commands.TypedLine | src/lib/commands.ts:334-343 | a typed line is read as its word and its trimmed arguments, and resolves by name before alias |
| Commands.OnlyKnownWordsAreCommands | src/lib/commands.ts:332-343 | nothing but a slash, a typable word that resolves, and blanks before arguments is a command |
| Commands.ResolveReads | src/lib/commands.ts:338-340 | a word names the first view of that name, else the first with that alias |
| Commands.BuiltinsAreNeverShadowed | src/lib/commands.ts:129-137 | typing a built-in's name or alias runs that built-in, whatever the skills and prompts are called |
| ShippedCommands.ShippedManifestQualifies | shared/commands.json:1-567 | the 51 names and aliases of the 48 shipped commands are distinct, in lower case and typable |
| ShippedCommands.ShippedCommandsAreNeverShadowed | src/lib/commands.ts:129-137 | in the app as shipped, typing a name or alias, in any case, runs that command, for any skills and prompts |
| Commands.PromptsResolveToThemselves | src/lib/commands.ts:231-257 | every prompt in the menu has a name that can be typed and resolves to that prompt |
| Commands.OnlyThePromptAnswers | src/lib/commands.ts:231-241 | no other command answers to that name, as name or as alias |
| Commands.PromptIsLeftOutExactlyWhenItsNamesAreTaken | src/lib/commands.ts:235-241 | a prompt gets its own name, else its connector's in front, else none, by what stands in front of it in the menu |
| Commands.CommandNameIsTypable | src/lib/commands.ts:262-265 | a command name is empty or can be typed |
| Commands.CommandNameKeepsLetters | src/lib/commands.ts:262-265 | a prompt's name keeps its letters, digits and underscores in order |
| Commands.TypableNamesStay | src/lib/commands.ts:262-265 | a typable name without dashes at its ends stays as it is, and no name gets one there |
| Commands.WordsAreJoinedByOneDash | src/lib/commands.ts:264 | whatever stands between two words becomes one dash |

## Left out

- GoalProofs.EveryRunKeepsTheInvariant: assumes that no goal is started in a chat whose check is in flight; that this is needed is `GoalRestarts.StartIsSafeExactlyWhenNoCheckIsInFlight`.
- GoalStore.Store.SendMessage: what a send carries and how the model is resolved are left out, and so is a turn's own course; a media job or any other turn that sets busy is a step of its own.
- GoalStore.WeighRound: an error is given as its key and its words; `wallKey` is any function, and an error text that happens to name a member of JavaScript's object prototype is not modelled.
- Goal texts: the opening and continuing turns and `parseGoalArgs` are wording.
- Experiments.Db.SetIn: requires an acyclic registry with unique ids, since the source does not end on a cycle; failing database writes are not modelled.
- Experiments texts, stages and the new-marker: read by the screen only.
- Shell: the folder tree, view, dock and surface fields a switch resets are not part of the strip; project records of a folder are not modelled.
- TabSet.ValidateTabSet: starts from parsed JSON, and a text that does not parse is the same as none; numbers are integers; unknown fields of an item are dropped, where the source carries them along; `isInsideFolder` is any relation.
- TabSet: the 250 ms timer of `persistTabSet` is not modelled; the last state wins.
- Questions: the lead's own question and stream teardown write the card directly and bypass the queue. The other writers of the mark (`sendMessage`, `applyReflecting`, the tidy-up, the end of a turn) are one event that writes any value.
- MergePatch: object keys that JavaScript treats specially (`__proto__`) are ordinary keys here; arrays and numbers are opaque values.
- MergePatch.BuildClearPatch: takes the parts of the path; splitting at the dots is not modelled.
- SurfaceSaves: writes to the backend succeed in the order they are issued; time is any order of timers.
- Selection: the lists a refresh composes are parameters, and the state is a value rather than an object; loading the picked model is not modelled.
- Selection.ResolvesToTheFirstUsable: requires distinct, non-empty model ids, and a chat model; without one the source falls back on the first model.
- ModelPrefs.ReorderIsAPermutation: requires distinct ids; the exact condition for soundness is `ReorderIsSoundExactlyWithoutRepeats`.
- Classify.ArrangeIsTheSortedPermutation: `toLowerCase` and `localeCompare` are any function and any total preorder; JavaScript's sort is an insertion sort here, which uniqueness makes the same.
- Classify.CsvReadsBack: `toFixed(2)` is any function from confidences to texts.
- Reading the classify block from JSON and `nextSort`: one branch per case.
- Decisions.RowsOf: ids, times and the fields the grouping reads; the wording of a decision is not modelled.
- Commands.BuiltinsAreNeverShadowed: requires a manifest of distinct, lower-case, typable names, which `ShippedManifestQualifies` shows of the shipped one; `toLowerCase` is any function that leaves those names as they are.
- Commands: what a command needs to run, its arguments and its ranking are not modelled.
- Components, hooks, routes, the API wrappers, engines, telemetry and the report counts: I/O or user interface.
