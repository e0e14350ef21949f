# Avada verification

A Dafny model of the parts of Avada (a terminal workspace with a control server) that are protocols
or state machines, with proofs over whole runs, every interleaving and every iteration order. Each
file is one module.

| file | what it models |
|---|---|
| Workspace, History, Windows, Reaping, TabDrags, App | tabs and panes of a window, closing and reopening, every outcome of dropping a pane, tear-outs, live tab drags with other edits in between, reaping closed windows |
| Merge, Healing, ControlHost, HostRuns, Adoption | the tick that merges the GUI's panes with the control read-model, pane-id aliases, self-heal, which tab a pane is adopted into |
| UiOps | tab edits queued for the UI thread and held back while the human works |
| ControlMode, ControlLoop | the control-mode transport: snapshot differ, seed and live stream spliced by cursor, parked messages |
| Attention | the per-pane attention flag |
| Winch | the attach client's resize watcher |
| QueueRunner | delivery of filed instructions by renaming |
| WsClient | frame reading of the parity probe's WebSocket client |
| Csv, Duration, ShellQuote | table layout and markdown escaping, the reminder duration parser, argument quoting |
| Text, Wrappers | trimming, splitting, `Option` |

Sessions, panes and pane ids are naturals, a uid and the pane id of a GUI-native pane being the same
number, as they are the same string in the source. Clocks, session liveness, what the pointer is
over, whether a window can be made and what a socket delivers are inputs. Where the source walks a
hash map, the model takes the elements in arbitrary order and the result is proved for all orders.

An object whose methods change it is a class here, its methods proved to take its state to what a
function says; the properties are lemmas about that function.

## What the proofs turned up

Where the code does something other than its comments promise, the model follows the code; a lemma
gives the case, and another says exactly when the promise holds.

- The merge drops a GUI pane exactly when a pane restarted through the control side, not yet taken in,
  carries its id (`Merge.PlainMergeIff`). A pane restarted from both sides between two ticks leaves a
  running session that no window shows and self-heal cannot find (`HostRuns.RestartedFromBothSides`).
- A pane once closed is never resurrected (`HostRuns.NeverResurrected`), but its pane id can be, for
  instance by restarting it between the close and the next tick (`HostRuns.ClosedIdComesBack`);
  `HostRuns.ClosedIdReturnsIff` lists every way.
- Pane ids stay unique through exactly the steps `HostRuns.Careful` describes
  (`HostRuns.SoundIff`); the exception can be reached (`HostRuns.ContestReached`), and then a running
  pane falls off the GUI without any fault (`HostRuns.FallsUnasked`; `HostRuns.FallReachable` is a run
  from the first launch), because the snapshot looks panes up by id. Apart from giving way to a session
  restarted under its id, a pane falls off exactly when another of the GUI had its id at the tick before
  (`HostRuns.FallsAtNextTickIff`); such a session can be taken in a second time
  (`HostRuns.AstrayTakenAgain`), which else never happens (`HostRuns.TakenInOnce`).
- A pane restarted from the GUI keeps its id exactly when it had an alias
  (`HostRuns.GuiRebindKeepsIff`).
- When the human has spread a group of panes over several tabs, the tab a new pane of the group joins
  depends on hash order (`Adoption.SplitEitherWay`), as do the numbers of new tabs
  (`Adoption.NewTabsEitherWay`); which panes share a tab otherwise does not (`Adoption.GroupsJoined`,
  `Adoption.GroupsApart`, `Adoption.PositionsKept`).
- A tab drag goes on with another tab than the one grabbed when a tab left of it goes meanwhile
  (`TabDrags.WrongTabDragged`); `TabDrags.GestureOnTrackIff` says exactly when it does not.
- In `resolve_adopt_tab` the tab made earlier in the tick never decides: a pane is already on it, so
  the sibling rule has answered (`Adoption.Window.ResolveAdoptTab`).
- An operation held back for the human is dropped exactly when the queue has filled up meanwhile
  (`UiOps.HeldNotDroppedIff`), and one that came in meanwhile goes before it
  (`UiOps.NewcomersOvertake`).
- A pane dropped on the chip of its own tab, when it is all that tab holds, lands in the neighbouring
  tab; every other chip drop lands where it is aimed (`Windows.ChipDock`). A drop on a window that is
  gone, or on the desktop when no window can be made, leaves the session running with no window
  (`Windows.DropConserves`).
- A resize is lost exactly when the watcher was stuck, at the start because the terminal changed before
  the handler was in, or after a failed size query, and no further resize came
  (`Winch.ResizeLostIff`; `Winch.LostByFailedRead` is a run).
- A turn that ended before the pane was known lights its flag when an even older end was reported
  first (`Attention.OldStopCountsExactly`, `Attention.OldStopCanLight`).
- A restored pane nobody touches does glow once a second burst of output has gone quiet
  (`Attention.SecondBurstLights`), and only then (`Attention.RestartLightsIff`).
- A file is delivered twice exactly when a submit that was taken was reported as refused and it was
  taken again (`QueueRunner.TwiceIffMisreported`, `QueueRunner.MisreportDeliversTwice`).
- A live chunk that overtakes its seed is written twice (`ControlMode.OnceIffSeedFirst`).
- `71582789h` is read as 44 minutes, because the hours product wraps (`Duration.HoursWrap`;
  `Duration.HoursHonest` says when it does no harm). This is the release build; a debug build stops
  with an overflow at line 1081 of `contextmenu.rs` instead.

## Model

| member | source | states |
|---|---|---|
| Merge.ThreeWay | rs/crates/app/src/control_host.rs:949-1041 | with G, M, P the GUI's, the model's and the last published uids: the tick ends with (G∩M) ∪ (M\P) ∪ ((G\P)\D), where D are the GUI panes that gave way to a new session under their id, and D never touches M |
| Merge.DropsIff | rs/crates/app/src/control_host.rs:991-1041 | a tick takes a pane off the GUI exactly when it gave way, or was published and a lookup by its id finds it no longer |
| Merge.PlainMergeIff | rs/crates/app/src/control_host.rs:991-1041 | the result is the plain three-way merge exactly when no unpublished GUI pane carries the id of a new session |
| Merge.IdsKept | rs/crates/app/src/control_host.rs:963-1018 | despite aliases being recorded and pruned in the same pass, a pane that stays keeps its effective id, and one that comes has the model's |
| Merge.TickAgrees | rs/crates/app/src/control_host.rs:709-778 | after a tick GUI and model hold the same panes under the same ids, each id once |
| Merge.TickAgain | rs/crates/app/src/control_host.rs:709-778 | a second tick with nothing in between changes nothing |
| Merge.RestartKeepsPane | rs/crates/app/src/control_host.rs:1103-1137 | after `restartPane` the new session, and it alone, displaces the old one and has its id, for aliased and native panes |
| Merge.AdoptStep | rs/crates/app/src/control_host.rs:1000-1018 | one new uid whose id no pane has is added and nobody gives way, whatever was looked at before it |
| Merge.RebindStep | rs/crates/app/src/control_host.rs:1000-1009 | one new uid whose id a pane has replaces exactly the session found, which was there before the tick; for each id taken one pane and no more gives way |
| Merge.OneMerge | rs/crates/app/src/control_host.rs:949-1041 | where the sides agree, hash order and tab order decide nothing: the tick can come to one thing only |
| Healing.HealTidy | rs/crates/app/src/control_host.rs:1720-1742 | putting lost sessions back, even several under one id, keeps every pane id in the model finding one pane |
| Healing.HealedIsAdopted | rs/crates/app/src/control_host.rs:820-899 | a session put back and found by its id is on the GUI under that id by the end of the same tick |
| Healing.PutBackIff | rs/crates/app/src/control_host.rs:820-899 | a tick puts a session in the model exactly when there is a window and the session runs, has a minted id that nothing in the tree carries, is neither shown nor put by nor itself in the tree, and was first found so at least 2000 ms ago; of several under one id one is found |
| Healing.ClockRuns | rs/crates/app/src/control_host.rs:834-853 | the clock of such a session runs from the first tick that found it so and stops when it is put back or found |
| Healing.HealsIff | rs/crates/app/src/control_host.rs:836-899 | healing is reported exactly when it changed something |
| ControlHost.ControlHost.LostControlPanes | rs/crates/app/src/control_host.rs:1720-1742 | in any order of the alias map, finds exactly the live aliased sessions that neither side knows, by uid or by id |
| ControlHost.ControlHost.HealLostPanes | rs/crates/app/src/control_host.rs:820-899 | re-inserts exactly the sessions lost for the debounce, the first of those under one id being the one found; keeps the clock of the others and forgets those no longer lost |
| ControlHost.ControlHost.SnapshotModel | rs/crates/app/src/control_host.rs:906-930 | of the panes in the tree, those that a lookup by their id finds, and no others |
| ControlHost.ControlHost.GuiUidForPaneId | rs/crates/app/src/control_host.rs:1703-1718 | finds a pane with that effective id whenever there is one |
| ControlHost.ControlHost.TakeInNew | rs/crates/app/src/control_host.rs:991-1018 | whatever order the new uids come in and whatever ids the GUI's panes share, rebinding and adopting them ends in the GUI and aliases that the merge gives for the panes found, every staying pane in its place and every successor in its predecessor's |
| ControlHost.ControlHost.Reconcile | rs/crates/app/src/control_host.rs:949-1103 | from any state the whole reconcile in place is the merge, one pane giving way for each id taken, successors in their predecessors' places; says exactly whether a pane came or the model dropped one, and writes the aliases out where that or their number changed |
| ControlHost.ControlHost.Publish | rs/crates/app/src/control_host.rs:1376-1533 | the tree becomes the GUI's panes under their effective ids, plus the running panes never published, one for each id not in it yet; a change is reported exactly when the set of panes or an active tab changed |
| ControlHost.RepublishKeeps | rs/crates/core/src/control/readmodel.rs:301-347 | a republish has every pane of the GUI under its id and loses no id of a running pane never published; whatever else it keeps is such a pane, under an id no other pane has |
| ControlHost.NothingCarried | rs/crates/core/src/control/readmodel.rs:301-347 | after a reconcile under the same lock nothing is left to carry over, if whatever in the tree was never published is new or shares its id with what is |
| ControlHost.KeptCarriesNone | rs/crates/core/src/control/readmodel.rs:301-347 | which holds at every tick from a state a run can be in, healed sessions included |
| ControlHost.ChangedIff | rs/crates/app/src/control_host.rs:1520-1527 | comparing sizes and looking for a new uid is comparing the sets |
| ControlHost.ToldIff | rs/crates/app/src/control_host.rs:709-778 | clients are told exactly when something was healed, a pane came in from the control side, one was closed there, the GUI shows other panes than last published, or an active tab changed |
| ControlHost.ControlHost.Sync | rs/crates/app/src/control_host.rs:709-778 | a tick is heal, then merge, from any state: the GUI, the aliases and the debounce end as those functions say, panes in place, and so does the read-model from any state a run can be in; clients are told exactly when something was healed, the panes changed on either side or an active tab did |
| HostRuns.NextBasic | rs/crates/app/src/control_host.rs:709-778 | in every run, careful or not, faults and shared ids included: the read-model finds each id once and names shown panes as the host does, what a pane of the GUI shares with it was published, what was published is in the tree until it dies, what is under debounce was lost all that time |
| HostRuns.TickHost | rs/crates/app/src/control_host.rs:709-778 | the host's tick in place is the run's: from any state a run can be in it is a legal tick and ends as the run says |
| HostRuns.TickPossible | rs/crates/app/src/control_host.rs:709-778 | every tick can come to something |
| HostRuns.SoundTick | rs/crates/app/src/control_host.rs:709-778 | from a sound state a tick can come to one thing only |
| HostRuns.SoundIff | rs/crates/app/src/control_host.rs:949-1103 | ids stay apart through a step exactly when the step is careful: a tick with no unpublished session under the id of a running one off the layout, a reopening whose id is free |
| HostRuns.IdsStable | rs/crates/app/src/control_host.rs:709-778 | over every careful run of dispatches, GUI edits, deaths and ticks the effective ids of the GUI's panes are injective and equal the model's |
| HostRuns.EmptyStarts | rs/crates/app/src/control_host.rs:211-248 | the runs start somewhere: a first launch is sound |
| HostRuns.RelaunchStarts | rs/crates/app/src/control_host.rs:1087-1099 | a relaunch with surviving sessions and persisted aliases, no pane back yet, is sound where no two survivors share an alias |
| HostRuns.AliasesWritten | rs/crates/app/src/control_host.rs:1099-1102 | writing aliases out only when the panes or the number of aliases changed misses no change |
| HostRuns.StepKeepsId | rs/crates/app/src/control_host.rs:277-292 | in every run no step of any kind changes the id of a pane that stays |
| HostRuns.GuiRebindKeepsIff | rs/crates/app/src/control_host.rs:270-292 | a session replaced by the GUI keeps the pane's id exactly when the pane was aliased |
| HostRuns.LivingReopensFree | rs/crates/app/src/control_host.rs:1090-1099 | a parked session that still runs reopens without colliding |
| HostRuns.HealedWasLost | rs/crates/app/src/control_host.rs:820-899 | a session put back was lost at every tick for at least two seconds, and is adopted in the same tick under its id |
| HostRuns.FallsIff | rs/crates/app/src/control_host.rs:991-1041 | a session running on the GUI falls off it in a step, unclosed, exactly by a fault, or at a tick because its id finds another pane or it gives way to a session restarted under its id |
| HostRuns.ShadowedIff | rs/crates/core/src/control/readmodel.rs:446-460 | a tick leaves a pane's id finding another exactly where another pane of the GUI carries it, and leaves none so exactly where the GUI's ids are unique |
| HostRuns.FallsAtNextTickIff | rs/crates/app/src/control_host.rs:906-1041 | over any run from one tick to the next: a pane on the GUI and running falls off at the second exactly when at the first another pane of the GUI had its id and was the one found, or it now gives way |
| HostRuns.TakenInOnce | rs/crates/app/src/control_host.rs:991-1018 | a dispatched session is taken in by exactly one tick if the model holds it until one, else by none, in every run in which no fault befalls it and no tick finds another by its id, whatever befalls other sessions |
| HostRuns.CarefulSpares | rs/crates/app/src/control_host.rs:949-1041 | a careful run from a sound state is such a run for every session no fault befalls |
| HostRuns.SeenNeverTaken | rs/crates/app/src/control_host.rs:992-996 | in such a run a session once seen, and not astray, is never taken in again |
| HostRuns.TrackedStaysIff | rs/crates/app/src/control_host.rs:809-819 | a running session with a pane id stays on the GUI, put by, or about to be taken in through a step, exactly unless a fault takes it off or a tick finds another by its id, it does not give way there and its alias outlives it |
| HostRuns.AstrayTakenAgain | rs/crates/app/src/control_host.rs:820-899 | a session astray whose id is free is taken in again by the second of two ticks the debounce apart |
| HostRuns.TrackedNotTaken | rs/crates/app/src/control_host.rs:1720-1742 | no tick takes in a session that is not astray and not new, so self-heal leaves it alone |
| HostRuns.NeverResurrected | rs/crates/app/src/control_host.rs:992-996 | in every run, faults and shared ids included, a pane once closed stays off the GUI until it is reopened |
| HostRuns.ClosedIdReturnsIff | rs/crates/app/src/control_host.rs:949-1103 | over any careful run the id of a closed pane is carried again exactly if a parked pane with it is reopened, or the run ticks and a dispatch with it was waiting or the model's entry with it is restarted before the first tick |
| HostRuns.ComesBackIff | rs/crates/app/src/control_host.rs:991-1018 | in one step a gone id comes back exactly by a tick taking in a dispatch that carries it or by such a reopening, and else stays gone |
| HostRuns.TickBringsIff | rs/crates/app/src/control_host.rs:991-1018 | a tick brings an id no pane carries onto the GUI exactly when a session it takes in has it in the model |
| HostRuns.ClosedIdComesBack | rs/crates/app/src/control_host.rs:997-1018 | so restarting a just-closed pane before the tick brings its pane id back on a new session |
| HostRuns.RestartedFromBothSides | rs/crates/app/src/control_host.rs:1103-1137 | a pane restarted from both sides keeps the control side's session, and the GUI's runs on unfindable |
| HostRuns.ContestReached | rs/crates/app/src/control_host.rs:997-1018 | three edits between two ticks reach the contested state |
| HostRuns.TwoUnderOneId | rs/crates/app/src/control_host.rs:997-1018 | and a tick and a reopening later two running panes of the GUI have one id |
| HostRuns.FallsUnasked | rs/crates/app/src/control_host.rs:906-1041 | and two ticks later one of the two has fallen off, running, seen and astray, with no fault anywhere |
| HostRuns.FallReachable | rs/crates/app/src/control_host.rs:906-1041 | a legal run from the first launch, without a fault, whose last tick does so |
| Adoption.Window.ResolveAdoptTab | rs/crates/app/src/control_host.rs:1622-1657 | the tab of some hosted sibling if there is one, else a live position, else a new tab; a tab made this tick decides nothing of its own |
| Adoption.Window.AdoptAll | rs/crates/app/src/control_host.rs:1535-1612 | in any order all new panes are adopted as the order says, hosted ones do not move, and the outcome is settled: groups that were together stay together, each pane of a hosted group joins one of its tabs, a new group gets a tab of its own, a group at a live position goes there, and one whose position is gone goes to a tab that was not there, all of it to the same |
| Adoption.GroupsApart | rs/crates/app/src/control_host.rs:1584-1605 | panes of new groups share a tab exactly when the model groups them, and never one that was there |
| Adoption.GroupsJoined | rs/crates/app/src/control_host.rs:1632-1639 | a pane adopted into a group on one tab is on that tab; into a group the human has split, on one of its tabs |
| Adoption.SplitEitherWay | rs/crates/app/src/control_host.rs:1632-1639 | a new pane of a hosted group ends on a given tab under some hash order if and only if that tab hosts one of the group |
| Adoption.NewTabsEitherWay | rs/crates/app/src/control_host.rs:1584-1605 | the numbers of two new groups' tabs are the other way round under the other hash order |
| Adoption.PositionsKept | rs/crates/app/src/control_host.rs:1645-1650 | a pane of a group no tab hosts, put at a live position, goes there in every order |
| Adoption.StalePositions | rs/crates/app/src/control_host.rs:1645-1654 | a pane of a group no tab hosts, put at a position that is gone, never lands on a tab that was there, and its group shares the tab it lands on |
| Workspace.DetachUidOwns | rs/crates/app/src/state.rs:3457-3475 | detaching takes out exactly that session, or says it is nowhere, and leaves a well-formed window |
| Workspace.TakePaneOwns | rs/crates/app/src/state.rs:2881-2940 | taking a pane out removes it once and nothing else, dropped tab or not |
| Workspace.TakePaneOut | rs/crates/app/src/state.rs:2881-2940 | exactly that pane is gone; a tab it leaves empty goes too unless app-owned or the last; the tab looked at and the pane focused stay so, or their right neighbour takes over, or the last |
| Workspace.HostInOwns | rs/crates/app/src/state.rs:3074-3081 | hosting adds the session once |
| Workspace.PaneTakesTile | rs/crates/app/src/drag/mod.rs:158-164 | whatever tile is pointed at, the pane takes it, and pointing again does nothing |
| Workspace.ReorderTabTracks | rs/crates/app/src/state.rs:3580-3632 | a tab move permutes the strip, reports where the tab really is, keeps the same tab active and the app-owned tab first |
| Workspace.ReorderTabLands | rs/crates/app/src/state.rs:3580-3620 | a moved tab lands just before the tab that stood at the slot aimed at, or last, or right behind the app-owned tab; the others keep their order; the app-owned tab and a slot past the end move nothing |
| Workspace.AdoptSystemTabKeeps | rs/crates/app/src/state.rs:9120-9140 | re-homing leaves one app-owned tab, first, and the same tab active |
| Workspace.AdoptSystemTabShows | rs/crates/app/src/state.rs:9120-9140 | the re-homed tab's panes stay together on a tab, and no tab that was there changes |
| Workspace.MoveBetweenTabsOwns | rs/crates/app/src/state.rs:8746-8817 | a move between tabs keeps every session, adding a shell exactly when it leaves the app-owned tab empty |
| Workspace.MoveBetweenTabsLands | rs/crates/app/src/state.rs:8787-8817 | the pane ends at the slot asked for of the target tab, wherever that tab now stands |
| Windows.DropConserves | rs/crates/app/src/app.rs:4207-4375 | on every drop outcome each session is held exactly as often as before, but for the pane itself when its target is gone or no window can be made, and a shell that refills the app-owned tab |
| Windows.HostLands | rs/crates/app/src/app.rs:4328-4355 | a pane handed over is shown and focused at its slot of the tab pointed at; the rest of that tab and every other is untouched |
| Windows.DropAcross | rs/crates/app/src/app.rs:4229-4355 | told from what it is let go over alone: dropped over another window a pane goes to the end of the tab whose chip is pointed at, to a new last tab beside the chips, to the hovered slot of the tab looked at, or to the tab and slot of the workspace tree; the window shows it and nothing else of it changes |
| Windows.DropTears | rs/crates/app/src/app.rs:4356-4371 | dropped on the desktop it is all that a new window shows |
| Windows.DropOwn | rs/crates/app/src/app.rs:4229-4327 | dropped in its own window it goes by the rule of the surface pointed at, and no other window changes |
| Windows.BesideChips | rs/crates/app/src/app.rs:4286-4292 | beside the chips of its own window a pane gets a tab of its own, last and shown, and leaves an emptied tab gone |
| Windows.TreeDrop | rs/crates/app/src/app.rs:4242-4253 | in the tree of its own window it moves to the slot aimed at, or into the other tab at that slot |
| Windows.ChipDock | rs/crates/app/src/app.rs:4275-4285 | a chip drop lands in the tab pointed at unless that is the pane's own, which it fills alone: then the tab goes and the pane joins its neighbour |
| Windows.TileDrop | rs/crates/app/src/app.rs:4293-4325 | on its own tab a pane takes the very tile pointed at; from another tab it is inserted at the hovered slot |
| Windows.DropLeavesOthers | rs/crates/app/src/app.rs:4207-4375 | no window but source and target changes |
| Windows.SourceClosesIff | rs/crates/app/src/app.rs:4258-4268 | leaving for another window closes the window left exactly when its only pane went |
| Windows.TabHit | rs/crates/app/src/app.rs:4099-4114 | the slot follows the last centre at or left of the cursor; the chip is the last one under it |
| Windows.HitOnOrdered | rs/crates/app/src/app.rs:4094-4114 | on an ordered strip the slot is the number of centres passed and a hit chip i has slot i or i+1 |
| Reaping.ReapConserves | rs/crates/app/src/app.rs:2299-2343 | each session is held as often as before, less its kills |
| Reaping.KillsExactly | rs/crates/app/src/app.rs:2321-2335 | a session is killed if and only if a closing window holds it beyond the app-owned tab a survivor took |
| Reaping.ReapRehomes | rs/crates/app/src/app.rs:2302-2315 | every closing window's app-owned tab lives on whole in the first survivor, which still shows the same tab; later survivors are untouched |
| Reaping.RehomeOwns | rs/crates/app/src/app.rs:2307-2315 | re-homing any number of tabs in turn loses no session and keeps one app-owned tab |
| Reaping.ReapLeavesOpen | rs/crates/app/src/app.rs:2302-2336 | exactly the windows that did not ask to close are left, in order |
| App.AlwaysInOnePlace | rs/crates/app/src/app.rs:4203-4375 | over any run of drops, tear-outs, drags, opens, closes, reopenings, reminders, quits and reaps in which no uid is given twice, every session ever started is held once by one window, or was killed once, or is one of the lost |
| App.NothingLost | rs/crates/app/src/app.rs:4203-4206 | a run loses a session if and only if some step drops a pane on a window that is gone, or moves a pane or a tab with panes, drops a pane on the desktop or opens a window where none can be made |
| App.StepKeeps | rs/crates/app/src/app.rs:4207-4375 | each step keeps that count for each session |
| App.PaneOutKeeps | rs/crates/app/src/command.rs:1121-1128 | moving the focused pane to a new window keeps every session, refilling the app-owned tab |
| App.TabOutKeeps | rs/crates/app/src/command.rs:1100-1104 | moving a tab to a new window keeps every session |
| App.PaneOutLands | rs/crates/app/src/app.rs:1931-1936 | the pane is all the new window shows, and the window it left closes exactly when it was its only one |
| App.TabOutLands | rs/crates/app/src/state.rs:9092-9102 | the tab is all the new window shows, as an ordinary one; the window it left keeps the rest in order, stays open and keeps showing its tab |
| App.EditTouchesOwn | rs/crates/app/src/command.rs:628-672 | an edit leaves its own window as the edit says, every other as it was, and closes its own exactly when that says so |
| App.WindowOpens | rs/crates/app/src/app.rs:1760-1791 | a new window is the last and shows just its shell, which is lost where none can be made |
| App.QuitCloses | rs/crates/app/src/app.rs:1921 | quitting marks the window of that number and no other |
| History.EditKeeps | rs/crates/app/src/state.rs:2843-2862 | opening, closing, parking, reopening, discarding and reminding keep every session or kill it, and keep the window well formed |
| History.OpensLast | rs/crates/app/src/state.rs:2843-2859 | a new pane is last in the tab looked at and focused; a new tab is last, looked at, and shows just its pane |
| History.CloseTakesOut | rs/crates/app/src/state.rs:2983-3004 | a close takes exactly that pane out and makes it the newest of at most 20 entries; the only pane of a window is killed instead |
| History.EndTakesOut | rs/crates/app/src/state.rs:2946-2971 | an end takes exactly that pane out, kills it and touches no history; says whether the window has panes left |
| History.TabTakenOut | rs/crates/app/src/state.rs:9192-9204 | a closed tab becomes the newest entry, whole, another tab looked at staying so; the app-owned tab and the last one stay |
| History.ReopensThere | rs/crates/app/src/state.rs:10517-10582 | any entry reopened leaves the history: a pane comes last in the tab looked at, focused; a tab comes last, is looked at and keeps its panes in order and its focus |
| History.DiscardKills | rs/crates/app/src/state.rs:10588-10597 | discarding an entry kills its sessions, no other, and changes no tab |
| History.RemindTakesOut | rs/crates/app/src/state.rs:10270-10296 | a reminder takes exactly that pane out and keeps it, unless it is the last of the app-owned tab or of the window |
| History.RestoresHere | rs/crates/app/src/state.rs:10347-10354 | a due pane comes back last and focused in the tab looked at |
| History.StaleDoesNothing | rs/crates/app/src/state.rs:10526-10530 | an edit that names what is no longer there does nothing |
| History.CloseReopens | rs/crates/app/src/state.rs:2974-3004 | a closed pane is the newest history entry, and reopening it puts it back on the tab looked at |
| History.CloseKillsIff | rs/crates/app/src/state.rs:8890-8907 | a parked close kills exactly the oldest entry of a full history, and the history keeps to its cap |
| App.EditWorldKeeps | rs/crates/app/src/command.rs:628-672 | such an edit of any window keeps the count of every session |
| TabDrags.LiveDragTracks | rs/crates/app/src/app.rs:3917-3937 | through any sweep of a live tab drag, nothing else going on, the tracked index names the tab grabbed, the strip is a permutation, the active tab and the first app-owned tab stay |
| TabDrags.IndexStaysIff | rs/crates/app/src/app.rs:2132-2261 | through an exit, an edit or a move between two ticks the index goes on naming the held tab exactly when no tab before it is dropped and none is moved past it |
| TabDrags.GestureOnTrackIff | rs/crates/app/src/app.rs:3917-3937 | over a whole gesture of ticks and whatever goes on between them the index names the tab grabbed throughout exactly when each of those steps leaves that tab where it is |
| TabDrags.TabStands | rs/crates/app/src/state.rs:2881-2940 | where the held tab stands after each such step, well formed and its sessions held once |
| TabDrags.WrongTabDragged | rs/crates/app/src/app.rs:3917-3937 | three tabs, the middle one held: the first tab's pane exits and the next tick drags the last tab |
| App.App.DropPane | rs/crates/app/src/app.rs:4207-4375 | the drop done step by step is the specified drop, so on every surface the pane lands as the lemmas on drops say |
| App.App.DropOnStrip | rs/crates/app/src/app.rs:4275-4292 | switching first, then detaching, then adopting is the specified docking |
| App.App.HandOver | rs/crates/app/src/app.rs:4328-4355 | detaching before looking for the target is the specified hand-over, and says when the pane was dropped nowhere |
| App.App.MovePaneToNewWindow | rs/crates/app/src/app.rs:1931-1936 | done in place as specified |
| App.App.MoveTabToNewWindow | rs/crates/app/src/app.rs:1945-1950 | done in place as specified |
| App.App.PumpTab | rs/crates/app/src/app.rs:3917-3937 | one tick of a tab drag, the index following to where the tab landed |
| App.App.Reap | rs/crates/app/src/app.rs:2299-2343 | partition, re-homing and kill loops do the specified reap, kills in order |
| App.App.EditPanes | rs/crates/app/src/command.rs:628-672 | an edit of one window's panes, its kills in order, as specified |
| App.App.ReleaseTab | rs/crates/app/src/app.rs:4215-4222 | the release of a tab drag moves the tab once more and ends the drag |
| App.App.OpenWindow | rs/crates/app/src/app.rs:1760-1791 | a new window over a new shell, which is lost where the window cannot be made |
| App.App.Handle | rs/crates/app/src/app.rs:1902-1950 | every kind of event done in place is its specified step |
| App.App.RunAll | rs/crates/app/src/app.rs:4203-4375 | the application run from its start over any events ends as specified, with every session in exactly one place |
| UiOps.OpQueue.ApplyUiOps | rs/crates/app/src/control_host.rs:1151-1359 | every accepted request is waiting, applied or dropped, exactly once; each drained one is applied exactly when it was free, in order, and the held go back behind newcomers |
| UiOps.OpQueue.Push | rs/crates/core/src/control/uiops.rs:156-163 | queues at the back or refuses when full |
| UiOps.HeldNotDroppedIff | rs/crates/core/src/control/uiops.rs:144-168 | a tick drops a held request exactly when the newcomers leave no room, and otherwise accounts for each once |
| UiOps.FateIsOwn | rs/crates/app/src/control_host.rs:1164-1167 | each drained request is applied exactly when it was free at its turn, and waits on or is dropped exactly when it was held, whatever the others were; both kinds keep the queue's order |
| UiOps.BusyTick | rs/crates/app/src/control_host.rs:1876-1895 | while the human is active a drained operation is applied exactly when it neither moves the focus nor touches a tab some window shows |
| UiOps.HeldTogetherKeepOrder | rs/crates/app/src/control_host.rs:1351-1357 | over any number of ticks two requests waiting together before and after stand in the same order |
| UiOps.OpQueue.WaitingApart | rs/crates/core/src/control/uiops.rs:156-168 | no request ever waits twice |
| UiOps.NewcomersOvertake | rs/crates/app/src/control_host.rs:1351-1357 | a request that comes in while another is held goes before it |
| UiOps.IdleTickEmpties | rs/crates/app/src/control_host.rs:1876-1879 | with the human idle a tick applies all it drained, in order |
| UiOps.OtherTabsCarryOn | rs/crates/app/src/control_host.rs:1876-1895 | an operation waits if and only if the human is active and it moves the focus or touches a tab some window shows |
| ControlMode.DiffFollowsSnapshot | rs/crates/app/src/control_mode_cli.rs:493-535 | after a snapshot the published panes, the record and the listed uids are one set; each new pane is attached once; a client replaying the notifications shows those panes at those sizes |
| ControlMode.SnapshotSizes | rs/crates/core/src/session/control_mode.rs:344-352 | a client that read the notifications of a snapshot shows a listed pane at its columns by its rows, a new one of unknown grid at 80 by 24, and none at less than 1 |
| ControlMode.SizesShown | rs/crates/core/src/session/control_mode.rs:344-352 | and so after any messages it shows every published pane |
| ControlMode.NewPaneAnnounced | rs/crates/core/src/session/control_mode.rs:344-352 | a new pane is announced, and then its size, columns first |
| ControlMode.DiffAgainIsSilent | rs/crates/app/src/control_mode_cli.rs:493-535 | the same snapshot again changes and says nothing |
| ControlMode.ClientInStep | rs/crates/app/src/control_mode_cli.rs:350-438 | after any messages a client that read the stream shows exactly the published panes |
| ControlMode.CommandsAnswered | rs/crates/app/src/control_mode_cli.rs:354-366 | in any run of messages every client command is answered in full and in order, and nothing else is |
| ControlMode.Spliced | rs/crates/app/src/control_mode_cli.rs:389-418 | for any place of the seed in the live stream, what is written: early chunks, seed, and the chunks past the cursor |
| ControlMode.ExactlyOnce | rs/crates/app/src/control_mode_cli.rs:389-418 | seeded before its live chunks a pane, published whenever they arrive, from the start or by a later snapshot, is written its seed and then precisely the log after the seed, in order |
| ControlMode.ExactlyOnceSoFar | rs/crates/app/src/control_mode_cli.rs:389-418 | the same of any beginning of the stream, and of a pane that is closed before the stream ends: what came while it was published is written just so, and nothing else |
| ControlMode.ShownIs | rs/crates/app/src/control_mode_cli.rs:493-535 | a pane is published after any messages exactly as the last snapshot or exit says |
| ControlMode.OnceIffSeedFirst | rs/crates/core/src/session/daemon.rs:1237-1266 | for a stream that starts inside the seed, that holds exactly when no live chunk overtakes the seed |
| ControlMode.UncountedOnceIffNoOverlap | rs/crates/app/src/control_mode_cli.rs:409-418 | without cursors it holds exactly when the stream starts where the seed ended |
| ControlLoop.ErasesKeepsWire | rs/crates/app/src/control_mode_cli.rs:446-484 | dropping screens from the backlog loses nothing of any pane's stream, nor of when the pane is published |
| ControlLoop.Transport.DiffSessions | rs/crates/app/src/control_mode_cli.rs:493-535 | the differ in place is the specified one |
| ControlLoop.Transport.RefreshScreens | rs/crates/app/src/control_mode_cli.rs:453-484 | a wait takes exactly the arrivals `InWait` says, sets the mirrors among them, parks the others in order and leaves the rest |
| ControlLoop.WaitIs | rs/crates/app/src/control_mode_cli.rs:461-483 | those are everything up to the last screen asked for, or to the moment the time is up, or to the end of the channel, and not one more |
| ControlLoop.MirroredIs | rs/crates/app/src/control_mode_cli.rs:468-476 | after a wait a pane's mirror is the last that came for it, or else as it was |
| ControlLoop.Transport.Handle | rs/crates/app/src/control_mode_cli.rs:350-438 | one message's effect on panes, cursors and stream, and whether its lines got out |
| ControlLoop.Transport.Run | rs/crates/app/src/control_mode_cli.rs:333-444 | apart from screens taken in a wait, messages are handled once each in arrival order until, and not beyond, the daemon or the client goes, a command detaches, a poll cannot be sent, a line does not get out or the channel ends; a failed poll passes unnoticed only in a wait, one for each at most; what is written is their lines and the goodbye, as far as it gets out |
| ControlLoop.RunWritesOnce | rs/crates/app/src/control_mode_cli.rs:333-444 | exactly-once output through the whole loop, wherever its waits fell, whenever the pane was published and however the loop ended: the seed and the log after it up to the last chunk handled, or nothing; a beginning of that where a write fails |
| Attention.Attention.Step | rs/crates/app/src/attention.rs:110-188 | a frame takes the flag to its specified successor, and reports exactly a change of flag or note |
| Attention.Attention.Observe | rs/crates/app/src/attention.rs:112-160 | the three stop sources of one frame, edges and memory included |
| Attention.Attention.ManagerClear | rs/crates/app/src/attention.rs:208-218 | clears and stamps a lit flag only |
| Attention.GlowEndsOnlySeen | rs/crates/app/src/attention.rs:162-187 | a glow ends by touch, manager, switching off, or two unbroken seconds of looking begun after it was lit |
| Attention.LookingEndsGlow | rs/crates/app/src/attention.rs:179-187 | two unbroken seconds of looking always end it |
| Attention.StopsCountsRises | rs/crates/app/src/attention.rs:110-188 | `stops` is the number of rises of the flag, and only a stop in a frame raises it |
| Attention.LightsIff | rs/crates/app/src/attention.rs:110-177 | told from the events alone: a dark pane lights in a frame exactly when it is an AI pane nobody watches, with the setting on, and its code turned to 4 or 2, a newer turn end came in, or, no hook ever heard, a new burst of output is over; a helper pane only at code 4 |
| Attention.LivenessLights | rs/crates/app/src/attention.rs:124-133 | a code of 4, or of 2 on a pane that is no helper, lights it whenever the last frame's was another, and with no hook and no timer nothing else does |
| Attention.QuietStopIff | rs/crates/app/src/attention.rs:137-155 | the quiet timer stops a pane exactly when it was armed, no hook was ever heard, and a burst newer than every counted one has gone quiet |
| Attention.NoteStaysIff | rs/crates/app/src/attention.rs:128-172 | the manager's note stays through a frame exactly while the pane neither stops again, nor starts to work, nor prints more than two seconds after it |
| Attention.Darkens | rs/crates/app/src/attention.rs:162-218 | what the setting, a touch and the manager do to a lit pane and to a dark one |
| Attention.HookStopIsNewEnd | rs/crates/app/src/attention.rs:116-123 | a reported turn end counts exactly when newer than all before it, or, the first, newer than the pane |
| Attention.OldStopCountsExactly | rs/crates/app/src/attention.rs:116-123 | an end older than the pane counts exactly when an older one was reported first |
| Attention.HookedForGood | rs/crates/app/src/attention.rs:116-155 | once hooked, the quiet timer never stops the pane again |
| Attention.QuietStopsAdvance | rs/crates/app/src/attention.rs:137-155 | successive quiet stops are for strictly later output, each quiet for the period |
| Attention.QuietStopWasArmed | rs/crates/app/src/attention.rs:137-155 | a quiet stop was armed by input, by work or by a first quiet burst |
| Attention.HelperLightsOnError | rs/crates/app/src/attention.rs:134-136 | a helper pane lights only in a frame reporting an error |
| Attention.RestartLightsNothing | rs/crates/app/src/attention.rs:102-108 | a pane that only prints, in any number of frames or not at all, glows through its first burst only if it did before the restart |
| Attention.RestartStopsIff | rs/crates/app/src/attention.rs:137-155 | such a pane stops in a frame exactly when a burst newer than every earlier quiet one, and not the first, is quiet |
| Attention.RestartLightsIff | rs/crates/app/src/attention.rs:110-187 | dark after a restart it glows at some point exactly when that happens in a frame nobody watches, on an AI pane, with the setting on |
| Attention.SecondBurstLights | rs/crates/app/src/attention.rs:137-155 | such a run: a second burst goes quiet and lights it |
| Attention.Panes.Drive | rs/crates/app/src/attention.rs:246-310 | every pane of a window driven one frame, touched ones first |
| Attention.DrivingGoesOn | rs/crates/app/src/attention.rs:283-304 | driving a pane carries its run of events on by a touch, if it was typed into, and then the frame |
| Attention.ReportedExactly | rs/crates/app/src/attention.rs:283-308 | no visible change goes unreported, and when a report has none |
| Attention.ArrowNeeds | rs/crates/app/src/attention.rs:332-348 | an arrow glows exactly when a needy tab is off that side |
| Winch.NoLostResize | rs/crates/app/src/attach_cli.rs:532-561 | so with the handlers in on time and no failed read, once quiet, the last size asked for is the terminal's |
| Winch.ResizeLostIff | rs/crates/app/src/attach_cli.rs:532-561 | in every run and interleaving, once quiet, the watcher has acted on the terminal's size if and only if it was at no point stuck, at the start or after a failed read with nothing on its way, with no resize since |
| Winch.LostOnlyByFailedRead | rs/crates/app/src/attach_cli.rs:541-546 | with the handlers in on time a resize is lost exactly by a failed read with nothing else on its way and no resize since |
| Winch.PolicyHonoured | rs/crates/app/src/attach_cli.rs:547-557 | observing never resizes, requesting never sends one size twice in a row |
| Winch.AnswersEach | rs/crates/app/src/attach_cli.rs:547-557 | in every run each size noticed that differs from the last one acted on is answered by exactly one message, and with the connection gone nothing more is sent |
| Winch.OneRoundSettles | rs/crates/app/src/attach_cli.rs:539-557 | one undisturbed round acts on a raised signal |
| Winch.LostBeforeInstall | rs/crates/app/src/attach_cli.rs:480-487 | in a run without failed reads a terminal that changed before the handlers went in stays unnoticed exactly until it is resized again |
| Winch.LostByFailedRead | rs/crates/app/src/attach_cli.rs:541-546 | such a run: one failed size query loses the resize |
| QueueRunner.NeverBothNeverNeither | scripts/open-questions/queue-runner.py:127-150 | whatever the interleaving and crashes a filed file is in exactly one directory |
| QueueRunner.TwiceIffMisreported | scripts/open-questions/queue-runner.py:127-150 | in every run, file by file: accepted twice if and only if a submit of it that was taken had been reported as refused and it was taken again afterwards |
| QueueRunner.OpenAcceptedIff | scripts/open-questions/queue-runner.py:127-150 | a file still queued, held or cancelled has been accepted exactly when a submit of it was misreported |
| QueueRunner.AtMostOnce | scripts/open-questions/queue-runner.py:127-150 | a file none of whose own submits was misreported is accepted at most once, and a queued or cancelled one not at all |
| QueueRunner.MisreportDeliversTwice | scripts/open-questions/queue-runner.py:136-141 | such a run: a submit taken but reported refused is delivered twice |
| QueueRunner.StrandedForGood | scripts/open-questions/queue-runner.py:131-141 | in every run a claimed file stays in `sent/` for good, as accepted as it then was, once its deliverer died or its submit was lost |
| QueueRunner.Runner.Deliver | scripts/open-questions/queue-runner.py:127-150 | one delivery's effect on the two directories |
| QueueRunner.Runner.Step | scripts/open-questions/queue-runner.py:186-208 | one pass: done if nothing is queued, again if the pane is not free, else the oldest file goes, if taken, and anything but a confirmed delivery ends the run |
| QueueRunner.Runner.RunOnce | scripts/open-questions/queue-runner.py:186-208 | files leave oldest first, each once, one for each confirmed delivery up to the first that is not, after which it stops with 2, that file gone too if it was taken; success means exactly that all were confirmed and the queue is empty |
| QueueRunner.ConfirmedIs | scripts/open-questions/queue-runner.py:186-208 | the count in it is the number of confirmed deliveries before the first that is not |
| WsClient.FrameReadsBack | rs/tools/control-parity-probe.py:97-109 | a frame written in any of the three length forms reads back in full (section 5.2 of RFC 6455) |
| WsClient.PartIsNone | rs/tools/control-parity-probe.py:97-109 | any proper beginning of a written frame is no frame yet |
| WsClient.FlagsIgnored | rs/tools/control-parity-probe.py:101-102 | of the first two bytes the opcode is the low four bits and the length the low seven, whatever the flags |
| WsClient.Client.Greet | rs/tools/control-parity-probe.py:73-82 | acceptance and the bytes kept for the frames depend on what can be had of the stream alone, not its pieces; without a blank line in it nothing is accepted |
| WsClient.SplitIff | rs/tools/control-parity-probe.py:74-79 | the greeting ends at the first blank line and what is behind it is kept |
| WsClient.AcceptedIff | rs/tools/control-parity-probe.py:80-82 | a greeting is accepted exactly when its first line has `101` in it |
| WsClient.Client.ReadExact | rs/tools/control-parity-probe.py:84-91 | exactly n bytes off the front where that many can be had before the socket times out or ends; else it says which, and nothing is lost |
| WsClient.Client.ReadText | rs/tools/control-parity-probe.py:93-111 | what a read comes to is a function of what can be had of the stream and of the patience, whatever its pieces; a text returned is the next, and coming back with nothing loses none |
| WsClient.TextOfIs | rs/tools/control-parity-probe.py:93-111 | namely the first whole frame with a text within patience, or nothing, or a frame broken off by a timeout, or an ended socket, and exactly when each |
| WsClient.Client.ReadTexts | rs/tools/control-parity-probe.py:93-111 | however frames are cut into chunks, successive reads return their texts, each once, in order |
| WsClient.StreamSkips | rs/tools/control-parity-probe.py:93-111 | the next text of a stream of frames is their first text frame |
| Csv.DisplayFits | rs/crates/app/src/csv.rs:75-95 | a shown cell is one line: the flattened cell itself if it fits, else its beginning and an ellipsis, as wide as the cap, or the ellipsis alone for a cap of nothing |
| Csv.FlatOne | rs/crates/app/src/csv.rs:76-86 | a line end of any of the three kinds shows as one pilcrow, a tab as a space, any other character as itself |
| Csv.FlatAppend | rs/crates/app/src/csv.rs:76-86 | and a text piece by piece, as long as no line end is cut in two |
| Csv.MeasureTable | rs/crates/app/src/csv.rs:37-59 | each width is the widest shown cell and attained; a column is numeric exactly when it has body cells and all parse |
| Csv.ColumnsLineUp | rs/crates/app/src/csv.rs:65-73 | every drawn cell is exactly as wide as its column before escaping, flush to its side, and no column exceeds the cap |
| Csv.EscapeMarkdown | rs/crates/app/src/csv.rs:121-130 | backslash-unescaping (section 2.4 of the CommonMark spec) inverts the escaping |
| Csv.EscapedInert | rs/crates/app/src/csv.rs:121-130 | no character of the escaped text that markdown could give a meaning stands without a backslash, and no other got one |
| Text.TrimIs | rs/crates/app/src/contextmenu.rs:1050 | trimming takes off all the space at both ends and nothing else |
| Duration.AcceptedWithinADay | rs/crates/app/src/contextmenu.rs:1048-1088 | an accepted text is 1 to 1440 minutes |
| Duration.AcceptedForms | rs/crates/app/src/contextmenu.rs:1048-1088 | and, trimmed and in small letters, is a number of minutes, an hour form or a clock time; anything else is refused |
| Duration.TrimmedReads | rs/crates/app/src/contextmenu.rs:1050 | space around the text and the case of its letters make no difference |
| Duration.LowerIs | rs/crates/app/src/contextmenu.rs:1050 | small letters are what A to Z become, and nothing else changes |
| Duration.ClockReads | rs/crates/app/src/contextmenu.rs:1054-1068 | `HH:MM` is the least whole minutes reaching the next strictly later showing, and refused where no clock shows it |
| Duration.MinutesReadBack | rs/crates/app/src/contextmenu.rs:1084-1088 | `N` and `Nm`, with or without a `+`, mean N minutes within 1 to 1440 and are else refused |
| Duration.HoursRead | rs/crates/app/src/contextmenu.rs:1069-1083 | `Nh`, `Nhm`, `NhM`, `NhMm` mean the wrapped 32-bit product within a day; a product outside, sixty minutes or more and an hour count past 32 bits are refused |
| Duration.HoursHonest | rs/crates/app/src/contextmenu.rs:1069-1083 | they mean hours and minutes exactly when the 32-bit product did not wrap, or wrapped to zero or past a day |
| Duration.DecimalReads | rs/crates/app/src/contextmenu.rs:1084-1088 | every number has a printed form the parser's digits read back |
| ShellQuote.QuoteArgReadsBack | rs/crates/app/src/command.rs:1242-1251 | every string is one shell word after quoting (POSIX.1-2017 XCU 2.2.1, 2.2.2, 2.3) |
| ShellQuote.BareIff | rs/crates/app/src/command.rs:1242-1251 | an argument stays as it is exactly when it is not empty and has only letters, digits and `/._-+=:~`; any other is put in single quotes |
| ShellQuote.LineReadsBack | rs/crates/app/src/command.rs:1242-1251 | a line of quoted arguments splits into exactly those arguments |
| ShellQuote.GitCommandReadsBack | rs/crates/app/src/command.rs:830-851 | the git line runs git with exactly the root, revision and path asked for |
| ShellQuote.EditorCommandReadsBack | rs/crates/app/src/command.rs:973 | the editor line splits into program and file |

## Left out

- ControlHost.ControlHost.Sync: assumes at least one window; the application quits with its last.
- HostRuns.ClosedIdReturnsIff: over careful runs; once two panes share an id, which of them goes by it is
  up to hash order.
- ControlHost: which of several panes under one id a lookup finds depends on their tabs; here it is any of
  them.
- HostRuns: the GUI re-adopting the sessions that survived a relaunch; the runs start from them
  (`HostRuns.RelaunchStarts`) but only self-heal and the human bring them back. No step takes a pane
  out of the model, as no dispatch of this version does; the merge's branch for it is modelled.
- Adoption.Window.AdoptAll: one target window, a pane's tab by its position; a stale position can name
  a tab made in the same tick.
- Workspace: layouts, sizes, zoom, titles and accents; which pane is focused only where a pane lands.
- History: panes of subagents, which close with their parent; the confirmation card; a history
  restored at launch. A window's last tab is killed when it is closed and again when its window is
  reaped; the model records the kill at the reap.
- App: sessions replaced in place, whether restarted or fallen back to a shell.
- Windows and states are values that a window list holds, not shared references.
- ControlLoop.Transport.Run: client commands are reduced to their reply; tmux ids, cwd and screen text
  are not modelled, nor is the greeting. A line that does not get out is taken to be cut off whole.
- ControlMode: sequence of the daemon's own attach loop; its order of seed and chunks is an input.
- Label, colour, command and meta fields that the host re-stamps on the model; talk, focus mirroring,
  chrome updates, settings and dictation.
- Dispatches that fail half way: a new pane for a window that is gone, a restart whose new session
  cannot be started.
- View panes, which have no session; sessions carried by several app processes.
- UiOps.Held: the operations other than tab and pane moves are one case, applied at once.
- Attention: a helper pane's own error flag and the counters derived from the flags.
- Winch: the terminal's raw-mode guard and fatal-signal handling.
- QueueRunner: log lines, the sleep before the screen check, and the pid file, which excludes nobody.
- WsClient.Client.ReadText: fragmented frames, masking and UTF-8 decoding; a timeout in mid-frame is
  the source's exception, after which the client is not used.
- ShellQuote: tilde and parameter expansion and assignment words, which `quote_arg` leaves bare.
- Csv: what parses as a number is a parameter.
- Duration: the reading of the wall clock; debug builds, which check the product instead of wrapping.
- The context menu's builder, crash reports, command-line flags, the Python regular-expression guards,
  the user interface, sockets, HTTP, speech and model services.
