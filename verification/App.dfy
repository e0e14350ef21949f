/** The application over whole runs of drops, tear-outs, tab drags and reaps: every session ever
    started is, at every moment, in exactly one place. */
module App {
  import opened Wrappers
  import opened Workspace
  import opened Windows
  import opened Reaping
  import opened History
  import opened TabDrags

  /** `killed`, `lost` and `spawned` are histories, in order: `lost` are the sessions left running
      with no window, because the one they were meant for was gone or could not be made. */
  datatype World = World(windows: seq<Win>, next: nat, killed: seq<Uid>, lost: seq<Uid>, spawned: seq<Uid>)

  /** `opens` says whether the system can make a new window; `shell` is the uid a new shell would get. */
  datatype Event =
    | DropPane(source: nat, uid: Uid, hover: Hover, opens: bool, shell: Uid)
    | PaneToNewWindow(source: nat, opens: bool, shell: Uid)
    | TabToNewWindow(source: nat, tab: nat, opens: bool)
    | NewWindow(opens: bool, shell: Uid)
    | DragTab(source: nat, index: nat, slot: nat)
    | EditPanes(source: nat, edit: Edit, shell: Uid)
    | Quit(source: nat)
    | Reap

  // ---- the commands that tear out ----

  /** The focused pane out of a window, the app-owned tab refilled if that empties it. */
  function FocusedOut(s: State, shell: Uid): Option<(Uid, State, bool)>
    requires s.active < |s.tabs|
  {
    var t := s.tabs[s.active];
    if t.focused >= |t.panes| then None
    else
      var d := TakePane(s, s.active, t.focused);
      Some((t.panes[t.focused], Reseed(d.0, shell), d.1))
  }

  predicate FocusReseeds(s: State)
    requires s.active < |s.tabs|
  {
    var t := s.tabs[s.active];
    t.focused < |t.panes| && Reseeds(TakePane(s, s.active, t.focused).0)
  }

  lemma FocusedOutOwns(s: State, shell: Uid, u: Uid)
    requires s.Valid()
    ensures match FocusedOut(s, shell)
      case None => true
      case Some(d) => d.1.Valid() && d.1.Owns(u) + One(d.0, u) == s.Owns(u) + if FocusReseeds(s) then One(shell, u) else 0
  {
    var t := s.tabs[s.active];
    if t.focused < |t.panes| {
      TakePaneOwns(s, s.active, t.focused, u);
      TakePaneValid(s, s.active, t.focused);
      ReseedOwns(TakePane(s, s.active, t.focused).0, shell, u);
    }
  }

  /** A tear-out leaves window `i` in state `left` and seeds a new window, where one can be made. */
  function TornOut(w: World, i: nat, left: State, alive: bool, seed: State, opens: bool): World
    requires i < |w.windows|
  {
    var source := w.windows[i].(state := left, closing := w.windows[i].closing || !alive);
    w.(windows := Spawn(w.windows[i := source], w.next, seed, opens), next := w.next + 1)
  }

  /** Window `i` is left as an edit of its panes leaves it. */
  function EditedWorld(w: World, i: nat, o: Outcome, shell: Uid): World
    requires i < |w.windows|
  {
    var source := w.windows[i].(state := o.state, closing := w.windows[i].closing || !o.alive);
    w.(windows := w.windows[i := source], killed := w.killed + o.killed,
       spawned := if o.spawned then w.spawned + [shell] else w.spawned)
  }

  function DropStep(w: World, source: nat, uid: Uid, h: Hover, opens: bool, shell: Uid): World
    requires Wellformed(w.windows, w.next)
  {
    var ws := w.windows;
    match ById(ws, source)
    case None => w
    case Some(i) =>
      var tears := h.win.None? && !h.overLeftPanel && FindPane(ws[i].state.tabs, uid).Some?;
      w.(windows := Dropped(ws, w.next, i, uid, h, opens, shell),
         next := if tears then w.next + 1 else w.next,
         lost := if Drops(ws, i, uid, h, opens) then w.lost + [uid] else w.lost,
         spawned := if DropReseeds(ws, i, uid, h) then w.spawned + [shell] else w.spawned)
  }

  function PaneOutStep(w: World, source: nat, opens: bool, shell: Uid): World
    requires Wellformed(w.windows, w.next)
  {
    match ById(w.windows, source)
    case None => w
    case Some(i) =>
      var s := w.windows[i].state;
      match FocusedOut(s, shell)
      case None => w
      case Some(d) =>
        TornOut(w, i, d.1, d.2, Adopt(EMPTY_WINDOW, d.0), opens)
        .(lost := if opens then w.lost else w.lost + [d.0],
          spawned := if FocusReseeds(s) then w.spawned + [shell] else w.spawned)
  }

  function TabOutStep(w: World, source: nat, tab: nat, opens: bool): World
    requires Wellformed(w.windows, w.next)
  {
    match ById(w.windows, source)
    case None => w
    case Some(i) =>
      match DetachTab(w.windows[i].state, tab)
      case None => w
      case Some(d) =>
        TornOut(w, i, d.1, true, SeedTab(d.0), opens).(lost := if opens then w.lost else w.lost + d.0.panes)
  }

  function WindowStep(w: World, opens: bool, shell: Uid): World {
    w.(windows := Spawn(w.windows, w.next, Adopt(EMPTY_WINDOW, shell), opens), next := w.next + 1,
       lost := if opens then w.lost else w.lost + [shell], spawned := w.spawned + [shell])
  }

  function DragStep(w: World, source: nat, index: nat, slot: nat): World {
    match ById(w.windows, source)
    case None => w
    case Some(i) => w.(windows := Put(w.windows, i, ReorderTab(w.windows[i].state, index, slot).0))
  }

  function EditStep(w: World, source: nat, edit: Edit, shell: Uid): World
    requires Wellformed(w.windows, w.next)
  {
    match ById(w.windows, source)
    case None => w
    case Some(i) => EditedWorld(w, i, Edited(w.windows[i].state, edit, shell), shell)
  }

  function QuitStep(w: World, source: nat): World {
    match ById(w.windows, source)
    case None => w
    case Some(i) => w.(windows := w.windows[i := w.windows[i].(closing := true)])
  }

  function ReapStep(w: World): World
    requires Wellformed(w.windows, w.next)
  {
    SurvivorsFrom(w.windows);
    if Closing(w.windows) == [] then w
    else w.(windows := Reaped(w.windows), killed := w.killed + ReapKills(w.windows))
  }

  function Step(w: World, e: Event): World
    requires Wellformed(w.windows, w.next)
  {
    match e
    case DropPane(source, uid, h, opens, shell) => DropStep(w, source, uid, h, opens, shell)
    case PaneToNewWindow(source, opens, shell) => PaneOutStep(w, source, opens, shell)
    case TabToNewWindow(source, tab, opens) => TabOutStep(w, source, tab, opens)
    case NewWindow(opens, shell) => WindowStep(w, opens, shell)
    case DragTab(source, index, slot) => DragStep(w, source, index, slot)
    case EditPanes(source, edit, shell) => EditStep(w, source, edit, shell)
    case Quit(source) => QuitStep(w, source)
    case Reap => ReapStep(w)
  }

  // ---- conservation ----

  /** Where session `u` is now and has ended up, counted. */
  function Held(w: World, u: Uid): nat {
    Total(w.windows, u) + Times(w.killed, u) + Times(w.lost, u)
  }

  /** What a step adds to the windows and the lost is what it newly starts. */
  ghost predicate Keeps(w: World, w': World, u: Uid) {
    Wellformed(w'.windows, w'.next) && Held(w', u) + Times(w.spawned, u) == Held(w, u) + Times(w'.spawned, u)
  }

  lemma TimesPush(s: seq<Uid>, x: Uid, u: Uid)
    ensures Times(s + [x], u) == Times(s, u) + One(x, u)
  {
    TimesAppend(s, [x], u);
  }

  lemma DropKeeps(w: World, source: nat, uid: Uid, h: Hover, opens: bool, shell: Uid, u: Uid)
    requires Wellformed(w.windows, w.next)
    ensures Keeps(w, DropStep(w, source, uid, h, opens, shell), u)
  {
    hide Wellformed, Total, Times, Drops, DropReseeds;
    match ById(w.windows, source)
    case None =>
    case Some(i) =>
      DropConserves(w.windows, w.next, i, uid, h, opens, shell, u);
      DropNext(w.windows, w.next, i, uid, h, opens, shell);
      TimesPush(w.lost, uid, u);
      TimesPush(w.spawned, shell, u);
  }

  /** A drop takes a window number only when it tears the pane out. */
  lemma DropNext(ws: seq<Win>, next: nat, i: nat, uid: Uid, h: Hover, opens: bool, shell: Uid)
    requires Wellformed(ws, next) && i < |ws|
    ensures Wellformed(Dropped(ws, next, i, uid, h, opens, shell),
              if h.win.None? && !h.overLeftPanel && FindPane(ws[i].state.tabs, uid).Some? then next + 1 else next)
  {
    hide Across, InTree, OnStrip, OnTiles, Adopt, TakePane, Wellformed, FindPane;
    DropConserves(ws, next, i, uid, h, opens, shell, 0);
  }

  lemma TornOutKeeps(w: World, i: nat, left: State, alive: bool, seed: State, opens: bool, u: Uid)
    requires Wellformed(w.windows, w.next) && i < |w.windows| && left.Valid() && seed.Valid()
    ensures var w' := TornOut(w, i, left, alive, seed, opens);
      && Wellformed(w'.windows, w'.next)
      && Total(w'.windows, u) + w.windows[i].state.Owns(u) == Total(w.windows, u) + left.Owns(u) + if opens then seed.Owns(u) else 0
  {
    var source := w.windows[i].(state := left, closing := w.windows[i].closing || !alive);
    TotalUpdate(w.windows, i, source, u);
    SpawnOwns(w.windows[i := source], w.next, seed, opens, u);
  }

  lemma PaneOutKeeps(w: World, source: nat, opens: bool, shell: Uid, u: Uid)
    requires Wellformed(w.windows, w.next)
    ensures Keeps(w, PaneOutStep(w, source, opens, shell), u)
  {
    hide Total, Times, Adopt, FocusReseeds, TornOut, State.Owns;
    match ById(w.windows, source) {
      case None =>
      case Some(i) =>
        FocusedOutOwns(w.windows[i].state, shell, u);
        match FocusedOut(w.windows[i].state, shell) {
          case None =>
          case Some(d) =>
            SeedOwns(Tab([], false, 0), d.0, u);
            TornOutKeeps(w, i, d.1, d.2, Adopt(EMPTY_WINDOW, d.0), opens, u);
            TornOutFields(w, i, d.1, d.2, Adopt(EMPTY_WINDOW, d.0), opens);
            TimesPush(w.lost, d.0, u);
            TimesPush(w.spawned, shell, u);
        }
    }
  }

  lemma TornOutFields(w: World, i: nat, left: State, alive: bool, seed: State, opens: bool)
    requires i < |w.windows|
    ensures var w' := TornOut(w, i, left, alive, seed, opens);
      w'.killed == w.killed && w'.lost == w.lost && w'.spawned == w.spawned
  {
  }

  lemma TabOutKeeps(w: World, source: nat, tab: nat, opens: bool, u: Uid)
    requires Wellformed(w.windows, w.next)
    ensures Keeps(w, TabOutStep(w, source, tab, opens), u)
  {
    hide Total, Times, TornOut, State.Owns, SeedTab;
    match ById(w.windows, source) {
      case None =>
      case Some(i) =>
        match DetachTab(w.windows[i].state, tab) {
          case None =>
          case Some(d) =>
            DetachTabOwns(w.windows[i].state, tab, u);
            SeedOwns(d.0, 0, u);
            TornOutKeeps(w, i, d.1, true, SeedTab(d.0), opens, u);
            TornOutFields(w, i, d.1, true, SeedTab(d.0), opens);
            TimesAppend(w.lost, d.0.panes, u);
        }
    }
  }

  /** The pane moved out is all the new window shows, and the window it left closes exactly when that
      was its only pane. */
  lemma PaneOutLands(w: World, source: nat, i: nat, opens: bool, shell: Uid)
    requires Wellformed(w.windows, w.next) && ById(w.windows, source) == Some(i)
    ensures var s, ws' := w.windows[i].state, PaneOutStep(w, source, opens, shell).windows;
      && s.active < |s.tabs| && var t := s.tabs[s.active];
      && (opens && t.focused < |t.panes| ==>
          && |ws'| == |w.windows| + 1 && ws'[|w.windows|].id == w.next && !ws'[|w.windows|].closing
          && ws'[|w.windows|].state == State([Tab([t.panes[t.focused]], false, 0)], 0, [], []))
      && i < |ws'|
      && (ws'[i].closing <==> w.windows[i].closing || (t.focused < |t.panes| && |s.tabs| == 1 && |t.panes| == 1 && !t.system))
      && forall k :: 0 <= k < |w.windows| && k != i ==> ws'[k] == w.windows[k]
  {
    WellformedAt(w.windows, w.next, i);
    PaneOutFacts(w, source, i, opens, shell);
    hide Wellformed, PaneOutStep, TabOutStep, ById;
    var s := w.windows[i].state;
    var t := s.tabs[s.active];
    if t.focused < |t.panes| {
      hide Reseed;
      HostInLands(EMPTY_WINDOW, 0, 0, t.panes[t.focused]);
      assert RemoveAt(Adopt(EMPTY_WINDOW, t.panes[t.focused]).tabs[0].panes, 0) == [];
      assert Adopt(EMPTY_WINDOW, t.panes[t.focused]).tabs[0].panes == [t.panes[t.focused]];
      assert RemoveAt(t.panes, t.focused) == [] <==> |t.panes| == 1;
    }
  }

  /** An edit changes its own window and no other, and closes it exactly when it says so. */
  lemma EditTouchesOwn(w: World, source: nat, i: nat, edit: Edit, shell: Uid)
    requires Wellformed(w.windows, w.next) && ById(w.windows, source) == Some(i)
    ensures var s, w' := w.windows[i].state, Step(w, EditPanes(source, edit, shell));
      && s.active < |s.tabs| && |w'.windows| == |w.windows|
      && (forall k :: 0 <= k < |w.windows| && k != i ==> w'.windows[k] == w.windows[k])
      && w'.windows[i].id == source && w'.windows[i].state == Edited(s, edit, shell).state
      && (w'.windows[i].closing <==> w.windows[i].closing || !Edited(s, edit, shell).alive)
      && w'.next == w.next && w'.killed == w.killed + Edited(s, edit, shell).killed && w'.lost == w.lost
  {
    EditFacts(w, source, i, edit, shell);
    hide Wellformed, Edited;
  }

  /** The tab moved out is all the new window shows, as an ordinary tab; the window it left keeps its
      other tabs in order and stays open. */
  lemma TabOutLands(w: World, source: nat, i: nat, tab: nat)
    requires Wellformed(w.windows, w.next) && ById(w.windows, source) == Some(i)
    requires tab < |w.windows[i].state.tabs| && |w.windows[i].state.tabs| >= 2 && !w.windows[i].state.tabs[tab].system
    ensures var s, ws' := w.windows[i].state, TabOutStep(w, source, tab, true).windows;
      && |ws'| == |w.windows| + 1 && ws'[|w.windows|].state.tabs == [s.tabs[tab].(system := false)]
      && ws'[i].state.tabs == RemoveAt(s.tabs, tab) && ws'[i].closing == w.windows[i].closing
      && (forall k :: 0 <= k < |w.windows| && k != i ==> ws'[k] == w.windows[k])
      && (s.active != tab ==> ws'[i].state.active < |ws'[i].state.tabs| && ws'[i].state.tabs[ws'[i].state.active] == s.tabs[s.active])
  {
    TabOutFacts(w, source, i, tab, true);
    WellformedAt(w.windows, w.next, i);
    hide Wellformed, PaneOutStep, TabOutStep, ById;
  }

  /** A new window comes last and shows just its shell. */
  lemma WindowOpens(w: World, opens: bool, shell: Uid)
    requires Wellformed(w.windows, w.next)
    ensures var w' := Step(w, NewWindow(opens, shell));
      && w' == w.(windows := w'.windows, next := w.next + 1, lost := w'.lost, spawned := w.spawned + [shell])
      && w'.windows == (if opens then w.windows + [Win(w.next, State([Tab([shell], false, 0)], 0, [], []), false)] else w.windows)
      && w'.lost == if opens then w.lost else w.lost + [shell]
  {
    AdoptLast(EMPTY_WINDOW, shell);
    assert [] + [shell] == [shell];
    assert [Tab([], false, 0)][0 := Tab([shell], false, 0)] == [Tab([shell], false, 0)];
    hide Adopt;
  }

  /** Quitting closes the window of that number and no other. */
  lemma QuitCloses(w: World, source: nat)
    requires Wellformed(w.windows, w.next)
    ensures var w' := Step(w, Quit(source));
      && w' == w.(windows := w'.windows) && |w'.windows| == |w.windows|
      && forall k :: 0 <= k < |w.windows| ==>
           w'.windows[k] == if w.windows[k].id == source then w.windows[k].(closing := true) else w.windows[k]
  {
  }

  lemma EditWorldKeeps(w: World, source: nat, edit: Edit, shell: Uid, u: Uid)
    requires Wellformed(w.windows, w.next)
    ensures Keeps(w, EditStep(w, source, edit, shell), u)
  {
    match ById(w.windows, source)
    case None =>
    case Some(i) =>
      WellformedAt(w.windows, w.next, i);
      EditKeeps(w.windows[i].state, edit, shell, u);
      EditedWorldKeeps(w, i, Edited(w.windows[i].state, edit, shell), shell, u);
  }

  lemma EditedWorldKeeps(w: World, i: nat, o: Outcome, shell: Uid, u: Uid)
    requires Wellformed(w.windows, w.next) && i < |w.windows| && History.Keeps(w.windows[i].state, o, shell, u)
    ensures Keeps(w, EditedWorld(w, i, o, shell), u)
  {
    hide State.Owns, Times;
    TotalUpdate(w.windows, i, w.windows[i].(state := o.state, closing := w.windows[i].closing || !o.alive), u);
    TimesAppend(w.killed, o.killed, u);
    TimesPush(w.spawned, shell, u);
  }

  lemma WindowKeeps(w: World, opens: bool, shell: Uid, u: Uid)
    requires Wellformed(w.windows, w.next)
    ensures Keeps(w, WindowStep(w, opens, shell), u)
  {
    hide Times, Adopt, State.Owns;
    SeedOwns(Tab([], false, 0), shell, u);
    SpawnOwns(w.windows, w.next, Adopt(EMPTY_WINDOW, shell), opens, u);
    TimesPush(w.lost, shell, u);
    TimesPush(w.spawned, shell, u);
  }

  lemma DragKeeps(w: World, source: nat, index: nat, slot: nat, u: Uid)
    requires Wellformed(w.windows, w.next)
    ensures Keeps(w, DragStep(w, source, index, slot), u)
  {
    hide Times, ReorderTab, State.Owns;
    if i :| ById(w.windows, source) == Some(i) {
      ReorderTabOwns(w.windows[i].state, index, slot, u);
      PutOwns(w.windows, w.next, i, ReorderTab(w.windows[i].state, index, slot).0, u, 0);
    }
  }

  lemma QuitKeeps(w: World, source: nat, u: Uid)
    requires Wellformed(w.windows, w.next)
    ensures Keeps(w, QuitStep(w, source), u)
  {
    hide Times, State.Owns;
    if i :| ById(w.windows, source) == Some(i) { TotalUpdate(w.windows, i, w.windows[i].(closing := true), u); }
  }

  lemma ReapKeeps(w: World, u: Uid)
    requires Wellformed(w.windows, w.next)
    ensures Keeps(w, ReapStep(w), u)
  {
    hide Times, Reaped, ReapKills, State.Owns;
    ReapConserves(w.windows, w.next, u);
    TimesAppend(w.killed, ReapKills(w.windows), u);
  }

  lemma StepKeeps(w: World, e: Event, u: Uid)
    requires Wellformed(w.windows, w.next)
    ensures Keeps(w, Step(w, e), u)
  {
    match e {
      case DropPane(source, uid, h, opens, shell) => DropKeeps(w, source, uid, h, opens, shell, u);
      case PaneToNewWindow(source, opens, shell) => PaneOutKeeps(w, source, opens, shell, u);
      case TabToNewWindow(source, tab, opens) => TabOutKeeps(w, source, tab, opens, u);
      case EditPanes(source, edit, shell) => EditWorldKeeps(w, source, edit, shell, u);
      case NewWindow(opens, shell) => WindowKeeps(w, opens, shell, u);
      case DragTab(source, index, slot) => DragKeeps(w, source, index, slot, u);
      case Quit(source) => QuitKeeps(w, source, u);
      case Reap => ReapKeeps(w, u);
    }
  }

  lemma StepWellformed(w: World, e: Event)
    requires Wellformed(w.windows, w.next)
    ensures Wellformed(Step(w, e).windows, Step(w, e).next)
  {
    StepKeeps(w, e, 0);
  }

  function Run(w: World, es: seq<Event>): World
    requires Wellformed(w.windows, w.next)
    decreases |es|
  {
    if es == [] then w else StepWellformed(w, es[0]); Run(Step(w, es[0]), es[1..])
  }

  /** The uids the events would give new shells. */
  function Shells(es: seq<Event>): seq<Uid> {
    if es == [] then []
    else ShellOf(es[0]) + Shells(es[1..])
  }

  function ShellOf(e: Event): seq<Uid> {
    match e
    case DropPane(_, _, _, _, shell) => [shell]
    case PaneToNewWindow(_, _, shell) => [shell]
    case NewWindow(_, shell) => [shell]
    case EditPanes(_, _, shell) => [shell]
    case _ => []
  }

  lemma SpawnsAtMost(w: World, e: Event, u: Uid)
    requires Wellformed(w.windows, w.next)
    ensures Times(Step(w, e).spawned, u) <= Times(w.spawned, u) + Times(ShellOf(e), u)
  {
    hide Wellformed, Dropped, Drops, DropReseeds, Spawn, FocusReseeds, Edited, Reaped, ReapKills, Adopt, SeedTab, ReorderTab;
    var w' := Step(w, e);
    if w'.spawned != w.spawned {
      var shell := ShellOf(e)[0];
      assert w'.spawned == w.spawned + [shell];
      TimesPush(w.spawned, shell, u);
      TimesPush([], shell, u);
      assert [] + [shell] == [shell];
    }
  }

  /** Over any run in which no uid is given twice, every session ever started is in exactly one place:
      held once by one window, or killed once, or lost. None is ever in two, and none is forgotten. */
  lemma {:induction false} AlwaysInOnePlace(w: World, es: seq<Event>, u: Uid)
    requires Wellformed(w.windows, w.next) && Held(w, u) == Times(w.spawned, u)
    requires Times(w.spawned, u) + Times(Shells(es), u) <= 1
    ensures Wellformed(Run(w, es).windows, Run(w, es).next)
    ensures Held(Run(w, es), u) == if u in Run(w, es).spawned then 1 else 0
    decreases |es|
  {
    TimesPositive(w.spawned, u);
    if es != [] {
      StepKeeps(w, es[0], u);
      SpawnsAtMost(w, es[0], u);
      TimesAppend(ShellOf(es[0]), Shells(es[1..]), u);
      hide Step, Held, Wellformed, ShellOf;
      AlwaysInOnePlace(Step(w, es[0]), es[1..], u);
    }
  }

  lemma StartHolds(u: Uid)
    ensures Wellformed([], 0) && Held(World([], 0, [], [], []), u) == Times([], u) == 0
  {
  }

  /** The event takes sessions out of a window, or starts one, and there is no window for them: the one
      dropped on is gone, or none can be made. */
  predicate Loses(ws: seq<Win>, e: Event) {
    match e
    case DropPane(source, uid, h, opens, _) => (match ById(ws, source) case None => false case Some(i) => Drops(ws, i, uid, h, opens))
    case PaneToNewWindow(source, opens, _) =>
      !opens && (match ById(ws, source)
                 case None => false
                 case Some(i) =>
                   var s := ws[i].state;
                   s.active < |s.tabs| && s.tabs[s.active].focused < |s.tabs[s.active].panes|)
    case TabToNewWindow(source, tab, opens) =>
      !opens && (match ById(ws, source)
                 case None => false
                 case Some(i) =>
                   var tabs := ws[i].state.tabs;
                   tab < |tabs| && |tabs| >= 2 && !tabs[tab].system && tabs[tab].panes != [])
    case NewWindow(opens, _) => !opens
    case _ => false
  }

  ghost predicate Lossless(w: World, es: seq<Event>)
    requires Wellformed(w.windows, w.next)
    decreases |es|
  {
    es == [] || (StepWellformed(w, es[0]); !Loses(w.windows, es[0]) && Lossless(Step(w, es[0]), es[1..]))
  }

  lemma LosesIff(w: World, e: Event)
    requires Wellformed(w.windows, w.next)
    ensures w.lost <= Step(w, e).lost && (Step(w, e).lost == w.lost <==> !Loses(w.windows, e))
  {
    hide Dropped, Drops, DropReseeds, FindPane, Edited, Reaped, ReapKills, ReorderTab, Adopt, SeedTab, Spawn;
    if e.PaneToNewWindow? || e.TabToNewWindow? {
      if i :| ById(w.windows, e.source) == Some(i) { WellformedAt(w.windows, w.next, i); }
    }
  }

  lemma {:induction false} LostGrows(w: World, es: seq<Event>)
    requires Wellformed(w.windows, w.next)
    ensures w.lost <= Run(w, es).lost
    decreases |es|
  {
    if es != [] {
      StepWellformed(w, es[0]);
      LosesIff(w, es[0]);
      hide Step, Wellformed, Loses;
      LostGrows(Step(w, es[0]), es[1..]);
    }
  }

  /** A run loses no session exactly when each of its steps finds a window for what it moves. */
  lemma {:induction false} NothingLost(w: World, es: seq<Event>)
    requires Wellformed(w.windows, w.next)
    ensures Run(w, es).lost == w.lost <==> Lossless(w, es)
    decreases |es|
  {
    if es != [] {
      StepWellformed(w, es[0]);
      LosesIff(w, es[0]);
      LostGrows(Step(w, es[0]), es[1..]);
      hide Step, Wellformed, Loses;
      NothingLost(Step(w, es[0]), es[1..]);
    }
  }

  lemma AdoptSystemTabSome(s: State, tab: Tab)
    requires s.tabs != []
    ensures AdoptSystemTab(s, tab).tabs != []
  {
  }

  /** Lifts the app-owned tab out of each closing window and re-homes it in `home`. */
  method LiftSystemTabs(closing: seq<Win>, home: State) returns (left: seq<Win>, rehomed: State)
    requires home.tabs != []
    ensures left == Lifted(closing) && rehomed == Rehome(home, closing)
  {
    hide AdoptSystemTab, DetachTabUnchecked;
    left, rehomed := closing, home;
    for k := 0 to |closing|
      invariant rehomed.tabs != [] && Rehome(rehomed, closing[k..]) == Rehome(home, closing)
      invariant |left| == |closing| && left[k..] == closing[k..]
      invariant left[..k] + Lifted(closing[k..]) == Lifted(closing)
    {
      assert closing[k..][1..] == closing[k + 1..] && left[k] == left[k..][0];
      ghost var done, rest := left[..k], Lifted(closing[k + 1..]);
      match TakeSystemTab(left[k].state) {
        case None =>
        case Some(x) =>
          left := left[k := left[k].(state := x.1)];
          AdoptSystemTabSome(rehomed, x.0);
          rehomed := AdoptSystemTab(rehomed, x.0);
      }
      assert done + ([left[k]] + rest) == left[..k + 1] + rest;
    }
  }

  // ---- the application ----

  datatype TabDrag = TabDrag(source: nat, index: nat)

  class App {
    var windows: seq<Win>
    var next: nat
    var killed: seq<Uid>
    /** The tab drag under way: its window, and the strip index of the tab held. */
    var drag: Option<TabDrag>
    ghost var lost: seq<Uid>
    ghost var spawned: seq<Uid>

    ghost function Now(): World
      reads this
    {
      World(windows, next, killed, lost, spawned)
    }

    ghost predicate Valid()
      reads this
    {
      Wellformed(windows, next)
    }

    constructor ()
      ensures Valid() && Now() == World([], 0, [], [], []) && drag == None
    {
      windows, next, killed, drag, lost, spawned := [], 0, [], None, [], [];
    }

    method SetState(i: nat, s: State)
      requires i < |windows|
      modifies `windows
      ensures windows == Put(old(windows), i, s)
    {
      windows := windows[i := windows[i].(state := s)];
    }

    method SpawnWindow(seed: State, opens: bool)
      modifies `windows, `next
      ensures windows == Spawn(old(windows), old(next), seed, opens) && next == old(next) + 1
    {
      var id := next;
      next := id + 1;
      if !opens { return; }
      windows := windows + [Win(id, seed, false)];
    }

    /** Window `i` is left in state `left`, closing if that is nothing, and a new window opens over
        `seed`. */
    method LeaveFor(i: nat, left: State, alive: bool, seed: State, opens: bool)
      requires i < |windows|
      modifies `windows, `next
      ensures windows == Spawn(old(windows)[i := old(windows)[i].(state := left, closing := old(windows)[i].closing || !alive)], old(next), seed, opens)
      ensures next == old(next) + 1
    {
      SetState(i, left);
      SpawnWindow(seed, opens);
      if !alive {
        windows := windows[i := windows[i].(closing := true)];
      }
    }

    /** On the strip of the pane's own window: switch, take out, put back. */
    method DropOnStrip(i: nat, uid: Uid, tabOver: Option<nat>)
      requires Valid() && i < |windows|
      modifies `windows
      ensures windows == Put(old(windows), i, OnStrip(old(windows)[i].state, uid, tabOver))
    {
      ghost var s := windows[i].state;
      DetachUidValid(s, uid);
      hide AdoptAsTab, Adopt, DetachUid;
      match tabOver {
        case Some(ti) =>
          SetState(i, SwitchTab(windows[i].state, ti));
          DetachUidValid(windows[i].state, uid);
          match DetachUid(windows[i].state, uid) {
            case Some(d) =>
              SetState(i, d.0);
              SetState(i, Adopt(windows[i].state, uid));
            case None =>
          }
        case None =>
          match DetachUid(windows[i].state, uid) {
            case Some(d) =>
              SetState(i, d.0);
              SetState(i, AdoptAsTab(windows[i].state, uid));
            case None =>
          }
      }
    }

    /** On the panes of its own window: reorder, or bring over from another tab. */
    method DropOnTiles(i: nat, uid: Uid, paneIdx: Option<nat>, slot: nat)
      requires Valid() && i < |windows|
      modifies `windows
      ensures windows == Put(old(windows), i, OnTiles(old(windows)[i].state, uid, paneIdx, slot))
    {
      ghost var s := windows[i].state;
      DetachUidValid(s, uid);
      hide AdoptAt, DetachUid, ReorderPaneIn;
      if paneIdx.Some? {
        var state := windows[i].state;
        match IndexIn(state.tabs[state.active].panes, uid) {
          case Some(from) =>
            var to := InsertionFor(from, paneIdx.value);
            SetState(i, ReorderPaneIn(state, state.active, from, to));
          case None =>
            match DetachUid(state, uid) {
              case Some(d) =>
                SetState(i, d.0);
                SetState(i, AdoptAt(windows[i].state, uid, slot));
              case None =>
            }
        }
      }
    }

    /** In the workspace tree of its own window. */
    method DropInTree(i: nat, uid: Uid, tab: nat, at: nat, shell: Uid)
      requires i < |windows|
      modifies `windows
      ensures windows == Put(old(windows), i, InTree(old(windows)[i].state, uid, tab, at, shell))
    {
      hide ReorderPaneIn, MoveBetweenTabsAt;
      match FindPane(windows[i].state.tabs, uid) {
        case None =>
        case Some(f) =>
          if f.0 == tab {
            SetState(i, ReorderPaneIn(windows[i].state, tab, f.1, at));
          } else {
            SetState(i, MoveBetweenTabsAt(windows[i].state, f.0, f.1, tab, at, shell));
          }
      }
    }

    /** Out of window `i` and into the window numbered `id`, which is looked for only once the pane is
        out; an emptied window closes. */
    method HandOver(i: nat, id: nat, uid: Uid, place: Place) returns (dropped: bool)
      requires Valid() && i < |windows| && id != windows[i].id
      modifies `windows
      ensures windows == Across(old(windows), i, ById(old(windows), id), uid, place)
      ensures dropped <==> FindPane(old(windows)[i].state.tabs, uid).Some? && ById(old(windows), id).None?
    {
      dropped := false;
      DetachUidValid(windows[i].state, uid);
      match DetachUid(windows[i].state, uid) {
        case None =>
        case Some(d) =>
          hide Host, DetachUid, FindPane, SwitchTab;
          ghost var before := windows;
          SetState(i, d.0);
          SameIds(before, windows, id);
          assert forall k :: 0 <= k < |windows| && k != i ==> windows[k] == before[k];
          hide Wellformed;
          if ById(windows, id).Some? { WellformedAt(before, next, ById(windows, id).value); }
          var j := ById(windows, id);
          if j.Some? {
            SetState(j.value, Host(windows[j.value].state, uid, place));
          } else {
            dropped := true;
          }
          if !d.1 {
            windows := windows[i := windows[i].(closing := true)];
          }
      }
    }

    method TearOut(i: nat, uid: Uid, opens: bool) returns (dropped: bool)
      requires Valid() && i < |windows|
      modifies `windows, `next
      ensures windows == Torn(old(windows), old(next), i, uid, opens)
      ensures var found := FindPane(old(windows)[i].state.tabs, uid).Some?;
        next == (if found then old(next) + 1 else old(next)) && (dropped <==> found && !opens)
    {
      dropped := false;
      match DetachUid(windows[i].state, uid) {
        case None =>
        case Some(d) =>
          hide Adopt, DetachUid;
          LeaveFor(i, d.0, d.1, Adopt(EMPTY_WINDOW, uid), opens);
          dropped := !opens;
      }
    }

    /** Dropped on a window's workspace tree. */
    method DropOnPanel(i: nat, uid: Uid, h: Hover, opens: bool, shell: Uid) returns (dropped: bool)
      requires Valid() && i < |windows| && h.overLeftPanel
      modifies `windows
      ensures windows == Dropped(old(windows), next, i, uid, h, opens, shell)
      ensures dropped == Drops(old(windows), i, uid, h, opens)
    {
      hide Across, InTree, FindPane;
      dropped := false;
      if h.win.None? { return; }
      var j := ById(windows, h.win.value);
      if j.None? || h.dropTab < 0 { return; }
      var tab, at := h.dropTab, Clamp(h.dropSlot);
      if h.win.value == windows[i].id {
        DropInTree(i, uid, tab, at, shell);
      } else {
        dropped := HandOver(i, h.win.value, uid, DockAt(tab, at));
      }
    }

    /** Dropped on a strip, on panes or on the desktop. */
    method DropOnWindow(i: nat, uid: Uid, h: Hover, opens: bool, shell: Uid) returns (dropped: bool)
      requires Valid() && i < |windows| && !h.overLeftPanel
      modifies `windows, `next
      ensures windows == Dropped(old(windows), old(next), i, uid, h, opens, shell)
      ensures dropped == Drops(old(windows), i, uid, h, opens)
      ensures next == if h.win.None? && FindPane(old(windows)[i].state.tabs, uid).Some? then old(next) + 1 else old(next)
    {
      hide Across, Torn, OnStrip, OnTiles, FindPane;
      dropped := false;
      match h.win {
        case Some(id) =>
          if id == windows[i].id {
            if h.overStrip {
              DropOnStrip(i, uid, h.tabOver);
            } else {
              DropOnTiles(i, uid, h.paneIdx, h.slotIndex);
            }
          } else {
            dropped := HandOver(i, id, uid, PlaceAcross(h));
          }
        case None => dropped := TearOut(i, uid, opens);
      }
    }

    /** Resolves a completed pane drop. */
    method DropPane(source: nat, uid: Uid, h: Hover, opens: bool, shell: Uid)
      requires Valid()
      modifies `windows, `next, `lost, `spawned
      ensures Valid() && Now() == DropStep(old(Now()), source, uid, h, opens, shell)
    {
      var src := ById(windows, source);
      if src.None? { return; }
      var i := src.value;
      DropFacts(Now(), source, i, uid, h, opens, shell);
      hide Wellformed, DropStep, ById, Dropped, Drops, DropReseeds, FindPane;
      if DropReseeds(windows, i, uid, h) { spawned := spawned + [shell]; }
      var dropped;
      if h.overLeftPanel {
        dropped := DropOnPanel(i, uid, h, opens, shell);
      } else {
        dropped := DropOnWindow(i, uid, h, opens, shell);
      }
      if dropped { lost := lost + [uid]; }
    }

    method MovePaneToNewWindow(source: nat, opens: bool, shell: Uid)
      requires Valid()
      modifies `windows, `next, `lost, `spawned
      ensures Valid() && Now() == PaneOutStep(old(Now()), source, opens, shell)
    {
      var src := ById(windows, source);
      if src.None? { return; }
      var i := src.value;
      PaneOutFacts(Now(), source, i, opens, shell);
      ghost var w' := PaneOutStep(Now(), source, opens, shell);
      hide Wellformed, PaneOutStep, ById, Adopt, FocusedOut, FocusReseeds, Spawn;
      var s := windows[i].state;
      match FocusedOut(s, shell) {
        case None =>
        case Some(d) =>
          if FocusReseeds(s) { spawned := spawned + [shell]; }
          LeaveFor(i, d.1, d.2, Adopt(EMPTY_WINDOW, d.0), opens);
          assert windows == w'.windows && next == w'.next;
          if !opens { lost := lost + [d.0]; }
      }
    }

    method MoveTabToNewWindow(source: nat, tab: nat, opens: bool)
      requires Valid()
      modifies `windows, `next, `lost
      ensures Valid() && Now() == TabOutStep(old(Now()), source, tab, opens)
    {
      var src := ById(windows, source);
      if src.None? { return; }
      var i := src.value;
      TabOutFacts(Now(), source, i, tab, opens);
      hide Wellformed, TabOutStep, ById, SeedTab, DetachTab;
      match DetachTab(windows[i].state, tab) {
        case None =>
        case Some(d) =>
          LeaveFor(i, d.1, true, SeedTab(d.0), opens);
          if !opens { lost := lost + d.0.panes; }
      }
    }

    /** A tick of a tab drag over its own strip: the tab moves, and the index follows it to wherever it
        landed. */
    method PumpTab(slot: nat)
      requires Valid()
      modifies `windows, `drag
      ensures Valid() && match old(drag)
        case None => windows == old(windows) && drag == None
        case Some(d) =>
          match ById(old(windows), d.source)
          case None => windows == old(windows) && drag == old(drag)
          case Some(i) =>
            var (s, at) := LiveTick(old(windows)[i].state, d.index, slot);
            windows == Put(old(windows), i, s) && drag == Some(TabDrag(d.source, at))
    {
      match drag {
        case None =>
        case Some(d) =>
          match ById(windows, d.source) {
            case None =>
            case Some(i) =>
              var s := windows[i].state;
              var dest := if slot > d.index then slot - 1 else slot;
              ReorderTabOwns(s, d.index, slot, 0);
              if dest != d.index {
                var (moved, at) := ReorderTab(s, d.index, slot);
                PutOwns(windows, next, i, moved, 0, 0);
                SetState(i, moved);
                drag := Some(TabDrag(d.source, at));
              }
          }
      }
    }

    /** The release of a tab drag over its own strip. */
    method ReleaseTab(slot: nat)
      requires Valid() && drag.Some?
      modifies `windows, `drag
      ensures Valid() && drag == None && Now() == DragStep(old(Now()), old(drag).value.source, old(drag).value.index, slot)
    {
      var d := drag.value;
      drag := None;
      DragKeeps(Now(), d.source, d.index, slot, 0);
      var i := ById(windows, d.source);
      if i.Some? {
        SetState(i.value, ReorderTab(windows[i.value].state, d.index, slot).0);
      }
    }

    /** An edit of one window's panes; the sessions it gives up are killed in order. */
    method EditPanes(source: nat, edit: Edit, shell: Uid)
      requires Valid()
      modifies `windows, `killed, `spawned
      ensures Valid() && Now() == EditStep(old(Now()), source, edit, shell)
    {
      var src := ById(windows, source);
      if src.None? { return; }
      var i := src.value;
      EditFacts(Now(), source, i, edit, shell);
      hide Wellformed, EditStep, Edited, ById;
      var o := Edited(windows[i].state, edit, shell);
      if o.spawned { spawned := spawned + [shell]; }
      KillAll(o.killed);
      windows := windows[i := windows[i].(state := o.state, closing := windows[i].closing || !o.alive)];
    }

    method Quit(source: nat)
      requires Valid()
      modifies `windows
      ensures Valid() && Now() == QuitStep(old(Now()), source)
    {
      QuitKeeps(Now(), source, 0);
      var src := ById(windows, source);
      if src.Some? { windows := windows[src.value := windows[src.value].(closing := true)]; }
    }

    /** One event of any kind. */
    method Handle(e: Event)
      requires Valid()
      modifies this
      ensures Valid() && Now() == Step(old(Now()), e)
    {
      hide Wellformed, DropStep, PaneOutStep, TabOutStep, WindowStep, DragStep, EditStep, QuitStep, ReapStep;
      match e {
        case DropPane(source, uid, h, opens, shell) => DropPane(source, uid, h, opens, shell);
        case PaneToNewWindow(source, opens, shell) => MovePaneToNewWindow(source, opens, shell);
        case TabToNewWindow(source, tab, opens) => MoveTabToNewWindow(source, tab, opens);
        case NewWindow(opens, shell) => OpenWindow(opens, shell);
        case DragTab(source, index, slot) =>
          drag := Some(TabDrag(source, index));
          ReleaseTab(slot);
        case EditPanes(source, edit, shell) => EditPanes(source, edit, shell);
        case Quit(source) => Quit(source);
        case Reap => Reap();
      }
    }

    /** A whole run of the application from its start, no uid given twice: every session ever started is
        in exactly one place. */
    method RunAll(es: seq<Event>)
      requires Valid() && Now() == World([], 0, [], [], []) && forall u :: Times(Shells(es), u) <= 1
      modifies this
      ensures Valid() && Now() == Run(old(Now()), es)
      ensures forall u :: Held(Now(), u) == if u in spawned then 1 else 0
    {
      ghost var start := Now();
      hide Wellformed, Step, Held, Shells;
      for k := 0 to |es|
        invariant Valid() && Run(Now(), es[k..]) == Run(start, es)
      {
        assert es[k..][0] == es[k] && es[k..][1..] == es[k + 1..];
        Handle(es[k]);
      }
      forall u ensures Held(Now(), u) == if u in spawned then 1 else 0 {
        StartHolds(u);
        AlwaysInOnePlace(start, es, u);
      }
    }

    method OpenWindow(opens: bool, shell: Uid)
      requires Valid()
      modifies `windows, `next, `lost, `spawned
      ensures Valid() && Now() == WindowStep(old(Now()), opens, shell)
    {
      WindowKeeps(Now(), opens, shell, 0);
      hide Adopt, Total, Times;
      spawned := spawned + [shell];
      SpawnWindow(Adopt(EMPTY_WINDOW, shell), opens);
      if !opens { lost := lost + [shell]; }
    }

    /** Splits the windows, in order, into those closing and those staying. */
    method Partition() returns (closing: seq<Win>, survivors: seq<Win>)
      ensures closing == Closing(windows) && survivors == Survivors(windows)
    {
      closing, survivors := [], [];
      for k := 0 to |windows|
        invariant closing + Closing(windows[k..]) == Closing(windows)
        invariant survivors + Survivors(windows[k..]) == Survivors(windows)
      {
        assert windows[k..][1..] == windows[k + 1..];
        if windows[k].closing {
          assert closing + ([windows[k]] + Closing(windows[k + 1..])) == closing + [windows[k]] + Closing(windows[k + 1..]);
          closing := closing + [windows[k]];
        } else {
          assert survivors + ([windows[k]] + Survivors(windows[k + 1..])) == survivors + [windows[k]] + Survivors(windows[k + 1..]);
          survivors := survivors + [windows[k]];
        }
      }
    }

    method KillAll(uids: seq<Uid>)
      modifies `killed
      ensures killed == old(killed) + uids
    {
      for n := 0 to |uids|
        invariant killed == old(killed) + uids[..n]
      {
        killed := killed + [uids[n]];
      }
    }

    method KillSessions(closing: seq<Win>)
      modifies `killed
      ensures killed == old(killed) + Kills(closing, false)
    {
      hide SessionUids;
      for k := 0 to |closing|
        invariant killed + Kills(closing[k..], false) == old(killed) + Kills(closing, false)
      {
        assert closing[k..][1..] == closing[k + 1..];
        KillAll(SessionUids(closing[k].state));
      }
    }

    /** Closes what asked to close. */
    method Reap()
      requires Valid()
      modifies `windows, `killed
      ensures Valid() && Now() == ReapStep(old(Now()))
    {
      ReapFacts(Now());
      hide Wellformed, Rehome, ReapStep, Closing, Survivors, Kills, Reaped, ReapKills;
      var closing, survivors := Partition();
      if closing == [] { return; }
      if survivors != [] {
        var left, home := LiftSystemTabs(closing, survivors[0].state);
        KillsLeft(closing);
        closing, survivors := left, Put(survivors, 0, home);
      }
      KillSessions(closing);
      windows := survivors;
    }
  }

  /** The windows left by a reap that closes something. */
  function Kept(ws: seq<Win>): seq<Win>
    requires Survivors(ws) != [] ==> Survivors(ws)[0].state.tabs != []
  {
    var stay := Survivors(ws);
    if stay == [] then [] else Put(stay, 0, Rehome(stay[0].state, Closing(ws)))
  }

  lemma ReapFacts(w: World)
    requires Wellformed(w.windows, w.next)
    ensures Survivors(w.windows) != [] ==> Survivors(w.windows)[0].state.tabs != []
    ensures Closing(w.windows) == [] ==> ReapStep(w) == w
    ensures Closing(w.windows) != [] ==>
      && Wellformed(Kept(w.windows), w.next)
      && ReapStep(w) == World(Kept(w.windows), w.next, w.killed + Kills(Closing(w.windows), Survivors(w.windows) != []), w.lost, w.spawned)
  {
    HomeValid(w.windows, w.next);
    hide Rehome, Kills, Survivors, Closing;
    ReapedWellformed(w);
    hide Wellformed;
  }

  lemma ReapedWellformed(w: World)
    requires Wellformed(w.windows, w.next)
    ensures Wellformed(ReapStep(w).windows, w.next)
  {
    hide Wellformed, Reaped, Total, Times, ReapKills;
    ReapConserves(w.windows, w.next, 0);
  }

  lemma DropFacts(w: World, source: nat, i: nat, uid: Uid, h: Hover, opens: bool, shell: Uid)
    requires Wellformed(w.windows, w.next) && ById(w.windows, source) == Some(i)
    ensures var w', ws := DropStep(w, source, uid, h, opens, shell), w.windows;
      && Wellformed(w'.windows, w'.next)
      && w' == World(Dropped(ws, w.next, i, uid, h, opens, shell),
                     if h.win.None? && !h.overLeftPanel && FindPane(ws[i].state.tabs, uid).Some? then w.next + 1 else w.next,
                     w.killed, if Drops(ws, i, uid, h, opens) then w.lost + [uid] else w.lost,
                     if DropReseeds(ws, i, uid, h) then w.spawned + [shell] else w.spawned)
  {
    DropKeeps(w, source, uid, h, opens, shell, 0);
    hide Wellformed, Dropped, Drops, DropReseeds, FindPane, Held;
  }

  lemma EditFacts(w: World, source: nat, i: nat, edit: Edit, shell: Uid)
    requires Wellformed(w.windows, w.next) && ById(w.windows, source) == Some(i)
    ensures w.windows[i].state.active < |w.windows[i].state.tabs|
    ensures var w' := EditedWorld(w, i, Edited(w.windows[i].state, edit, shell), shell);
      EditStep(w, source, edit, shell) == w' && Wellformed(w'.windows, w'.next)
  {
    WellformedAt(w.windows, w.next, i);
    EditWorldKeeps(w, source, edit, shell, 0);
    hide Wellformed, Edited, EditedWorld, Held;
  }

  lemma PaneOutFacts(w: World, source: nat, i: nat, opens: bool, shell: Uid)
    requires Wellformed(w.windows, w.next) && ById(w.windows, source) == Some(i)
    ensures var w', s := PaneOutStep(w, source, opens, shell), w.windows[i].state;
      && Wellformed(w'.windows, w'.next) && s.active < |s.tabs|
      && match FocusedOut(s, shell)
         case None => w' == w
         case Some(d) =>
           var from := w.windows[i].(state := d.1, closing := w.windows[i].closing || !d.2);
           w' == World(Spawn(w.windows[i := from], w.next, Adopt(EMPTY_WINDOW, d.0), opens), w.next + 1, w.killed,
                       if opens then w.lost else w.lost + [d.0], if FocusReseeds(s) then w.spawned + [shell] else w.spawned)
  {
    PaneOutKeeps(w, source, opens, shell, 0);
    WellformedAt(w.windows, w.next, i);
    hide Wellformed, FocusedOut, FocusReseeds, Spawn, Adopt;
  }

  lemma TabOutFacts(w: World, source: nat, i: nat, tab: nat, opens: bool)
    requires Wellformed(w.windows, w.next) && ById(w.windows, source) == Some(i)
    ensures var w', s := TabOutStep(w, source, tab, opens), w.windows[i].state;
      && Wellformed(w'.windows, w'.next)
      && match DetachTab(s, tab)
         case None => w' == w
         case Some(d) =>
           var from := w.windows[i].(state := d.1, closing := w.windows[i].closing || !true);
           w' == World(Spawn(w.windows[i := from], w.next, SeedTab(d.0), opens), w.next + 1, w.killed,
                       if opens then w.lost else w.lost + d.0.panes, w.spawned)
  {
    TabOutKeeps(w, source, tab, opens, 0);
    hide Wellformed, DetachTab, Spawn, SeedTab;
  }

  /** Replacing a window's state moves no window's number. */
  lemma {:induction false} SameIds(ws: seq<Win>, ws': seq<Win>, id: nat)
    requires |ws| == |ws'| && forall k :: 0 <= k < |ws| ==> ws[k].id == ws'[k].id
    ensures ById(ws, id) == ById(ws', id)
  {
    if ws != [] { SameIds(ws[1..], ws'[1..], id); }
  }
}
