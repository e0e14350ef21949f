/** A live tab drag: every tick moves the held tab under the pointer and keeps its index in the strip,
    while panes exit, the control side edits the window and the human types. */
module TabDrags {
  import opened Wrappers
  import opened Workspace
  import opened History

  /** One tick of a tab drag over the strip of its own window. */
  function LiveTick(s: State, index: nat, slot: nat): (State, nat) {
    if Landing(index, slot) == index then (s, index) else ReorderTab(s, index, slot)
  }

  function LiveDrag(s: State, index: nat, slots: seq<nat>): (State, nat)
    decreases |slots|
  {
    if slots == [] then (s, index)
    else var (s', at) := LiveTick(s, index, slots[0]); LiveDrag(s', at, slots[1..])
  }

  lemma MovedMultiset<T>(s: seq<T>, from: nat, dest: nat)
    requires from < |s| && dest < |s|
    ensures multiset(Moved(s, from, dest)) == multiset(s)
  {
    var rest := RemoveAt(s, from);
    assert s == s[..from] + [s[from]] + s[from + 1..];
    assert rest == rest[..dest] + rest[dest..];
    calc {
      multiset(Moved(s, from, dest));
      multiset(rest[..dest]) + multiset([s[from]]) + multiset(rest[dest..]);
      multiset(rest[..dest] + rest[dest..]) + multiset([s[from]]);
      multiset(s[..from]) + multiset(s[from + 1..]) + multiset([s[from]]);
      multiset(s[..from] + [s[from]] + s[from + 1..]);
      multiset(s);
    }
  }

  /** However the cursor sweeps, with nothing else going on, the tracked index names the tab first
      grabbed, the strip is the same tabs rearranged, the window shows the same tab, and the app-owned
      tab stays first. */
  lemma {:induction false} LiveDragTracks(s: State, index: nat, slots: seq<nat>)
    requires s.Valid() && index < |s.tabs|
    ensures var (s', at) := LiveDrag(s, index, slots);
      && s'.Valid() && at < |s'.tabs| && s'.tabs[at] == s.tabs[index]
      && multiset(s'.tabs) == multiset(s.tabs) && s'.tabs[s'.active] == s.tabs[s.active]
      && (s.tabs[0].system ==> s'.tabs[0] == s.tabs[0]) && s'.Parked() == s.Parked()
    decreases |slots|
  {
    if slots != [] {
      var (s1, at) := LiveTick(s, index, slots[0]);
      if Landing(index, slots[0]) != index {
        ReorderTabTracks(s, index, slots[0]);
        MovedMultiset(s.tabs, index, at);
      }
      LiveDragTracks(s1, at, slots[1..]);
    }
  }

  // ---- the window between two ticks ----

  /** What else can happen to the window: an edit of its panes, an exit among them; a control-spawned
      pane adopted into a tab or as one; a pane taken out; a tab or a pane moved. */
  datatype Other =
    | Edits(edit: Edit, shell: Uid)
    | Adopts(tab: nat, uid: Uid)
    | AdoptsAsTab(uid: Uid)
    | Detaches(uid: Uid)
    | MovesTab(from: nat, to: nat)
    | MovesPane(from: nat, idx: nat, to: nat, at: nat, shell: Uid)

  /** Nothing of this touches the tracked index. A background adoption leaves the tab looked at. */
  function After(s: State, o: Other): State
    requires s.active < |s.tabs|
  {
    match o
    case Edits(edit, shell) => Edited(s, edit, shell).state
    case Adopts(tab, uid) => if tab < |s.tabs| then HostIn(s, tab, |s.tabs[tab].panes|, uid) else s
    case AdoptsAsTab(uid) => AdoptAsTab(s, uid).(active := s.active)
    case Detaches(uid) => (match DetachUid(s, uid) case None => s case Some(d) => d.0)
    case MovesTab(from, to) => ReorderTab(s, from, to).0
    case MovesPane(from, idx, to, at, shell) => MoveBetweenTabsAt(s, from, idx, to, at, shell)
  }

  /** The pane that is taken out of its tab, by tab and slot. */
  function TakenAt(s: State, o: Other): (r: Option<(nat, nat)>)
    requires s.active < |s.tabs|
    ensures r.Some? ==> r.value.0 < |s.tabs| && r.value.1 < |s.tabs[r.value.0].panes|
  {
    match o
    case Edits(Close(tab, idx, _), _) => if tab < |s.tabs| && idx < |s.tabs[tab].panes| then Some((tab, idx)) else None
    case Edits(End(tab, idx), _) => if tab < |s.tabs| && idx < |s.tabs[tab].panes| then Some((tab, idx)) else None
    case Edits(Remind(idx), _) =>
      var t := s.tabs[s.active];
      if ((|s.tabs| <= 1 || t.system) && |t.panes| < 2) || idx >= |t.panes| then None else Some((s.active, idx))
    case Detaches(uid) => FindPane(s.tabs, uid)
    case MovesPane(from, idx, to, _, _) =>
      if from >= |s.tabs| || to >= |s.tabs| || from == to || idx >= |s.tabs[from].panes| then None else Some((from, idx))
    case _ => None
  }

  /** The tab that is dropped from the strip: it was closed, or its last pane was taken. */
  function TabGone(s: State, o: Other): (r: Option<nat>)
    requires s.active < |s.tabs|
    ensures r.Some? ==> r.value < |s.tabs|
  {
    match TakenAt(s, o)
    case Some(at) => if |s.tabs| >= 2 && !s.tabs[at.0].system && |s.tabs[at.0].panes| == 1 then Some(at.0) else None
    case None =>
      if o.Edits? && o.edit.CloseTab? && o.edit.tab < |s.tabs| && |s.tabs| >= 2 && !s.tabs[o.edit.tab].system then Some(o.edit.tab)
      else None
  }

  /** Where the tab at `index` stands afterwards, if it is not itself dropped. */
  function StandsAt(s: State, o: Other, index: nat): nat
    requires s.active < |s.tabs| && index < |s.tabs|
  {
    match o
    case MovesTab(from, to) =>
      if from < |s.tabs| && ReorderTab(s, from, to).1 < |s.tabs| then Shifted(index, from, ReorderTab(s, from, to).1) else index
    case _ => if TabGone(s, o).Some? && TabGone(s, o).value < index then index - 1 else index
  }

  /** The session stays where it is: it is not taken out, nor its tab dropped, and no new session gets
      its uid. */
  predicate Spares(s: State, o: Other, p: Uid)
    requires s.active < |s.tabs|
  {
    && (TakenAt(s, o).Some? ==> s.tabs[TakenAt(s, o).value.0].panes[TakenAt(s, o).value.1] != p)
    && (TabGone(s, o).Some? ==> p !in s.tabs[TabGone(s, o).value].panes)
    && (match o
        case Edits(_, shell) => shell != p
        case Adopts(_, uid) => uid != p
        case AdoptsAsTab(uid) => uid != p
        case MovesPane(_, _, _, _, shell) => shell != p
        case _ => true)
  }

  /** The window has session `p` once, in the tab at `index`. */
  ghost predicate Holds(s: State, index: nat, p: Uid) {
    s.Valid() && InTab(s, index, p) && s.Owns(p) == 1
  }

  predicate InTab(s: State, index: nat, p: Uid) {
    index < |s.tabs| && p in s.tabs[index].panes
  }

  // ---- where a tab goes ----

  lemma TakeStands(s: State, ti: nat, idx: nat, index: nat, p: Uid)
    requires ti < |s.tabs| && idx < |s.tabs[ti].panes| && s.tabs[ti].panes[idx] != p && InTab(s, index, p)
    ensures var gone := |s.tabs| >= 2 && !s.tabs[ti].system && |s.tabs[ti].panes| == 1;
      InTab(TakePane(s, ti, idx).0, if gone && ti < index then index - 1 else index, p)
  {
    var panes := s.tabs[ti].panes;
    if index == ti {
      var k :| 0 <= k < |panes| && panes[k] == p;
      assert p in RemoveAt(panes, idx) by {
        assert RemoveAt(panes, idx)[if k < idx then k else k - 1] == p;
      }
    }
  }

  lemma HostStands(s: State, ti: nat, at: nat, uid: Uid, index: nat, p: Uid)
    requires ti < |s.tabs| && InTab(s, index, p)
    ensures InTab(HostIn(s, ti, at, uid), index, p)
  {
  }

  lemma ReseedStands(s: State, shell: Uid, index: nat, p: Uid)
    requires InTab(s, index, p)
    ensures InTab(Reseed(s, shell), index, p)
  {
  }

  lemma CloseStands(s: State, tab: nat, idx: nat, shell: Uid, index: nat, p: Uid)
    requires tab < |s.tabs| && idx < |s.tabs[tab].panes| && s.tabs[tab].panes[idx] != p && InTab(s, index, p)
    ensures var at := if |s.tabs| >= 2 && !s.tabs[tab].system && |s.tabs[tab].panes| == 1 && tab < index then index - 1 else index;
      InTab(PaneClosed(s, tab, idx, shell).state, at, p) && InTab(Ended(s, tab, idx, shell).state, at, p)
  {
    var at := if |s.tabs| >= 2 && !s.tabs[tab].system && |s.tabs[tab].panes| == 1 && tab < index then index - 1 else index;
    var taken := TakePane(s, tab, idx).0;
    TakeStands(s, tab, idx, index, p);
    hide TakePane, Reseed;
    ReseedStands(taken, shell, at, p);
    ReseedStands(Push(taken, ClosedPane(s.tabs[tab].panes[idx])).0, shell, at, p);
  }

  lemma BackStands(s: State, entry: nat, uid: Uid, index: nat, p: Uid)
    requires s.Valid() && InTab(s, index, p)
    ensures InTab(Reopened(s, entry), index, p) && InTab(Restored(s, uid), index, p)
  {
  }

  lemma TabCloseStands(s: State, tab: nat, index: nat, p: Uid)
    requires InTab(s, index, p)
    requires var gone := tab < |s.tabs| && |s.tabs| >= 2 && !s.tabs[tab].system; gone ==> p !in s.tabs[tab].panes
    ensures var gone := tab < |s.tabs| && |s.tabs| >= 2 && !s.tabs[tab].system;
      InTab(TabClosed(s, tab).state, if gone && tab < index then index - 1 else index, p)
  {
  }

  lemma RemindStands(s: State, idx: nat, shell: Uid, index: nat, p: Uid)
    requires s.Valid() && InTab(s, index, p) && Spares(s, Edits(Remind(idx), shell), p)
    ensures InTab(Reminded(s, idx), StandsAt(s, Edits(Remind(idx), shell), index), p)
  {
    if idx < |s.tabs[s.active].panes| && s.tabs[s.active].panes[idx] != p { TakeStands(s, s.active, idx, index, p); }
  }

  lemma EditStands(s: State, edit: Edit, shell: Uid, index: nat, p: Uid)
    requires s.Valid() && InTab(s, index, p) && Spares(s, Edits(edit, shell), p)
    ensures InTab(Edited(s, edit, shell).state, StandsAt(s, Edits(edit, shell), index), p)
  {
    hide PaneClosed, Ended, TabClosed, Reopened, Restored, Reminded;
    match edit {
      case Close(tab, idx, _) =>
        if tab < |s.tabs| && idx < |s.tabs[tab].panes| {
          CloseStands(s, tab, idx, shell, index, p);
        } else {
          PaneClosedNowhere(s, tab, idx, shell);
        }
      case End(tab, idx) =>
        if tab < |s.tabs| && idx < |s.tabs[tab].panes| {
          CloseStands(s, tab, idx, shell, index, p);
        } else {
          PaneClosedNowhere(s, tab, idx, shell);
        }
      case CloseTab(tab, _) => TabCloseStands(s, tab, index, p);
      case Remind(idx) => RemindStands(s, idx, shell, index, p);
      case Reopen(entry) => BackStands(s, entry, 0, index, p);
      case Restore(uid) => BackStands(s, 0, uid, index, p);
      case _ =>
    }
  }

  lemma PaneClosedNowhere(s: State, tab: nat, idx: nat, shell: Uid)
    requires tab >= |s.tabs| || idx >= |s.tabs[tab].panes|
    ensures PaneClosed(s, tab, idx, shell).state == s && Ended(s, tab, idx, shell).state == s
  {
  }

  lemma PaneMoveStands(s: State, from: nat, idx: nat, to: nat, at: nat, shell: Uid, index: nat, p: Uid)
    requires s.Valid() && InTab(s, index, p) && Spares(s, MovesPane(from, idx, to, at, shell), p)
    ensures InTab(MoveBetweenTabsAt(s, from, idx, to, at, shell), StandsAt(s, MovesPane(from, idx, to, at, shell), index), p)
  {
    if from < |s.tabs| && to < |s.tabs| && from != to && idx < |s.tabs[from].panes| {
      var j := StandsAt(s, MovesPane(from, idx, to, at, shell), index);
      var taken := TakePane(s, from, idx).0;
      TakeStands(s, from, idx, index, p);
      MoveEmpties(s, from, idx, to);
      hide TakePane, ReorderPaneIn, Reseed;
      var ti := if |taken.tabs| < |s.tabs| && from < to then to - 1 else to;
      var uid, n := s.tabs[from].panes[idx], |taken.tabs[ti].panes|;
      var hosted := taken.(tabs := taken.tabs[ti := taken.tabs[ti].(panes := taken.tabs[ti].panes + [uid])]);
      assert InTab(hosted, j, p);
      ReseedStands(hosted, shell, j, p);
      ReorderStands(Reseed(hosted, shell), ti, n, Min(at, n), j, p);
    }
  }

  lemma ReorderStands(s: State, ti: nat, from: nat, to: nat, index: nat, p: Uid)
    requires InTab(s, index, p)
    ensures InTab(ReorderPaneIn(s, ti, from, to), index, p)
  {
    if ti < |s.tabs| && from < |s.tabs[ti].panes| && to <= |s.tabs[ti].panes| {
      MovedMultiset(s.tabs[ti].panes, from, Landing(from, to));
      assert p in multiset(s.tabs[ti].panes) <==> p in s.tabs[ti].panes;
      assert p in multiset(Moved(s.tabs[ti].panes, from, Landing(from, to))) <==> p in Moved(s.tabs[ti].panes, from, Landing(from, to));
    }
  }

  lemma TabMoveStands(s: State, from: nat, to: nat, index: nat, p: Uid)
    requires s.Valid() && InTab(s, index, p)
    ensures InTab(ReorderTab(s, from, to).0, StandsAt(s, MovesTab(from, to), index), p)
  {
    if from < |s.tabs| {
      ReorderTabTracks(s, from, to);
      MovedIs(s.tabs, from, ReorderTab(s, from, to).1);
    }
  }

  lemma AfterOwns(s: State, o: Other, p: Uid)
    requires s.Valid() && Spares(s, o, p)
    ensures After(s, o).Valid() && After(s, o).Owns(p) <= s.Owns(p)
  {
    hide State.Owns, Spares, TakenAt, TabGone;
    match o {
      case Edits(edit, shell) =>
        assert shell != p by { SparesShell(s, o, p); }
        EditKeeps(s, edit, shell, p);
      case Adopts(tab, uid) =>
        assert uid != p by { SparesShell(s, o, p); }
        if tab < |s.tabs| { HostInOwns(s, tab, |s.tabs[tab].panes|, uid, p); }
      case AdoptsAsTab(uid) =>
        assert uid != p by { SparesShell(s, o, p); }
        AdoptAsTabOwns(s, uid, p);
        ActiveOwns(AdoptAsTab(s, uid), s.active, p);
      case Detaches(uid) => DetachUidOwns(s, uid, p);
      case MovesTab(from, to) => ReorderTabOwns(s, from, to, p);
      case MovesPane(from, idx, to, at, shell) =>
        assert shell != p by { SparesShell(s, o, p); }
        MoveBetweenTabsOwns(s, from, idx, to, at, shell, p);
    }
  }

  lemma SparesShell(s: State, o: Other, p: Uid)
    requires s.Valid() && Spares(s, o, p)
    ensures match o
      case Edits(_, shell) => shell != p
      case Adopts(_, uid) => uid != p
      case AdoptsAsTab(uid) => uid != p
      case MovesPane(_, _, _, _, shell) => shell != p
      case _ => true
  {
  }

  lemma ActiveOwns(s: State, active: nat, p: Uid)
    ensures s.(active := active).Owns(p) == s.Owns(p)
  {
  }

  /** A tab no step drops stands where `StandsAt` says. */
  lemma TabStands(s: State, o: Other, index: nat, p: Uid)
    requires Holds(s, index, p) && Spares(s, o, p)
    ensures Holds(After(s, o), StandsAt(s, o, index), p)
  {
    AfterOwns(s, o, p);
    match o {
      case Edits(edit, shell) => EditStands(s, edit, shell, index, p);
      case Adopts(tab, uid) => if tab < |s.tabs| { HostStands(s, tab, |s.tabs[tab].panes|, uid, index, p); }
      case AdoptsAsTab(uid) =>
      case Detaches(uid) =>
        var f := FindPane(s.tabs, uid);
        if f.Some? { TakeStands(s, f.value.0, f.value.1, index, p); }
      case MovesTab(from, to) => TabMoveStands(s, from, to, index, p);
      case MovesPane(from, idx, to, at, shell) => PaneMoveStands(s, from, idx, to, at, shell, index, p);
    }
    InTabOwned(After(s, o), StandsAt(s, o, index), p);
  }

  lemma InTabOwned(s: State, index: nat, p: Uid)
    requires InTab(s, index, p)
    ensures s.Owns(p) >= 1
  {
    TimesPositive(s.tabs[index].panes, p);
    HostsRemove(s.tabs, index, p);
  }

  /** A session the window has once is in one tab. */
  lemma OneTab(s: State, i: nat, j: nat, p: Uid)
    requires Holds(s, i, p) && InTab(s, j, p)
    ensures i == j
  {
    if i != j {
      TimesPositive(s.tabs[i].panes, p);
      TimesPositive(s.tabs[j].panes, p);
      HostsRemove(s.tabs, i, p);
      var rest, k := RemoveAt(s.tabs, i), if j < i then j else j - 1;
      assert rest[k] == s.tabs[j];
      HostsRemove(rest, k, p);
    }
  }

  /** The index goes on naming the held tab through a step exactly when the step drops no tab before it
      and moves none past it. */
  lemma IndexStaysIff(s: State, o: Other, index: nat, p: Uid)
    requires Holds(s, index, p) && Spares(s, o, p)
    ensures Holds(After(s, o), index, p) <==> StandsAt(s, o, index) == index
  {
    TabStands(s, o, index, p);
    hide Spares, After, StandsAt, State.Owns;
    if Holds(After(s, o), index, p) { OneTab(After(s, o), StandsAt(s, o, index), index, p); }
  }

  // ---- the whole gesture ----

  datatype Move = Drag(slot: nat) | Meanwhile(other: Other)

  function Moves(s: State, index: nat, m: Move): (State, nat)
    requires s.active < |s.tabs|
  {
    match m
    case Drag(slot) => LiveTick(s, index, slot)
    case Meanwhile(o) => (After(s, o), index)
  }

  /** At every moment of the gesture the tracked index names the tab of `p`. */
  ghost predicate OnTrack(s: State, index: nat, ms: seq<Move>, p: Uid)
    decreases |ms|
  {
    Holds(s, index, p) && (ms != [] ==> var (s', at) := Moves(s, index, ms[0]); OnTrack(s', at, ms[1..], p))
  }

  /** Nothing that happens meanwhile takes `p` out, as long as the index is true. */
  ghost predicate Sparing(s: State, index: nat, ms: seq<Move>, p: Uid)
    decreases |ms|
  {
    ms == [] || !s.Valid() || (
      var (s', at) := Moves(s, index, ms[0]);
      (ms[0].Meanwhile? ==> Spares(s, ms[0].other, p)) && Sparing(s', at, ms[1..], p))
  }

  /** Nothing that happens meanwhile moves the tab at the tracked index. */
  ghost predicate Steady(s: State, index: nat, ms: seq<Move>)
    decreases |ms|
  {
    ms == [] || !s.Valid() || (
      var (s', at) := Moves(s, index, ms[0]);
      (ms[0].Meanwhile? && index < |s.tabs| ==> StandsAt(s, ms[0].other, index) == index) && Steady(s', at, ms[1..]))
  }

  lemma TickHolds(s: State, index: nat, slot: nat, p: Uid)
    requires Holds(s, index, p)
    ensures var (s', at) := LiveTick(s, index, slot); Holds(s', at, p)
  {
    if Landing(index, slot) != index {
      ReorderTabTracks(s, index, slot);
      ReorderTabOwns(s, index, slot, p);
    }
  }

  /** A drag moves the tab first grabbed and no other, whatever goes on meanwhile, exactly when nothing
      drops a tab before it from the strip or moves one past it. */
  lemma {:induction false} GestureOnTrackIff(s: State, index: nat, ms: seq<Move>, p: Uid)
    requires Holds(s, index, p) && Sparing(s, index, ms, p)
    ensures OnTrack(s, index, ms, p) <==> Steady(s, index, ms)
    decreases |ms|
  {
    if ms != [] {
      hide After, Spares, StandsAt, LiveTick, State.Owns;
      var (s', at) := Moves(s, index, ms[0]);
      match ms[0] {
        case Drag(slot) => TickHolds(s, index, slot, p);
        case Meanwhile(o) => IndexStaysIff(s, o, index, p);
      }
      if Holds(s', at, p) { GestureOnTrackIff(s', at, ms[1..], p); }
    }
  }

  /** Such a drag goes wrong: of three tabs the middle one is held, the pane of the first exits, and the
      next tick moves the last tab instead. */
  lemma WrongTabDragged(a: Uid, b: Uid, c: Uid, shell: Uid)
    requires a != b && b != c && a != c && shell != b
    ensures var one, two, three := Tab([a], false, 0), Tab([b], false, 0), Tab([c], false, 0);
      var s, exit := State([one, two, three], 1, [], []), Edits(End(0, 0), shell);
      && Holds(s, 1, b) && Spares(s, exit, b) && After(s, exit).tabs == [two, three] && !Holds(After(s, exit), 1, b)
      && LiveTick(After(s, exit), 1, 0).0.tabs == [three, two]
  {
    var one, two, three := Tab([a], false, 0), Tab([b], false, 0), Tab([c], false, 0);
    var s, exit := State([one, two, three], 1, [], []), Edits(End(0, 0), shell);
    assert s.tabs[1..] == [two, three] && [two, three][1..] == [three] && [three][1..] == [];
    SingleTimes(a, b);
    SingleTimes(b, b);
    SingleTimes(c, b);
    assert Hosts([three], b) == 0 && Hosts([two, three], b) == 1 && Hosts(s.tabs, b) == 1;
    assert s.Parked() == [];
    assert RemoveAt([a], 0) == [] && RemoveAt(s.tabs, 0) == [two, three];
    assert TakePane(s, 0, 0).0 == State([two, three], 0, [], []);
    assert After(s, exit) == State([two, three], 0, [], []);
    assert RemoveAt([two, three], 1) == [two];
  }
}
