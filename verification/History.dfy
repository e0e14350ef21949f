/** Opening and closing panes in one window: a close parks the pane or tab on the recently-closed
    history with its sessions alive, a reminder parks a pane until it is due, and both can be taken
    back. */
module History {
  import opened Wrappers
  import opened Workspace

  const CLOSED_STACK_CAP := 20

  datatype Edit =
    | Open
    | OpenTab
    | Close(tab: nat, idx: nat, byHand: bool)
    | CloseTab(tab: nat, byHand: bool)
    | End(tab: nat, idx: nat)
    | Reopen(entry: nat)
    | Discard(entry: nat)
    | Remind(idx: nat)
    | Restore(uid: Uid)

  /** What an edit leaves: the window, the sessions killed, in order, whether a new shell was started
      and whether the window goes on. */
  datatype Outcome = Outcome(state: State, killed: seq<Uid>, spawned: bool, alive: bool)

  /** Parks an entry, evicting and killing the oldest beyond the cap. */
  function Push(s: State, c: Closed): (State, seq<Uid>) {
    var all := s.closed + [c];
    var over := if |all| > CLOSED_STACK_CAP then |all| - CLOSED_STACK_CAP else 0;
    (s.(closed := all[over..]), ClosedPanes(all[..over]))
  }

  /** The pane is all the window has, so its close cannot be parked. */
  predicate EndsWindow(s: State, tab: nat, idx: nat) {
    |s.tabs| <= 1 && tab < |s.tabs| && !s.tabs[tab].system && idx < |s.tabs[tab].panes| && |s.tabs[tab].panes| == 1
  }

  /** Closes for good: the session is killed, and an emptied app-owned tab gets a new shell. */
  function Ended(s: State, tab: nat, idx: nat, shell: Uid): Outcome {
    if tab >= |s.tabs| || idx >= |s.tabs[tab].panes| then Outcome(s, [], false, true)
    else
      var taken := TakePane(s, tab, idx);
      Outcome(Reseed(taken.0, shell), [s.tabs[tab].panes[idx]], Reseeds(taken.0), taken.1)
  }

  function PaneClosed(s: State, tab: nat, idx: nat, shell: Uid): Outcome {
    if EndsWindow(s, tab, idx) then Ended(s, tab, idx, shell)
    else if tab >= |s.tabs| || idx >= |s.tabs[tab].panes| then Outcome(s, [], false, true)
    else
      var parked := Push(TakePane(s, tab, idx).0, ClosedPane(s.tabs[tab].panes[idx]));
      Outcome(Reseed(parked.0, shell), parked.1, Reseeds(parked.0), true)
  }

  /** Parks a tab. A window's last tab stays while the window closes; its sessions are killed with
      it. The app-owned tab is never closed. */
  function TabClosed(s: State, tab: nat): Outcome {
    match DetachTab(s, tab)
    case Some(d) => var parked := Push(d.1, ClosedTab(d.0)); Outcome(parked.0, parked.1, false, true)
    case None => Outcome(s, [], false, !(tab < |s.tabs| && |s.tabs| == 1 && !s.tabs[tab].system))
  }

  /** Takes a history entry back: a pane into the tab looked at, a tab as an ordinary tab of its own. */
  function Reopened(s: State, entry: nat): State
    requires s.active < |s.tabs|
  {
    if entry >= |s.closed| then s
    else
      var left := s.(closed := RemoveAt(s.closed, entry));
      match s.closed[entry]
      case ClosedPane(uid) => Adopt(left, uid)
      case ClosedTab(t) => left.(tabs := s.tabs + [Tab(t.panes, false, LastOf(t.focused, |t.panes|))], active := |s.tabs|)
  }

  function LastOf(focused: nat, panes: nat): nat {
    if panes == 0 then 0 else Min(focused, panes - 1)
  }

  /** Parks a pane of the tab looked at until it is due, unless that would empty the window or the
      app-owned tab. */
  function Reminded(s: State, idx: nat): State
    requires s.active < |s.tabs|
  {
    var t := s.tabs[s.active];
    if ((|s.tabs| <= 1 || t.system) && |t.panes| < 2) || idx >= |t.panes| then s
    else
      var left := TakePane(s, s.active, idx).0;
      left.(reminders := left.reminders + [t.panes[idx]])
  }

  function Restored(s: State, uid: Uid): State
    requires s.active < |s.tabs|
  {
    match IndexIn(s.reminders, uid)
    case None => s
    case Some(i) => Adopt(s.(reminders := RemoveAt(s.reminders, i)), uid)
  }

  function Edited(s: State, e: Edit, shell: Uid): Outcome
    requires s.active < |s.tabs|
  {
    match e
    case Open => Outcome(Adopt(s, shell), [], true, true)
    case OpenTab => Outcome(AdoptAsTab(s, shell), [], true, true)
    case Close(tab, idx, byHand) => var o := PaneClosed(s, tab, idx, shell); o.(alive := o.alive || !byHand)
    case CloseTab(tab, byHand) => var o := TabClosed(s, tab); o.(alive := o.alive || !byHand)
    case End(tab, idx) => Ended(s, tab, idx, shell)
    case Reopen(entry) => Outcome(Reopened(s, entry), [], false, true)
    case Discard(entry) =>
      if entry >= |s.closed| then Outcome(s, [], false, true)
      else Outcome(s.(closed := RemoveAt(s.closed, entry)), s.closed[entry].Panes(), false, true)
    case Remind(idx) => Outcome(Reminded(s, idx), [], false, true)
    case Restore(uid) => Outcome(Restored(s, uid), [], false, true)
  }

  // ---- an edit keeps every session, or kills it ----

  lemma {:induction false} ClosedAppend(a: seq<Closed>, b: seq<Closed>)
    ensures ClosedPanes(a + b) == ClosedPanes(a) + ClosedPanes(b)
  {
    if a == [] {
      assert a + b == b;
    } else {
      assert (a + b)[1..] == a[1..] + b;
      ClosedAppend(a[1..], b);
    }
  }

  lemma ParkedTimes(s: State, u: Uid)
    ensures Times(s.Parked(), u) == Times(ClosedPanes(s.closed), u) + Times(s.reminders, u)
  {
    TimesAppend(ClosedPanes(s.closed), s.reminders, u);
  }

  lemma PushOwns(s: State, c: Closed, u: Uid)
    ensures Push(s, c).0.Owns(u) + Times(Push(s, c).1, u) == s.Owns(u) + Times(c.Panes(), u)
  {
    var all := s.closed + [c];
    var over := if |all| > CLOSED_STACK_CAP then |all| - CLOSED_STACK_CAP else 0;
    assert all == all[..over] + all[over..];
    ClosedAppend(all[..over], all[over..]);
    ClosedAppend(s.closed, [c]);
    assert [c][1..] == [] && ClosedPanes([c]) == c.Panes();
    TimesAppend(ClosedPanes(all[..over]), ClosedPanes(all[over..]), u);
    TimesAppend(ClosedPanes(s.closed), c.Panes(), u);
    ParkedTimes(s, u);
    ParkedTimes(Push(s, c).0, u);
  }

  lemma UnparkOwns(s: State, entry: nat, u: Uid)
    requires entry < |s.closed|
    ensures s.(closed := RemoveAt(s.closed, entry)).Owns(u) + Times(s.closed[entry].Panes(), u) == s.Owns(u)
  {
    var a, b := s.closed[..entry], s.closed[entry + 1..];
    assert s.closed == a + ([s.closed[entry]] + b);
    ClosedAppend(a, [s.closed[entry]] + b);
    ClosedAppend(a, b);
    assert ([s.closed[entry]] + b)[1..] == b;
    TimesAppend(ClosedPanes(a), s.closed[entry].Panes() + ClosedPanes(b), u);
    TimesAppend(s.closed[entry].Panes(), ClosedPanes(b), u);
    TimesAppend(ClosedPanes(a), ClosedPanes(b), u);
    ParkedTimes(s, u);
    ParkedTimes(s.(closed := RemoveAt(s.closed, entry)), u);
  }

  lemma SingleTimes(x: Uid, u: Uid)
    ensures Times([x], u) == One(x, u)
  {
    assert [x][1..] == [];
  }

  lemma EndedOwns(s: State, tab: nat, idx: nat, shell: Uid, u: Uid)
    requires s.Valid()
    ensures Keeps(s, Ended(s, tab, idx, shell), shell, u)
  {
    if tab < |s.tabs| && idx < |s.tabs[tab].panes| {
      TakePaneOwns(s, tab, idx, u);
      TakePaneValid(s, tab, idx);
      ReseedOwns(TakePane(s, tab, idx).0, shell, u);
      SingleTimes(s.tabs[tab].panes[idx], u);
    }
  }

  /** The outcome is a well-formed window that, with what was killed, accounts for every session. */
  ghost predicate Keeps(s: State, o: Outcome, shell: Uid, u: Uid) {
    o.state.Valid() && o.state.Owns(u) + Times(o.killed, u) == s.Owns(u) + if o.spawned then One(shell, u) else 0
  }

  lemma PaneClosedOwns(s: State, tab: nat, idx: nat, shell: Uid, u: Uid)
    requires s.Valid()
    ensures Keeps(s, PaneClosed(s, tab, idx, shell), shell, u)
  {
    if EndsWindow(s, tab, idx) {
      EndedOwns(s, tab, idx, shell, u);
    } else if tab < |s.tabs| && idx < |s.tabs[tab].panes| {
      var uid, taken := s.tabs[tab].panes[idx], TakePane(s, tab, idx).0;
      TakePaneOwns(s, tab, idx, u);
      TakePaneValid(s, tab, idx);
      PushOwns(taken, ClosedPane(uid), u);
      SingleTimes(uid, u);
      ReseedOwns(Push(taken, ClosedPane(uid)).0, shell, u);
    }
  }

  lemma TabClosedOwns(s: State, tab: nat, shell: Uid, u: Uid)
    requires s.Valid()
    ensures Keeps(s, TabClosed(s, tab), shell, u)
  {
    match DetachTab(s, tab)
    case None =>
    case Some(d) =>
      DetachTabOwns(s, tab, u);
      PushOwns(d.1, ClosedTab(d.0), u);
  }

  lemma ReopenedOwns(s: State, entry: nat, u: Uid)
    requires s.Valid()
    ensures Reopened(s, entry).Valid() && Reopened(s, entry).Owns(u) == s.Owns(u)
  {
    if entry < |s.closed| {
      var left := s.(closed := RemoveAt(s.closed, entry));
      UnparkOwns(s, entry, u);
      match s.closed[entry] {
        case ClosedPane(uid) =>
          HostInOwns(left, left.active, |left.tabs[left.active].panes|, uid, u);
          SingleTimes(uid, u);
        case ClosedTab(t) =>
          var tab := Tab(t.panes, false, LastOf(t.focused, |t.panes|));
          HostsAppend(s.tabs, [tab], u);
          assert [tab][1..] == [];
          assert Hosts([tab], u) == Times(tab.panes, u) + Hosts([], u);
      }
    }
  }

  lemma RemindedOwns(s: State, idx: nat, u: Uid)
    requires s.Valid()
    ensures Reminded(s, idx).Valid() && Reminded(s, idx).Owns(u) == s.Owns(u)
  {
    var t := s.tabs[s.active];
    if idx < |t.panes| {
      var left := TakePane(s, s.active, idx).0;
      TakePaneOwns(s, s.active, idx, u);
      TakePaneValid(s, s.active, idx);
      var reminders := left.reminders + [t.panes[idx]];
      TimesAppend(left.reminders, [t.panes[idx]], u);
      SingleTimes(t.panes[idx], u);
      ParkedTimes(left, u);
      ParkedTimes(left.(reminders := reminders), u);
    }
  }

  lemma RestoredOwns(s: State, uid: Uid, u: Uid)
    requires s.Valid()
    ensures Restored(s, uid).Valid() && Restored(s, uid).Owns(u) == s.Owns(u)
  {
    match IndexIn(s.reminders, uid)
    case None =>
    case Some(i) =>
      var left := s.(reminders := RemoveAt(s.reminders, i));
      RemoveTimes(s.reminders, i, u);
      ParkedTimes(s, u);
      ParkedTimes(left, u);
      HostInOwns(left, left.active, |left.tabs[left.active].panes|, uid, u);
  }

  /** Opening, closing, reopening and reminding lose no session and duplicate none. */
  lemma EditKeeps(s: State, e: Edit, shell: Uid, u: Uid)
    requires s.Valid()
    ensures Keeps(s, Edited(s, e, shell), shell, u)
  {
    hide State.Owns, PaneClosed, TabClosed, Ended, Reopened, Reminded, Restored, TakePane;
    match e {
      case Open => HostInOwns(s, s.active, |s.tabs[s.active].panes|, shell, u);
      case OpenTab => AdoptAsTabOwns(s, shell, u);
      case Close(tab, idx, _) => PaneClosedOwns(s, tab, idx, shell, u);
      case CloseTab(tab, _) => TabClosedOwns(s, tab, shell, u);
      case End(tab, idx) => EndedOwns(s, tab, idx, shell, u);
      case Reopen(entry) => ReopenedOwns(s, entry, u);
      case Discard(entry) => if entry < |s.closed| { UnparkOwns(s, entry, u); }
      case Remind(idx) => RemindedOwns(s, idx, u);
      case Restore(uid) => RestoredOwns(s, uid, u);
    }
  }

  // ---- and closes can be taken back ----

  /** A closed pane is the newest entry of the history, alive, and reopening that entry puts it back,
      focused, on the tab looked at, unless it was the window's last. */
  lemma CloseReopens(s: State, tab: nat, idx: nat, shell: Uid)
    requires s.Valid() && tab < |s.tabs| && idx < |s.tabs[tab].panes| && !EndsWindow(s, tab, idx)
    ensures var o := PaneClosed(s, tab, idx, shell);
      && o.alive && o.state.closed != [] && o.state.Valid()
      && o.state.closed[|o.state.closed| - 1] == ClosedPane(s.tabs[tab].panes[idx])
      && var r := Reopened(o.state, |o.state.closed| - 1);
      && r.active == o.state.active && r.active < |r.tabs|
      && r.tabs[r.active].panes == o.state.tabs[r.active].panes + [s.tabs[tab].panes[idx]]
      && r.closed == o.state.closed[..|o.state.closed| - 1]
  {
    PaneClosedOwns(s, tab, idx, shell, 0);
    var o := PaneClosed(s, tab, idx, shell);
    assert o.state.closed[|o.state.closed| - 1] == ClosedPane(s.tabs[tab].panes[idx]);
    hide PaneClosed, EndsWindow, Keeps, Reopened, TakePane;
    NewestReopens(o.state, s.tabs[tab].panes[idx]);
  }

  lemma NewestReopens(s: State, uid: Uid)
    requires s.Valid() && s.closed != [] && s.closed[|s.closed| - 1] == ClosedPane(uid)
    ensures var r := Reopened(s, |s.closed| - 1);
      && r.active == s.active && r.active < |r.tabs| && r.tabs[r.active].panes == s.tabs[s.active].panes + [uid]
      && r.closed == s.closed[..|s.closed| - 1]
  {
    var panes := s.tabs[s.active].panes;
    assert InsertAt(panes, |panes|, uid) == panes + [uid];
  }

  /** A window of at most the cap of entries keeps to it, and a close kills a session only by evicting
      the oldest entry of a full history. */
  lemma CloseKillsIff(s: State, tab: nat, idx: nat, shell: Uid)
    requires |s.closed| <= 20 && tab < |s.tabs| && idx < |s.tabs[tab].panes| && !EndsWindow(s, tab, idx)
    ensures |PaneClosed(s, tab, idx, shell).state.closed| <= 20
    ensures PaneClosed(s, tab, idx, shell).killed == if |s.closed| == 20 then s.closed[0].Panes() else []
  {
    PushIs(TakePane(s, tab, idx).0, ClosedPane(s.tabs[tab].panes[idx]));
    hide Push;
  }

  // ---- where an edit leaves each pane ----

  /** Tab `ti` of `s` has one pane more, last and focused; nothing else differs. */
  ghost predicate LastIn(s: State, s': State, ti: nat, uid: Uid)
    requires ti < |s.tabs|
  {
    s' == s.(tabs := s.tabs[ti := Tab(s.tabs[ti].panes + [uid], s.tabs[ti].system, |s.tabs[ti].panes|)])
  }

  lemma AdoptLast(s: State, uid: Uid)
    requires s.active < |s.tabs|
    ensures LastIn(s, Adopt(s, uid), s.active, uid)
  {
    var panes := s.tabs[s.active].panes;
    assert InsertAt(panes, |panes|, uid) == panes + [uid];
  }

  /** A new pane is the last of the tab looked at, focused; a new tab is last, looked at, and shows the
      new pane alone. */
  lemma OpensLast(s: State, shell: Uid)
    requires s.active < |s.tabs|
    ensures LastIn(s, Edited(s, Open, shell).state, s.active, shell)
    ensures Edited(s, OpenTab, shell).state == s.(tabs := s.tabs + [Tab([shell], false, 0)], active := |s.tabs|)
    ensures forall e :: e in {Open, OpenTab} ==> var o := Edited(s, e, shell); o.killed == [] && o.spawned && o.alive
  {
    AdoptLast(s, shell);
    AdoptLast(s.(tabs := s.tabs + [Tab([], false, 0)], active := |s.tabs|), shell);
    assert [] + [shell] == [shell];
    assert (s.tabs + [Tab([], false, 0)])[|s.tabs| := Tab([shell], false, 0)] == s.tabs + [Tab([shell], false, 0)];
  }

  /** The history with one entry more, the oldest of twenty making room for it. */
  function Recent(closed: seq<Closed>, c: Closed): seq<Closed> {
    (if |closed| < 20 then closed else closed[1..]) + [c]
  }

  lemma PushIs(s: State, c: Closed)
    requires |s.closed| <= 20
    ensures Push(s, c) == (s.(closed := Recent(s.closed, c)), if |s.closed| == 20 then s.closed[0].Panes() else [])
  {
    var all := s.closed + [c];
    if |s.closed| == 20 {
      assert all[..1] == [s.closed[0]] && all[..1][1..] == [] && all[1..] == Recent(s.closed, c);
      assert s.closed[0].Panes() + ClosedPanes([]) == s.closed[0].Panes();
      assert ClosedPanes(all[..1]) == s.closed[0].Panes() + ClosedPanes([]);
    } else {
      assert all[0..] == Recent(s.closed, c) && all[..0] == [];
    }
  }

  /** A close takes that pane out and parks it; a window's only pane is killed, and the window closes if
      that was by hand. */
  lemma CloseTakesOut(s: State, tab: nat, idx: nat, byHand: bool, shell: Uid) returns (left: State)
    requires s.Valid() && tab < |s.tabs| && idx < |s.tabs[tab].panes| && |s.closed| <= 20
    ensures Out(s, left, tab, idx)
    ensures var (o, uid) := (Edited(s, Close(tab, idx, byHand), shell), s.tabs[tab].panes[idx]);
      && Refilled(left.tabs, o.state.tabs, shell) && o.state.active == left.active && o.state.reminders == s.reminders
      && if |s.tabs| == 1 && |s.tabs[tab].panes| == 1 && !s.tabs[tab].system
         then o.killed == [uid] && o.state.closed == s.closed && o.alive == !byHand
         else o.state.closed == Recent(s.closed, ClosedPane(uid)) && o.alive
  {
    left := TakePane(s, tab, idx).0;
    TakePaneOut(s, tab, idx);
    var c := ClosedPane(s.tabs[tab].panes[idx]);
    ReseedRefills(left, shell);
    ReseedRefills(Push(left, c).0, shell);
    PushIs(left, c);
    hide TakePane, Out, Refilled, Reseed, Push, Recent;
  }

  /** An end takes that pane out and kills its session. */
  lemma EndTakesOut(s: State, tab: nat, idx: nat, shell: Uid) returns (left: State)
    requires s.Valid() && tab < |s.tabs| && idx < |s.tabs[tab].panes|
    ensures Out(s, left, tab, idx)
    ensures var o := Edited(s, End(tab, idx), shell);
      && Refilled(left.tabs, o.state.tabs, shell) && o.state.active == left.active
      && o.state.reminders == s.reminders && o.state.closed == s.closed && o.killed == [s.tabs[tab].panes[idx]]
      && (o.alive <==> |s.tabs| > 1 || |s.tabs[tab].panes| > 1 || s.tabs[tab].system)
  {
    left := TakePane(s, tab, idx).0;
    TakePaneOut(s, tab, idx);
    ReseedRefills(left, shell);
  }

  /** A closed tab goes whole into the history, the tab looked at staying so if it is another; the
      app-owned tab and a window's last stay, and the latter's close by hand ends the window. */
  lemma TabTakenOut(s: State, tab: nat, byHand: bool, shell: Uid)
    requires s.Valid() && |s.closed| <= 20
    ensures var o := Edited(s, CloseTab(tab, byHand), shell);
      if tab < |s.tabs| && |s.tabs| > 1 && !s.tabs[tab].system then
        && o.state.tabs == s.tabs[..tab] + s.tabs[tab + 1..] && o.state.reminders == s.reminders && o.alive
        && o.state.closed == Recent(s.closed, ClosedTab(s.tabs[tab]))
        && o.killed == (if |s.closed| == 20 then s.closed[0].Panes() else [])
        && o.state.active < |o.state.tabs|
        && (s.active != tab ==> o.state.tabs[o.state.active] == s.tabs[s.active])
        && (s.active == tab ==> o.state.active == if tab + 1 < |s.tabs| then tab else tab - 1)
      else
        o.state == s && o.killed == [] && (o.alive <==> !(byHand && tab == 0 && |s.tabs| == 1 && !s.tabs[0].system))
  {
    if tab < |s.tabs| && |s.tabs| > 1 && !s.tabs[tab].system {
      PushIs(DetachTabUnchecked(s, tab).1, ClosedTab(s.tabs[tab]));
    }
    hide Push, Recent, Closed.Panes;
  }

  /** Whichever entry is reopened leaves the history: a pane goes last into the tab looked at, a tab
      comes last and is looked at, with its panes in their order. */
  lemma ReopensThere(s: State, entry: nat, shell: Uid)
    requires s.Valid() && entry < |s.closed|
    ensures var o := Edited(s, Reopen(entry), shell);
      var rest := s.(closed := s.closed[..entry] + s.closed[entry + 1..]);
      && o.killed == [] && !o.spawned && o.alive
      && match s.closed[entry]
         case ClosedPane(uid) => LastIn(rest, o.state, s.active, uid)
         case ClosedTab(t) =>
           && |o.state.tabs| == |s.tabs| + 1 && o.state == rest.(tabs := o.state.tabs, active := |s.tabs|)
           && o.state.tabs[..|s.tabs|] == s.tabs && o.state.tabs[|s.tabs|].panes == t.panes && !o.state.tabs[|s.tabs|].system
           && (t.focused < |t.panes| ==> o.state.tabs[|s.tabs|].focused == t.focused)
  {
    var rest := s.(closed := RemoveAt(s.closed, entry));
    if s.closed[entry].ClosedPane? { AdoptLast(rest, s.closed[entry].uid); }
  }

  /** Discarding an entry kills its sessions and no other, and touches no tab. */
  lemma DiscardKills(s: State, entry: nat, shell: Uid)
    requires s.Valid()
    ensures var o := Edited(s, Discard(entry), shell);
      && o.alive && !o.spawned
      && if entry < |s.closed|
         then o.state == s.(closed := s.closed[..entry] + s.closed[entry + 1..]) && o.killed == s.closed[entry].Panes()
         else o.state == s && o.killed == []
  {
  }

  /** A reminder takes a pane of the tab looked at out and parks it, unless it is the last pane of the
      app-owned tab or of the window; when due it comes back into the tab looked at then. */
  lemma RemindTakesOut(s: State, idx: nat, shell: Uid) returns (left: State)
    requires s.Valid() && idx < |s.tabs[s.active].panes|
    ensures Out(s, left, s.active, idx)
    ensures var (o, t) := (Edited(s, Remind(idx), shell), s.tabs[s.active]);
      && o.killed == [] && !o.spawned && o.alive
      && o.state == if |t.panes| == 1 && (t.system || |s.tabs| == 1) then s else left.(reminders := s.reminders + [t.panes[idx]])
  {
    left := TakePane(s, s.active, idx).0;
    TakePaneOut(s, s.active, idx);
  }

  /** A pane parked by a reminder comes back last and focused on the tab looked at. */
  lemma RestoresHere(s: State, i: nat, uid: Uid, shell: Uid)
    requires s.Valid() && i < |s.reminders| && s.reminders[i] == uid && uid !in s.reminders[..i]
    ensures LastIn(s.(reminders := s.reminders[..i] + s.reminders[i + 1..]), Edited(s, Restore(uid), shell).state, s.active, uid)
  {
    FirstIndex(s.reminders, i, uid);
    AdoptLast(s.(reminders := RemoveAt(s.reminders, i)), uid);
  }

  lemma {:induction false} FirstIndex(panes: seq<Uid>, i: nat, uid: Uid)
    requires i < |panes| && panes[i] == uid && uid !in panes[..i]
    ensures IndexIn(panes, uid) == Some(i)
  {
    if i > 0 {
      assert panes[..i][0] == panes[0] && panes[..i][1..] == panes[1..][..i - 1];
      FirstIndex(panes[1..], i - 1, uid);
    }
  }

  /** What an edit names is not there. */
  predicate Stale(s: State, e: Edit)
    requires s.active < |s.tabs|
  {
    match e
    case Close(tab, idx, _) => tab >= |s.tabs| || idx >= |s.tabs[tab].panes|
    case End(tab, idx) => tab >= |s.tabs| || idx >= |s.tabs[tab].panes|
    case CloseTab(tab, _) => tab >= |s.tabs|
    case Reopen(entry) => entry >= |s.closed|
    case Discard(entry) => entry >= |s.closed|
    case Remind(idx) => idx >= |s.tabs[s.active].panes|
    case Restore(uid) => uid !in s.reminders
    case _ => false
  }

  lemma StaleDoesNothing(s: State, e: Edit, shell: Uid)
    requires s.Valid() && Stale(s, e)
    ensures Edited(s, e, shell) == Outcome(s, [], false, true)
  {
    match e
    case Restore(uid) => assert IndexIn(s.reminders, uid).None?;
    case _ =>
  }
}
