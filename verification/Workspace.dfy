/** One window's tabs and panes, and the edits that move panes and tabs about. A pane is its
    session's uid. Every edit here is total: indices that no longer name anything change nothing,
    as in the source. */
module Workspace {
  import opened Wrappers

  datatype Tab = Tab(panes: seq<Uid>, system: bool, focused: nat)

  /** An entry of the recently-closed history: a pane, or a whole tab. */
  datatype Closed = ClosedPane(uid: Uid) | ClosedTab(tab: Tab) {
    function Panes(): seq<Uid> {
      match this case ClosedPane(uid) => [uid] case ClosedTab(tab) => tab.panes
    }
  }

  /** `closed`, oldest first, and `reminders` keep their sessions alive off the layout. */
  datatype State = State(tabs: seq<Tab>, active: nat, closed: seq<Closed>, reminders: seq<Uid>) {
    ghost predicate Valid() {
      active < |tabs| && SystemFirst()
    }

    /** The app-owned tab, if the window holds it, is its only one and comes first. */
    ghost predicate SystemFirst() {
      forall i :: 0 < i < |tabs| ==> !tabs[i].system
    }

    function Parked(): seq<Uid> {
      ClosedPanes(closed) + reminders
    }

    /** How often this window holds session `u`, laid out or parked. */
    function Owns(u: Uid): nat {
      Hosts(tabs, u) + Times(Parked(), u)
    }
  }

  function ClosedPanes(closed: seq<Closed>): seq<Uid> {
    if closed == [] then [] else closed[0].Panes() + ClosedPanes(closed[1..])
  }

  const EMPTY_WINDOW := State([Tab([], false, 0)], 0, [], [])

  function One(v: Uid, u: Uid): nat {
    if v == u then 1 else 0
  }

  function Times(panes: seq<Uid>, u: Uid): nat {
    if panes == [] then 0 else One(panes[0], u) + Times(panes[1..], u)
  }

  /** How often the tabs lay out session `u`. */
  function Hosts(tabs: seq<Tab>, u: Uid): nat {
    if tabs == [] then 0 else Times(tabs[0].panes, u) + Hosts(tabs[1..], u)
  }

  // ---- counting over sequences ----

  function RemoveAt<T>(s: seq<T>, i: nat): seq<T>
    requires i < |s|
  {
    s[..i] + s[i + 1..]
  }

  function InsertAt<T>(s: seq<T>, i: nat, x: T): seq<T>
    requires i <= |s|
  {
    s[..i] + [x] + s[i..]
  }

  lemma {:induction false} TimesAppend(a: seq<Uid>, b: seq<Uid>, u: Uid)
    ensures Times(a + b, u) == Times(a, u) + Times(b, u)
  {
    if a == [] {
      assert a + b == b;
    } else {
      assert (a + b)[1..] == a[1..] + b;
      TimesAppend(a[1..], b, u);
    }
  }

  lemma {:induction false} TimesPositive(a: seq<Uid>, u: Uid)
    ensures Times(a, u) > 0 <==> u in a
  {
    if a != [] { TimesPositive(a[1..], u); }
  }

  lemma RemoveTimes(s: seq<Uid>, i: nat, u: Uid)
    requires i < |s|
    ensures Times(s, u) == Times(RemoveAt(s, i), u) + One(s[i], u)
  {
    TimesAppend(s[..i], s[i + 1..], u);
    TimesAppend(s[..i], s[i..], u);
    assert s == s[..i] + s[i..] && s[i..][1..] == s[i + 1..];
  }

  lemma InsertTimes(s: seq<Uid>, i: nat, x: Uid, u: Uid)
    requires i <= |s|
    ensures Times(InsertAt(s, i, x), u) == Times(s, u) + One(x, u)
  {
    RemoveTimes(InsertAt(s, i, x), i, u);
    assert RemoveAt(InsertAt(s, i, x), i) == s;
  }

  lemma {:induction false} HostsAppend(a: seq<Tab>, b: seq<Tab>, u: Uid)
    ensures Hosts(a + b, u) == Hosts(a, u) + Hosts(b, u)
  {
    if a == [] {
      assert a + b == b;
    } else {
      assert (a + b)[1..] == a[1..] + b;
      HostsAppend(a[1..], b, u);
    }
  }

  lemma HostsRemove(tabs: seq<Tab>, i: nat, u: Uid)
    requires i < |tabs|
    ensures Hosts(tabs, u) == Hosts(RemoveAt(tabs, i), u) + Times(tabs[i].panes, u)
  {
    HostsAppend(tabs[..i], tabs[i + 1..], u);
    HostsAppend(tabs[..i], tabs[i..], u);
    assert tabs == tabs[..i] + tabs[i..] && tabs[i..][1..] == tabs[i + 1..];
  }

  lemma HostsInsert(tabs: seq<Tab>, i: nat, t: Tab, u: Uid)
    requires i <= |tabs|
    ensures Hosts(InsertAt(tabs, i, t), u) == Hosts(tabs, u) + Times(t.panes, u)
  {
    HostsRemove(InsertAt(tabs, i, t), i, u);
    assert RemoveAt(InsertAt(tabs, i, t), i) == tabs;
  }

  /** Replacing one tab changes the sessions by what that tab's panes change. */
  lemma HostsUpdate(tabs: seq<Tab>, i: nat, t: Tab, u: Uid)
    requires i < |tabs|
    ensures Hosts(tabs[i := t], u) + Times(tabs[i].panes, u) == Hosts(tabs, u) + Times(t.panes, u)
  {
    HostsRemove(tabs, i, u);
    HostsRemove(tabs[i := t], i, u);
    assert RemoveAt(tabs[i := t], i) == RemoveAt(tabs, i);
  }

  // ---- finding and taking a pane ----

  function IndexIn(panes: seq<Uid>, uid: Uid): (r: Option<nat>)
    ensures r.Some? ==> r.value < |panes| && panes[r.value] == uid
    ensures r.None? ==> uid !in panes
  {
    if panes == [] then None
    else if panes[0] == uid then Some(0)
    else match IndexIn(panes[1..], uid) case Some(i) => Some(i + 1) case None => None
  }

  /** The tab and slot hosting `uid`: the first, tabs in order. */
  function FindPane(tabs: seq<Tab>, uid: Uid): (r: Option<(nat, nat)>)
    ensures r.Some? ==> r.value.0 < |tabs| && r.value.1 < |tabs[r.value.0].panes| && tabs[r.value.0].panes[r.value.1] == uid
    ensures r.Some? <==> Hosts(tabs, uid) > 0
  {
    if tabs == [] then None
    else
      TimesPositive(tabs[0].panes, uid);
      match IndexIn(tabs[0].panes, uid)
      case Some(i) => Some((0, i))
      case None => match FindPane(tabs[1..], uid) case Some(at) => Some((at.0 + 1, at.1)) case None => None
  }

  function FocusAfterTake(t: Tab, idx: nat): nat
    requires idx < |t.panes|
  {
    var left := |t.panes| - 1;
    if left == 0 then 0
    else if t.focused >= left then left - 1
    else if idx < t.focused then t.focused - 1
    else t.focused
  }

  /** The active index once tab `ti` is gone. */
  function ActiveAfterDrop(s: State, ti: nat): nat
    requires |s.tabs| >= 2 && ti < |s.tabs|
  {
    if s.active >= |s.tabs| - 1 then |s.tabs| - 2
    else if ti < s.active then s.active - 1
    else s.active
  }

  /** Takes pane `idx` out of tab `ti` with its session alive. An emptied tab goes too, unless it
      is the app-owned one or the window's last. Also says whether the window still has panes. */
  function TakePane(s: State, ti: nat, idx: nat): (State, bool)
    requires ti < |s.tabs| && idx < |s.tabs[ti].panes|
  {
    var t := s.tabs[ti];
    var left := t.(panes := RemoveAt(t.panes, idx), focused := FocusAfterTake(t, idx));
    if left.panes != [] || t.system then (s.(tabs := s.tabs[ti := left]), true)
    else if |s.tabs| <= 1 then (s.(tabs := s.tabs[ti := left]), false)
    else (s.(tabs := RemoveAt(s.tabs, ti), active := ActiveAfterDrop(s, ti)), true)
  }

  function DetachUid(s: State, uid: Uid): Option<(State, bool)> {
    match FindPane(s.tabs, uid)
    case None => None
    case Some(at) => Some(TakePane(s, at.0, at.1))
  }

  lemma TakePaneOwns(s: State, ti: nat, idx: nat, u: Uid)
    requires ti < |s.tabs| && idx < |s.tabs[ti].panes|
    ensures s.Owns(u) == TakePane(s, ti, idx).0.Owns(u) + One(s.tabs[ti].panes[idx], u)
  {
    var t := s.tabs[ti];
    RemoveTimes(t.panes, idx, u);
    HostsUpdate(s.tabs, ti, t.(panes := RemoveAt(t.panes, idx), focused := FocusAfterTake(t, idx)), u);
    HostsRemove(s.tabs, ti, u);
  }

  lemma TakePaneValid(s: State, ti: nat, idx: nat)
    requires s.Valid() && ti < |s.tabs| && idx < |s.tabs[ti].panes|
    ensures TakePane(s, ti, idx).0.Valid()
  {
  }

  /** Pane `idx` of tab `ti` is out of `s`, and nothing else is. A tab it leaves empty is gone, but for the
      app-owned one and a window's last. The tab looked at stays so, or its right neighbour takes its
      place, or the last; and so the pane focused. */
  ghost predicate Out(s: State, s': State, ti: nat, idx: nat)
    requires s.active < |s.tabs| && ti < |s.tabs| && idx < |s.tabs[ti].panes|
  {
    var t := s.tabs[ti];
    && s'.closed == s.closed && s'.reminders == s.reminders && s'.active < |s'.tabs|
    && if |t.panes| == 1 && !t.system && |s.tabs| > 1 then
         && s'.tabs == s.tabs[..ti] + s.tabs[ti + 1..]
         && (s.active != ti ==> s'.tabs[s'.active] == s.tabs[s.active])
         && (s.active == ti ==> s'.active == if ti + 1 < |s.tabs| then ti else ti - 1)
       else
         && |s'.tabs| == |s.tabs| && s'.active == s.active && (forall k :: 0 <= k < |s.tabs| && k != ti ==> s'.tabs[k] == s.tabs[k])
         && s'.tabs[ti].panes == t.panes[..idx] + t.panes[idx + 1..] && s'.tabs[ti].system == t.system
         && FocusMoved(t, s'.tabs[ti], idx)
  }

  /** The pane focused stays so; if it is the one gone, the pane after it is, or the last. */
  ghost predicate FocusMoved(t: Tab, t': Tab, idx: nat) {
    && (t'.panes != [] ==> t'.focused < |t'.panes|)
    && (t.focused < |t.panes| && t.focused != idx ==> t'.focused < |t'.panes| && t'.panes[t'.focused] == t.panes[t.focused])
    && (t.focused == idx && idx + 1 < |t.panes| ==> t'.focused < |t'.panes| && t'.panes[t'.focused] == t.panes[idx + 1])
    && (t.focused == idx && idx + 1 == |t.panes| && idx > 0 ==> t'.focused == idx - 1)
  }

  /** A pane taken out is out, and the window has panes left unless it was its only one. */
  lemma TakePaneOut(s: State, ti: nat, idx: nat)
    requires s.active < |s.tabs| && ti < |s.tabs| && idx < |s.tabs[ti].panes|
    ensures Out(s, TakePane(s, ti, idx).0, ti, idx)
    ensures TakePane(s, ti, idx).1 <==> |s.tabs| > 1 || |s.tabs[ti].panes| > 1 || s.tabs[ti].system
  {
    var t := s.tabs[ti];
    assert |RemoveAt(t.panes, idx)| == |t.panes| - 1;
  }

  lemma DetachUidOwns(s: State, uid: Uid, u: Uid)
    ensures match DetachUid(s, uid)
      case Some(r) => s.Owns(u) == r.0.Owns(u) + One(uid, u) && (s.Valid() ==> r.0.Valid())
      case None => Hosts(s.tabs, uid) == 0
  {
    match FindPane(s.tabs, uid)
    case Some(at) =>
      TakePaneOwns(s, at.0, at.1, u);
      if s.Valid() { TakePaneValid(s, at.0, at.1); }
    case None =>
  }

  lemma DetachUidValid(s: State, uid: Uid)
    requires s.Valid()
    ensures DetachUid(s, uid).Some? ==> DetachUid(s, uid).value.0.Valid()
  {
    var f := FindPane(s.tabs, uid);
    if f.Some? { TakePaneValid(s, f.value.0, f.value.1); }
  }

  // ---- putting a pane in ----

  function Min(a: nat, b: nat): nat {
    if a < b then a else b
  }

  /** Hosts `uid` in tab `ti` at slot `at`, clamped, and focuses it. */
  function HostIn(s: State, ti: nat, at: nat, uid: Uid): State
    requires ti < |s.tabs|
  {
    var t := s.tabs[ti];
    var slot := Min(at, |t.panes|);
    s.(tabs := s.tabs[ti := t.(panes := InsertAt(t.panes, slot, uid), focused := slot)])
  }

  function AdoptAt(s: State, uid: Uid, at: nat): State
    requires s.active < |s.tabs|
  {
    HostIn(s, s.active, at, uid)
  }

  function Adopt(s: State, uid: Uid): State
    requires s.active < |s.tabs|
  {
    AdoptAt(s, uid, |s.tabs[s.active].panes|)
  }

  function AdoptAsTab(s: State, uid: Uid): State {
    Adopt(s.(tabs := s.tabs + [Tab([], false, 0)], active := |s.tabs|), uid)
  }

  function SwitchTab(s: State, idx: nat): State {
    if idx < |s.tabs| then s.(active := idx) else s
  }

  lemma HostInOwns(s: State, ti: nat, at: nat, uid: Uid, u: Uid)
    requires ti < |s.tabs|
    ensures HostIn(s, ti, at, uid).Owns(u) == s.Owns(u) + One(uid, u)
    ensures s.Valid() ==> HostIn(s, ti, at, uid).Valid()
  {
    var t := s.tabs[ti];
    var slot := Min(at, |t.panes|);
    InsertTimes(t.panes, slot, uid, u);
    HostsUpdate(s.tabs, ti, t.(panes := InsertAt(t.panes, slot, uid), focused := slot), u);
  }

  lemma AdoptAsTabOwns(s: State, uid: Uid, u: Uid)
    ensures AdoptAsTab(s, uid).Owns(u) == s.Owns(u) + One(uid, u)
    ensures s.Valid() ==> AdoptAsTab(s, uid).Valid()
  {
    var bare := Tab([], false, 0);
    HostsAppend(s.tabs, [bare], u);
    HostInOwns(s.(tabs := s.tabs + [bare], active := |s.tabs|), |s.tabs|, 0, uid, u);
  }

  // ---- reordering ----

  /** The slot a move aimed before slot `to` ends in, once the mover is out of the way. */
  function Landing(from: nat, to: nat): nat {
    if to > from then to - 1 else to
  }

  function Moved<T>(s: seq<T>, from: nat, dest: nat): seq<T>
    requires from < |s| && dest < |s|
  {
    InsertAt(RemoveAt(s, from), dest, s[from])
  }

  lemma MovedIs<T>(s: seq<T>, from: nat, dest: nat)
    requires from < |s| && dest < |s|
    ensures |Moved(s, from, dest)| == |s| && Moved(s, from, dest)[dest] == s[from]
    ensures forall i :: 0 <= i < |s| && i != from ==> Moved(s, from, dest)[Shifted(i, from, dest)] == s[i]
  {
  }

  /** A move permutes: its inverse move restores the sequence. */
  lemma MovedBack<T>(s: seq<T>, from: nat, dest: nat)
    requires from < |s| && dest < |s|
    ensures Moved(Moved(s, from, dest), dest, from) == s
  {
    assert RemoveAt(Moved(s, from, dest), dest) == RemoveAt(s, from);
  }

  /** Where the element at `i` lands when `from` moves to `dest`. */
  function Shifted(i: int, from: nat, dest: nat): int {
    if i == from then dest
    else
      var a := if from < i then i - 1 else i;
      if dest <= a then a + 1 else a
  }

  function ReorderPaneIn(s: State, ti: nat, from: nat, to: nat): State {
    if ti >= |s.tabs| || from >= |s.tabs[ti].panes| || to > |s.tabs[ti].panes| || Landing(from, to) == from then s
    else
      var t, dest := s.tabs[ti], Landing(from, to);
      s.(tabs := s.tabs[ti := t.(panes := Moved(t.panes, from, dest), focused := dest)])
  }

  lemma ReorderPaneOwns(s: State, ti: nat, from: nat, to: nat, u: Uid)
    ensures ReorderPaneIn(s, ti, from, to).Owns(u) == s.Owns(u)
    ensures s.Valid() ==> ReorderPaneIn(s, ti, from, to).Valid()
  {
    if ti < |s.tabs| && from < |s.tabs[ti].panes| && to <= |s.tabs[ti].panes| && Landing(from, to) != from {
      var t, dest := s.tabs[ti], Landing(from, to);
      RemoveTimes(t.panes, from, u);
      InsertTimes(RemoveAt(t.panes, from), dest, t.panes[from], u);
      HostsUpdate(s.tabs, ti, t.(panes := Moved(t.panes, from, dest), focused := dest), u);
    }
  }

  /** The insertion index that makes a pane take the tile at `dest`. */
  function InsertionFor(from: nat, dest: nat): nat {
    if dest >= from then dest + 1 else dest
  }

  /** Whatever tile is pointed at, the dragged pane takes it, and pointing again does nothing. */
  lemma PaneTakesTile(s: State, ti: nat, from: nat, dest: nat)
    requires ti < |s.tabs| && from < |s.tabs[ti].panes| && dest < |s.tabs[ti].panes|
    ensures var s' := ReorderPaneIn(s, ti, from, InsertionFor(from, dest));
      && s'.tabs[ti].panes[dest] == s.tabs[ti].panes[from]
      && ReorderPaneIn(s', ti, dest, InsertionFor(dest, dest)) == s'
  {
    MovedIs(s.tabs[ti].panes, from, dest);
  }

  /** Moves tab `from` before slot `to`, keeping the same tab active, and says where it landed. The
      app-owned tab neither moves nor is displaced. */
  function ReorderTab(s: State, from: nat, to: nat): (State, nat) {
    if from >= |s.tabs| || to > |s.tabs| || s.tabs[from].system then (s, from)
    else
      var aimed := Landing(from, to);
      var dest := if aimed == 0 && s.tabs[0].system then 1 else aimed;
      if dest == from then (s, from)
      else (s.(tabs := Moved(s.tabs, from, dest), active := ActiveAfterMove(s, from, dest)), dest)
  }

  function ActiveAfterMove(s: State, from: nat, dest: nat): nat
    requires from < |s.tabs|
  {
    if s.active == from then dest
    else
      var a := if from < s.active then s.active - 1 else s.active;
      Min(if dest <= a then a + 1 else a, |s.tabs| - 1)
  }

  /** Wherever it is aimed, a tab move permutes the strip, reports where the tab really is, shows the
      same tab as before and leaves the app-owned tab first. */
  lemma ReorderTabTracks(s: State, from: nat, to: nat)
    requires s.Valid() && from < |s.tabs|
    ensures var (s', at) := ReorderTab(s, from, to);
      && |s'.tabs| == |s.tabs| && at < |s'.tabs| && s'.tabs[at] == s.tabs[from]
      && s'.tabs == Moved(s.tabs, from, at) && Moved(s'.tabs, at, from) == s.tabs
      && s'.Valid() && s'.tabs[s'.active] == s.tabs[s.active] && (s.tabs[0].system ==> s'.tabs[0] == s.tabs[0])
  {
    var (s', at) := ReorderTab(s, from, to);
    MovedIs(s.tabs, from, at);
    MovedBack(s.tabs, from, at);
    MovedNowhere(s.tabs, from);
    if at != from {
      MovedActive(s, from, at);
      MovedSystem(s.tabs, from, at);
    }
  }

  /** A tab lands just before the tab that stood at the slot aimed at, or last, or, aimed at the
      app-owned tab, right behind it; every other tab keeps its place among the rest. The app-owned tab
      does not move, nor does a tab aimed past the end. */
  lemma ReorderTabLands(s: State, from: nat, to: nat)
    requires s.Valid() && from < |s.tabs|
    ensures var (s', at) := ReorderTab(s, from, to);
      if to > |s.tabs| || s.tabs[from].system then s' == s && at == from
      else
        && at == (if to == 0 && s.tabs[0].system then 1 else if to > from then to - 1 else to)
        && at < |s'.tabs| == |s.tabs|
        && s'.tabs[..at] + s'.tabs[at + 1..] == s.tabs[..from] + s.tabs[from + 1..]
        && (to < |s.tabs| && to != from && !(to == 0 && s.tabs[0].system) ==> at + 1 < |s'.tabs| && s'.tabs[at + 1] == s.tabs[to])
        && (to == |s.tabs| ==> at == |s.tabs| - 1)
        && s'.closed == s.closed && s'.reminders == s.reminders
  {
    var (s', at) := ReorderTab(s, from, to);
    if to <= |s.tabs| && !s.tabs[from].system {
      MovedNowhere(s.tabs, from);
      var rest := RemoveAt(s.tabs, from);
      assert s'.tabs == rest[..at] + [s.tabs[from]] + rest[at..];
      assert s'.tabs[..at] == rest[..at] && s'.tabs[at + 1..] == rest[at..];
    }
  }

  lemma MovedActive(s: State, from: nat, at: nat)
    requires s.active < |s.tabs| && from < |s.tabs| && at < |s.tabs|
    ensures ActiveAfterMove(s, from, at) < |s.tabs|
    ensures Moved(s.tabs, from, at)[ActiveAfterMove(s, from, at)] == s.tabs[s.active]
  {
    MovedIs(s.tabs, from, at);
    hide Moved;
    if s.active != from { assert Shifted(s.active, from, at) == ActiveAfterMove(s, from, at); }
  }

  /** A move that neither takes nor displaces the app-owned tab keeps it first and only. */
  lemma MovedSystem(tabs: seq<Tab>, from: nat, at: nat)
    requires from < |tabs| && at < |tabs|
    requires forall i :: 0 < i < |tabs| ==> !tabs[i].system
    requires !tabs[from].system && (tabs[0].system ==> at != 0)
    ensures tabs[0].system ==> Moved(tabs, from, at)[0] == tabs[0]
    ensures forall i :: 0 < i < |tabs| ==> !Moved(tabs, from, at)[i].system
  {
    MovedIs(tabs, from, at);
    hide Moved;
    if tabs[0].system { assert Shifted(0, from, at) == 0; }
    forall i | 0 < i < |tabs| ensures !Moved(tabs, from, at)[i].system {
      ShiftedBack(i, from, at, |tabs|);
      if i != at { assert Moved(tabs, from, at)[i] == tabs[Shifted(i, at, from)]; }
    }
  }

  lemma MovedNowhere<T>(s: seq<T>, i: nat)
    requires i < |s|
    ensures Moved(s, i, i) == s
  {
  }

  lemma ShiftedBack(i: nat, from: nat, dest: nat, n: nat)
    requires i < n && from < n && dest < n
    ensures Shifted(Shifted(i, dest, from), from, dest) == i
    ensures i != dest ==> Shifted(i, dest, from) != from
    ensures 0 <= Shifted(i, dest, from) < n
    ensures Shifted(i, dest, from) == 0 && from != 0 && dest != 0 ==> i == 0
  {
  }

  lemma MovedHosts(tabs: seq<Tab>, from: nat, dest: nat, u: Uid)
    requires from < |tabs| && dest < |tabs|
    ensures Hosts(Moved(tabs, from, dest), u) == Hosts(tabs, u)
  {
    HostsRemove(tabs, from, u);
    HostsInsert(RemoveAt(tabs, from), dest, tabs[from], u);
  }

  lemma ReorderTabOwns(s: State, from: nat, to: nat, u: Uid)
    ensures ReorderTab(s, from, to).0.Owns(u) == s.Owns(u)
    ensures s.Valid() ==> ReorderTab(s, from, to).0.Valid()
  {
    var (s', at) := ReorderTab(s, from, to);
    if s' != s {
      MovedHosts(s.tabs, from, at, u);
      if s.Valid() { ReorderTabTracks(s, from, to); }
    }
  }

  // ---- whole tabs ----

  /** Takes tab `idx` out, with the active index fixed up. */
  function DetachTabUnchecked(s: State, idx: nat): (Tab, State)
    requires idx < |s.tabs|
  {
    var tabs := RemoveAt(s.tabs, idx);
    var active := if s.active >= |tabs| then (if |tabs| == 0 then 0 else |tabs| - 1)
                  else if idx < s.active then s.active - 1
                  else s.active;
    (s.tabs[idx], s.(tabs := tabs, active := active))
  }

  /** An ordinary tab can leave a window that keeps another; the app-owned one cannot. */
  function DetachTab(s: State, idx: nat): Option<(Tab, State)> {
    if idx >= |s.tabs| || |s.tabs| < 2 || s.tabs[idx].system then None else Some(DetachTabUnchecked(s, idx))
  }

  function TakeSystemTab(s: State): Option<(Tab, State)> {
    if s.tabs != [] && s.tabs[0].system then Some(DetachTabUnchecked(s, 0)) else None
  }

  /** Re-homes a lifted app-owned tab: first and pinned where the window has none of its own, an
      ordinary last tab where it has. The tab being looked at stays. */
  function AdoptSystemTab(s: State, tab: Tab): State
    requires s.tabs != []
  {
    if s.tabs[0].system then s.(tabs := s.tabs + [tab.(system := false)])
    else s.(tabs := [tab.(system := true)] + s.tabs, active := s.active + 1)
  }

  lemma DetachTabOwns(s: State, idx: nat, u: Uid)
    requires idx < |s.tabs|
    ensures s.Owns(u) == DetachTabUnchecked(s, idx).1.Owns(u) + Times(s.tabs[idx].panes, u)
    ensures s.Valid() && |s.tabs| >= 2 ==> DetachTabUnchecked(s, idx).1.Valid()
  {
    HostsRemove(s.tabs, idx, u);
  }

  lemma AdoptSystemTabOwns(s: State, tab: Tab, u: Uid)
    requires s.tabs != []
    ensures AdoptSystemTab(s, tab).Owns(u) == s.Owns(u) + Times(tab.panes, u)
  {
    HostsAppend(s.tabs, [tab.(system := false)], u);
    HostsAppend([tab.(system := true)], s.tabs, u);
  }

  /** Some tab shows exactly `panes`. */
  ghost predicate Shows(tabs: seq<Tab>, panes: seq<Uid>) {
    exists i :: 0 <= i < |tabs| && tabs[i].panes == panes
  }

  /** Re-homing leaves the window with its one app-owned tab first and still looking at the same
      tab. */
  lemma AdoptSystemTabKeeps(s: State, tab: Tab)
    requires s.Valid()
    ensures var s' := AdoptSystemTab(s, tab);
      s'.Valid() && s'.tabs[0].system && s'.tabs[s'.active] == s.tabs[s.active]
  {
  }

  /** Re-homing keeps the tab's panes together, and keeps every tab that was there. */
  lemma AdoptSystemTabShows(s: State, tab: Tab, panes: seq<Uid>)
    requires s.tabs != []
    requires Shows(s.tabs, panes) || panes == tab.panes
    ensures Shows(AdoptSystemTab(s, tab).tabs, panes)
  {
    var s' := AdoptSystemTab(s, tab);
    var shift, new' := if s.tabs[0].system then 0 else 1, if s.tabs[0].system then |s.tabs| else 0;
    if panes == tab.panes {
      assert s'.tabs[new'].panes == panes;
    } else {
      var i :| 0 <= i < |s.tabs| && s.tabs[i].panes == panes;
      assert s'.tabs[i + shift] == s.tabs[i];
    }
  }

  /** Fills a new window's first tab with a detached tab's panes, as an ordinary tab. */
  function SeedTab(tab: Tab): State {
    State([tab.(system := false)], 0, [], [])
  }

  lemma SeedOwns(tab: Tab, uid: Uid, u: Uid)
    ensures SeedTab(tab).Valid() && SeedTab(tab).Owns(u) == Times(tab.panes, u)
    ensures Adopt(EMPTY_WINDOW, uid).Valid() && Adopt(EMPTY_WINDOW, uid).Owns(u) == One(uid, u)
  {
    HostInOwns(EMPTY_WINDOW, 0, 0, uid, u);
    assert EMPTY_WINDOW.tabs[1..] == [];
    var t := tab.(system := false);
    assert [t][1..] == [] && SeedTab(tab).tabs == [t] && SeedTab(tab).Parked() == [];
    assert Hosts([t], u) == Times(t.panes, u) + Hosts([], u);
  }

  // ---- moves within a window ----

  /** An emptied app-owned tab is given a new shell. */
  function Reseed(s: State, shell: Uid): State {
    if s.tabs != [] && s.tabs[0].system && s.tabs[0].panes == [] then HostIn(s, 0, 0, shell) else s
  }

  predicate Reseeds(s: State) {
    s.tabs != [] && s.tabs[0].system && s.tabs[0].panes == []
  }

  /** The tabs of `s` with the app-owned one, if it is empty, holding `shell`. */
  ghost predicate Refilled(tabs: seq<Tab>, tabs': seq<Tab>, shell: Uid) {
    if tabs != [] && tabs[0].system && tabs[0].panes == [] then tabs' == [Tab([shell], true, 0)] + tabs[1..] else tabs' == tabs
  }

  lemma ReseedRefills(s: State, shell: Uid)
    ensures Refilled(s.tabs, Reseed(s, shell).tabs, shell) && Reseed(s, shell).active == s.active
    ensures Reseed(s, shell).closed == s.closed && Reseed(s, shell).reminders == s.reminders
  {
    if Reseeds(s) { assert InsertAt([], 0, shell) == [shell]; }
  }

  lemma ReseedOwns(s: State, shell: Uid, u: Uid)
    ensures Reseed(s, shell).Owns(u) == s.Owns(u) + if Reseeds(s) then One(shell, u) else 0
    ensures s.Valid() ==> Reseed(s, shell).Valid()
  {
    if Reseeds(s) { HostInOwns(s, 0, 0, shell, u); }
  }

  /** Moves pane `idx` of tab `from` to the end of tab `target`, wherever the target is once an
      emptied source tab is gone, and then to slot `at` of it. */
  function MoveBetweenTabsAt(s: State, from: nat, idx: nat, target: nat, at: nat, shell: Uid): State {
    if from >= |s.tabs| || target >= |s.tabs| || from == target || idx >= |s.tabs[from].panes| then s
    else
      var taken := TakePane(s, from, idx).0;
      var ti := if |taken.tabs| < |s.tabs| && from < target then target - 1 else target;
      if ti >= |taken.tabs| then taken
      else
        var uid, n := s.tabs[from].panes[idx], |taken.tabs[ti].panes|;
        var hosted := taken.(tabs := taken.tabs[ti := taken.tabs[ti].(panes := taken.tabs[ti].panes + [uid])]);
        ReorderPaneIn(Reseed(hosted, shell), ti, n, Min(at, n))
  }

  /** The move happens and leaves the app-owned tab empty, so a new shell is made for it. */
  predicate MoveReseeds(s: State, from: nat, idx: nat, target: nat) {
    && from < |s.tabs| && target < |s.tabs| && from != target && idx < |s.tabs[from].panes|
    && s.tabs[0].system && target != 0 && |s.tabs[0].panes| == (if from == 0 then 1 else 0)
  }

  lemma AppendedOwns(s: State, ti: nat, uid: Uid, u: Uid)
    requires s.Valid() && ti < |s.tabs|
    ensures var s' := s.(tabs := s.tabs[ti := s.tabs[ti].(panes := s.tabs[ti].panes + [uid])]);
      s'.Valid() && s'.Owns(u) == s.Owns(u) + One(uid, u)
  {
    var t := s.tabs[ti].(panes := s.tabs[ti].panes + [uid]);
    TimesAppend(s.tabs[ti].panes, [uid], u);
    HostsUpdate(s.tabs, ti, t, u);
  }

  /** A move empties the app-owned tab exactly when `MoveReseeds` says so. */
  lemma MoveEmpties(s: State, from: nat, idx: nat, target: nat)
    requires s.Valid() && from < |s.tabs| && target < |s.tabs| && from != target && idx < |s.tabs[from].panes|
    ensures var taken := TakePane(s, from, idx).0;
      var ti := if |taken.tabs| < |s.tabs| && from < target then target - 1 else target;
      && ti < |taken.tabs|
      && (Reseeds(taken.(tabs := taken.tabs[ti := taken.tabs[ti].(panes := taken.tabs[ti].panes + [s.tabs[from].panes[idx]])]))
          <==> MoveReseeds(s, from, idx, target))
  {
  }

  lemma MoveBetweenTabsOwns(s: State, from: nat, idx: nat, target: nat, at: nat, shell: Uid, u: Uid)
    requires s.Valid()
    ensures MoveBetweenTabsAt(s, from, idx, target, at, shell).Valid()
    ensures MoveBetweenTabsAt(s, from, idx, target, at, shell).Owns(u)
         == s.Owns(u) + if MoveReseeds(s, from, idx, target) then One(shell, u) else 0
  {
    if from < |s.tabs| && target < |s.tabs| && from != target && idx < |s.tabs[from].panes| {
      var taken := TakePane(s, from, idx).0;
      TakePaneOwns(s, from, idx, u);
      TakePaneValid(s, from, idx);
      MoveEmpties(s, from, idx, target);
      hide TakePane, State.Owns, State.Valid, ReorderPaneIn, Reseed, Reseeds, MoveReseeds;
      var ti := if |taken.tabs| < |s.tabs| && from < target then target - 1 else target;
      var uid, n := s.tabs[from].panes[idx], |taken.tabs[ti].panes|;
      var t := taken.tabs[ti].(panes := taken.tabs[ti].panes + [uid]);
      var hosted := taken.(tabs := taken.tabs[ti := t]);
      AppendedOwns(taken, ti, uid, u);
      ReseedOwns(hosted, shell, u);
      ReorderPaneOwns(Reseed(hosted, shell), ti, n, Min(at, n), u);
    } else {
      hide State.Owns;
    }
  }

  /** The moved pane is in the target tab at the slot asked for, wherever the tab now stands. */
  lemma MoveBetweenTabsLands(s: State, from: nat, idx: nat, target: nat, at: nat, shell: Uid)
    requires s.Valid() && from < |s.tabs| && target < |s.tabs| && from != target && idx < |s.tabs[from].panes|
    ensures var s', was := MoveBetweenTabsAt(s, from, idx, target, at, shell), s.tabs[target].panes;
      var ti := if |s'.tabs| < |s.tabs| && from < target then target - 1 else target;
      ti < |s'.tabs| && s'.tabs[ti].panes == InsertAt(was, Min(at, |was|), s.tabs[from].panes[idx])
  {
    var taken := TakePane(s, from, idx).0;
    var ti := if |taken.tabs| < |s.tabs| && from < target then target - 1 else target;
    var uid, was := s.tabs[from].panes[idx], s.tabs[target].panes;
    assert taken.tabs[ti].panes == was;
    var hosted := taken.(tabs := taken.tabs[ti := taken.tabs[ti].(panes := was + [uid])]);
    var seeded := Reseed(hosted, shell);
    assert seeded.tabs[ti].panes == was + [uid];
    assert RemoveAt(was + [uid], |was|) == was;
    assert InsertAt(was, |was|, uid) == was + [uid];
  }
}
