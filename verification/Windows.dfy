/** The open windows: where a dropped pane goes, the commands that tear panes and tabs out into
    new windows, and reaping closed ones. Sessions are followed one uid at a time: `Total` counts
    how often the windows hold a session. */
module Windows {
  import opened Wrappers
  import opened Workspace

  datatype Win = Win(id: nat, state: State, closing: bool)

  function Total(ws: seq<Win>, u: Uid): nat {
    if ws == [] then 0 else ws[0].state.Owns(u) + Total(ws[1..], u)
  }

  ghost predicate Wellformed(ws: seq<Win>, next: nat) {
    && (forall i :: 0 <= i < |ws| ==> ws[i].state.Valid() && ws[i].id < next)
    && (forall i, j :: 0 <= i < j < |ws| ==> ws[i].id != ws[j].id)
  }

  function ById(ws: seq<Win>, id: nat): (r: Option<nat>)
    ensures r.Some? ==> r.value < |ws| && ws[r.value].id == id
    ensures r.None? ==> forall i :: 0 <= i < |ws| ==> ws[i].id != id
  {
    if ws == [] then None
    else if ws[0].id == id then Some(0)
    else match ById(ws[1..], id)
      case Some(i) => Some(i + 1)
      case None => assert forall i :: 0 < i < |ws| ==> ws[i] == ws[1..][i - 1]; None
  }

  function Put(ws: seq<Win>, i: nat, s: State): seq<Win>
    requires i < |ws|
  {
    ws[i := ws[i].(state := s)]
  }

  lemma {:induction false} TotalAppend(a: seq<Win>, b: seq<Win>, u: Uid)
    ensures Total(a + b, u) == Total(a, u) + Total(b, u)
  {
    if a == [] {
      assert a + b == b;
    } else {
      assert (a + b)[1..] == a[1..] + b;
      TotalAppend(a[1..], b, u);
    }
  }

  lemma TotalUpdate(ws: seq<Win>, i: nat, w: Win, u: Uid)
    requires i < |ws|
    ensures Total(ws[i := w], u) + ws[i].state.Owns(u) == Total(ws, u) + w.state.Owns(u)
  {
    assert ws == ws[..i] + ([ws[i]] + ws[i + 1..]) && ws[i := w] == ws[..i] + ([w] + ws[i + 1..]);
    TotalAppend(ws[..i], [ws[i]] + ws[i + 1..], u);
    TotalAppend(ws[..i], [w] + ws[i + 1..], u);
    assert ([ws[i]] + ws[i + 1..])[1..] == ws[i + 1..] && ([w] + ws[i + 1..])[1..] == ws[i + 1..];
  }

  lemma TotalPush(ws: seq<Win>, w: Win, u: Uid)
    ensures Total(ws + [w], u) == Total(ws, u) + w.state.Owns(u)
  {
    TotalAppend(ws, [w], u);
    assert [w][1..] == [];
  }

  // ---- where a drop lands ----

  /** What the pointer is over when the button comes up. `dropTab` and `dropSlot` are the workspace
      tree's own answer, negative where it is over no group. */
  datatype Hover = Hover(win: Option<nat>, overStrip: bool, overLeftPanel: bool, dropTab: int, dropSlot: int,
                         tabOver: Option<nat>, paneIdx: Option<nat>, slotIndex: nat)

  /** How the receiving window takes a pane in. */
  datatype Place = Here(at: nat) | Dock(tab: nat) | DockAt(tab: nat, at: nat) | OwnTab

  function Host(s: State, uid: Uid, place: Place): State
    requires s.active < |s.tabs|
  {
    match place
    case Here(at) => AdoptAt(s, uid, at)
    case Dock(tab) => Adopt(SwitchTab(s, tab), uid)
    case DockAt(tab, at) => AdoptAt(SwitchTab(s, tab), uid, at)
    case OwnTab => AdoptAsTab(s, uid)
  }

  function Clamp(slot: int): nat {
    if slot < 0 then 0 else slot
  }

  /** Dropped in the workspace tree of its own window. */
  function InTree(s: State, uid: Uid, tab: nat, at: nat, shell: Uid): State {
    match FindPane(s.tabs, uid)
    case None => s
    case Some(f) => if f.0 == tab then ReorderPaneIn(s, tab, f.1, at) else MoveBetweenTabsAt(s, f.0, f.1, tab, at, shell)
  }

  /** Dropped on the tab strip of its own window: on a chip it docks into that tab, beside the chips
      it gets a tab of its own. */
  function OnStrip(s: State, uid: Uid, tabOver: Option<nat>): State
    requires s.Valid()
  {
    match tabOver
    case Some(ti) =>
      DetachUidValid(SwitchTab(s, ti), uid);
      (match DetachUid(SwitchTab(s, ti), uid) case None => SwitchTab(s, ti) case Some(d) => Adopt(d.0, uid))
    case None =>
      (match DetachUid(s, uid) case None => s case Some(d) => AdoptAsTab(d.0, uid))
  }

  /** Dropped on the panes of its own window. */
  function OnTiles(s: State, uid: Uid, paneIdx: Option<nat>, slot: nat): State
    requires s.Valid()
  {
    match paneIdx
    case None => s
    case Some(dest) =>
      match IndexIn(s.tabs[s.active].panes, uid)
      case Some(from) => ReorderPaneIn(s, s.active, from, InsertionFor(from, dest))
      case None =>
        DetachUidValid(s, uid);
        match DetachUid(s, uid) case None => s case Some(d) => AdoptAt(d.0, uid, slot)
  }

  /** Takes the pane out of window `i`, which starts closing if that leaves it nothing, and hands it
      to window `j` where there is one. */
  function Across(ws: seq<Win>, i: nat, j: Option<nat>, uid: Uid, place: Place): seq<Win>
    requires i < |ws| && (j.Some? ==> j.value < |ws| && j.value != i && ws[j.value].state.Valid())
  {
    match DetachUid(ws[i].state, uid)
    case None => ws
    case Some(d) =>
      var left := ws[i := ws[i].(state := d.0, closing := ws[i].closing || !d.1)];
      match j case None => left case Some(k) => Put(left, k, Host(left[k].state, uid, place))
  }

  /** A new window over `seed`, where the system can make one. */
  function Spawn(ws: seq<Win>, next: nat, seed: State, opens: bool): seq<Win> {
    if opens then ws + [Win(next, seed, false)] else ws
  }

  function Torn(ws: seq<Win>, next: nat, i: nat, uid: Uid, opens: bool): seq<Win>
    requires i < |ws|
  {
    match DetachUid(ws[i].state, uid)
    case None => ws
    case Some(d) =>
      Spawn(ws[i := ws[i].(state := d.0, closing := ws[i].closing || !d.1)], next, Adopt(EMPTY_WINDOW, uid), opens)
  }

  /** Where the pane goes when it is dropped over another window. */
  function PlaceAcross(h: Hover): Place {
    if h.overStrip then (match h.tabOver case Some(ti) => Dock(ti) case None => OwnTab) else Here(h.slotIndex)
  }

  /** The windows after pane `uid` of window `i` is dropped. */
  function Dropped(ws: seq<Win>, next: nat, i: nat, uid: Uid, h: Hover, opens: bool, shell: Uid): seq<Win>
    requires Wellformed(ws, next) && i < |ws|
  {
    var s := ws[i].state;
    match h.win
    case None => if h.overLeftPanel then ws else Torn(ws, next, i, uid, opens)
    case Some(id) =>
      if h.overLeftPanel then
        match ById(ws, id)
        case None => ws
        case Some(j) =>
          if h.dropTab < 0 then ws
          else if id == ws[i].id then Put(ws, i, InTree(s, uid, h.dropTab, Clamp(h.dropSlot), shell))
          else Across(ws, i, Some(j), uid, DockAt(h.dropTab, Clamp(h.dropSlot)))
      else if id == ws[i].id then
        Put(ws, i, if h.overStrip then OnStrip(s, uid, h.tabOver) else OnTiles(s, uid, h.paneIdx, h.slotIndex))
      else Across(ws, i, ById(ws, id), uid, PlaceAcross(h))
  }

  /** The drop takes a pane out with nowhere to put it: the window it was dropped on is gone, or no
      new window could be made for it. */
  predicate Drops(ws: seq<Win>, i: nat, uid: Uid, h: Hover, opens: bool)
    requires i < |ws|
  {
    && FindPane(ws[i].state.tabs, uid).Some? && !h.overLeftPanel
    && (match h.win case None => !opens case Some(id) => ById(ws, id).None?)
  }

  /** The drop empties the app-owned tab through the workspace tree, so a shell is made for it. */
  predicate DropReseeds(ws: seq<Win>, i: nat, uid: Uid, h: Hover)
    requires i < |ws|
  {
    && h.overLeftPanel && h.win == Some(ws[i].id) && h.dropTab >= 0
    && (match FindPane(ws[i].state.tabs, uid)
        case None => false
        case Some(f) => MoveReseeds(ws[i].state, f.0, f.1, h.dropTab))
  }

  // ---- every drop conserves the sessions ----

  lemma HostOwns(s: State, uid: Uid, place: Place, u: Uid)
    requires s.Valid()
    ensures Host(s, uid, place).Valid() && Host(s, uid, place).Owns(u) == s.Owns(u) + One(uid, u)
  {
    match place {
      case Here(at) => HostInOwns(s, s.active, at, uid, u);
      case Dock(tab) =>
        var t := SwitchTab(s, tab);
        HostInOwns(t, t.active, |t.tabs[t.active].panes|, uid, u);
      case DockAt(tab, at) =>
        var t := SwitchTab(s, tab);
        HostInOwns(t, t.active, at, uid, u);
      case OwnTab => AdoptAsTabOwns(s, uid, u);
    }
  }

  lemma InTreeOwns(s: State, uid: Uid, tab: nat, at: nat, shell: Uid, u: Uid)
    requires s.Valid()
    ensures InTree(s, uid, tab, at, shell).Valid()
    ensures InTree(s, uid, tab, at, shell).Owns(u) == s.Owns(u)
      + match FindPane(s.tabs, uid)
        case None => 0
        case Some(f) => if MoveReseeds(s, f.0, f.1, tab) then One(shell, u) else 0
  {
    match FindPane(s.tabs, uid)
    case None =>
    case Some(f) =>
      ReorderPaneOwns(s, tab, f.1, at, u);
      MoveBetweenTabsOwns(s, f.0, f.1, tab, at, shell, u);
  }

  lemma OnStripOwns(s: State, uid: Uid, tabOver: Option<nat>, u: Uid)
    requires s.Valid()
    ensures OnStrip(s, uid, tabOver).Valid() && OnStrip(s, uid, tabOver).Owns(u) == s.Owns(u)
  {
    hide DetachUid, AdoptAsTab, AdoptAt;
    match tabOver {
      case Some(ti) =>
        var t := SwitchTab(s, ti);
        DetachUidOwns(t, uid, u);
        match DetachUid(t, uid) {
          case None =>
          case Some(d) => HostOwns(d.0, uid, Here(|d.0.tabs[d.0.active].panes|), u);
        }
      case None =>
        DetachUidOwns(s, uid, u);
        match DetachUid(s, uid) {
          case None =>
          case Some(d) => AdoptAsTabOwns(d.0, uid, u);
        }
    }
  }

  lemma OnTilesOwns(s: State, uid: Uid, paneIdx: Option<nat>, slot: nat, u: Uid)
    requires s.Valid()
    ensures OnTiles(s, uid, paneIdx, slot).Valid() && OnTiles(s, uid, paneIdx, slot).Owns(u) == s.Owns(u)
  {
    hide DetachUid, AdoptAt, ReorderPaneIn;
    match paneIdx {
      case None =>
      case Some(dest) =>
        match IndexIn(s.tabs[s.active].panes, uid) {
          case Some(from) => ReorderPaneOwns(s, s.active, from, InsertionFor(from, dest), u);
          case None =>
            DetachUidOwns(s, uid, u);
            match DetachUid(s, uid) {
              case None =>
              case Some(d) => HostOwns(d.0, uid, Here(slot), u);
            }
        }
    }
  }

  /** One window replaced by a well-formed state that keeps its sessions, but for `extra` new ones. */
  lemma PutOwns(ws: seq<Win>, next: nat, i: nat, s: State, u: Uid, extra: nat)
    requires Wellformed(ws, next) && i < |ws| && s.Valid() && s.Owns(u) == ws[i].state.Owns(u) + extra
    ensures Wellformed(Put(ws, i, s), next) && Total(Put(ws, i, s), u) == Total(ws, u) + extra
  {
    TotalUpdate(ws, i, ws[i].(state := s), u);
  }

  /** The pane out of window `i`: the windows hold it once less. */
  lemma TakenOwns(ws: seq<Win>, next: nat, i: nat, uid: Uid, u: Uid)
    requires Wellformed(ws, next) && i < |ws| && DetachUid(ws[i].state, uid).Some?
    ensures var d := DetachUid(ws[i].state, uid).value;
      var left := ws[i := ws[i].(state := d.0, closing := ws[i].closing || !d.1)];
      Wellformed(left, next) && Total(left, u) + One(uid, u) == Total(ws, u)
  {
    var d := DetachUid(ws[i].state, uid).value;
    DetachUidOwns(ws[i].state, uid, u);
    TotalUpdate(ws, i, ws[i].(state := d.0, closing := ws[i].closing || !d.1), u);
  }

  lemma AcrossOwns(ws: seq<Win>, next: nat, i: nat, j: Option<nat>, uid: Uid, place: Place, u: Uid)
    requires Wellformed(ws, next) && i < |ws| && (j.Some? ==> j.value < |ws| && j.value != i)
    ensures Wellformed(Across(ws, i, j, uid, place), next)
    ensures Total(Across(ws, i, j, uid, place), u)
         + (if j.None? && FindPane(ws[i].state.tabs, uid).Some? then One(uid, u) else 0) == Total(ws, u)
  {
    hide Host, Wellformed, TakePane;
    match DetachUid(ws[i].state, uid)
    case None =>
    case Some(d) =>
      TakenOwns(ws, next, i, uid, u);
      var left := ws[i := ws[i].(state := d.0, closing := ws[i].closing || !d.1)];
      match j {
        case None =>
        case Some(k) =>
          WellformedAt(left, next, k);
          HostOwns(left[k].state, uid, place, u);
          PutOwns(left, next, k, Host(left[k].state, uid, place), u, One(uid, u));
      }
  }

  lemma WellformedAt(ws: seq<Win>, next: nat, i: nat)
    requires Wellformed(ws, next) && i < |ws|
    ensures ws[i].state.Valid() && ws[i].id < next
  {
  }

  lemma SpawnOwns(ws: seq<Win>, next: nat, seed: State, opens: bool, u: Uid)
    requires Wellformed(ws, next) && seed.Valid()
    ensures Wellformed(Spawn(ws, next, seed, opens), next + 1)
    ensures Total(Spawn(ws, next, seed, opens), u) == Total(ws, u) + if opens then seed.Owns(u) else 0
  {
    TotalPush(ws, Win(next, seed, false), u);
  }

  lemma TornOwns(ws: seq<Win>, next: nat, i: nat, uid: Uid, opens: bool, u: Uid)
    requires Wellformed(ws, next) && i < |ws|
    ensures Wellformed(Torn(ws, next, i, uid, opens), next + 1)
    ensures Total(Torn(ws, next, i, uid, opens), u)
         + (if !opens && FindPane(ws[i].state.tabs, uid).Some? then One(uid, u) else 0) == Total(ws, u)
  {
    match DetachUid(ws[i].state, uid)
    case None =>
    case Some(d) =>
      hide Adopt, TakePane;
      TakenOwns(ws, next, i, uid, u);
      SeedOwns(Tab([], false, 0), uid, u);
      var left := ws[i := ws[i].(state := d.0, closing := ws[i].closing || !d.1)];
      SpawnOwns(left, next, Adopt(EMPTY_WINDOW, uid), opens, u);
  }

  lemma WellformedMore(ws: seq<Win>, next: nat)
    requires Wellformed(ws, next)
    ensures Wellformed(ws, next + 1)
  {
  }

  /** Dropped in a workspace tree. */
  lemma PanelConserves(ws: seq<Win>, next: nat, i: nat, uid: Uid, h: Hover, opens: bool, shell: Uid, u: Uid)
    requires Wellformed(ws, next) && i < |ws| && h.overLeftPanel
    ensures var ws' := Dropped(ws, next, i, uid, h, opens, shell);
      Wellformed(ws', next) && Total(ws', u) == Total(ws, u) + (if DropReseeds(ws, i, uid, h) then One(shell, u) else 0)
  {
    hide Total, Across, InTree, State.Owns, MoveReseeds, FindPane;
    var s := ws[i].state;
    if h.win.Some? && h.dropTab >= 0 && ById(ws, h.win.value).Some? {
      var tab, at := h.dropTab, Clamp(h.dropSlot);
      if h.win.value == ws[i].id {
        InTreeOwns(s, uid, tab, at, shell, u);
        PutOwns(ws, next, i, InTree(s, uid, tab, at, shell), u, if DropReseeds(ws, i, uid, h) then One(shell, u) else 0);
      } else {
        AcrossOwns(ws, next, i, ById(ws, h.win.value), uid, DockAt(tab, at), u);
      }
    }
  }

  /** Dropped on a window's strip or panes. */
  lemma SurfaceConserves(ws: seq<Win>, next: nat, i: nat, uid: Uid, h: Hover, opens: bool, shell: Uid, u: Uid)
    requires Wellformed(ws, next) && i < |ws| && !h.overLeftPanel && h.win.Some?
    ensures var ws' := Dropped(ws, next, i, uid, h, opens, shell);
      Wellformed(ws', next) && Total(ws', u) + (if Drops(ws, i, uid, h, opens) then One(uid, u) else 0) == Total(ws, u)
  {
    hide Total, Across, OnStrip, OnTiles, State.Owns, FindPane;
    var s := ws[i].state;
    if h.win.value == ws[i].id {
      OnStripOwns(s, uid, h.tabOver, u);
      OnTilesOwns(s, uid, h.paneIdx, h.slotIndex, u);
      PutOwns(ws, next, i, if h.overStrip then OnStrip(s, uid, h.tabOver) else OnTiles(s, uid, h.paneIdx, h.slotIndex), u, 0);
    } else {
      AcrossOwns(ws, next, i, ById(ws, h.win.value), uid, PlaceAcross(h), u);
    }
  }

  /** Wherever a pane is dropped, every session is held exactly as often as before, but for the pane
      itself when there is nowhere to put it and for a shell made to refill the app-owned tab. */
  lemma DropConserves(ws: seq<Win>, next: nat, i: nat, uid: Uid, h: Hover, opens: bool, shell: Uid, u: Uid)
    requires Wellformed(ws, next) && i < |ws|
    ensures var ws' := Dropped(ws, next, i, uid, h, opens, shell);
      && Wellformed(ws', if h.win.None? then next + 1 else next)
      && Total(ws', u) + (if Drops(ws, i, uid, h, opens) then One(uid, u) else 0)
         == Total(ws, u) + (if DropReseeds(ws, i, uid, h) then One(shell, u) else 0)
  {
    hide Total, Torn, Across, InTree, OnStrip, OnTiles, Wellformed, FindPane, MoveReseeds;
    if h.overLeftPanel {
      PanelConserves(ws, next, i, uid, h, opens, shell, u);
      WellformedMore(Dropped(ws, next, i, uid, h, opens, shell), next);
    } else if h.win.Some? {
      SurfaceConserves(ws, next, i, uid, h, opens, shell, u);
    } else {
      TornOwns(ws, next, i, uid, opens, u);
    }
  }

  // ---- and puts the pane where it was aimed ----

  /** The tab a place names: the active one where it names none. */
  function Aimed(s: State, place: Place): nat
    requires s.Valid() && !place.OwnTab?
  {
    if place.Here? || place.tab >= |s.tabs| then s.active else place.tab
  }

  /** The pane taken in is the one then shown and focused; the rest of its tab, and every other tab,
      is as it was. */
  lemma HostLands(s: State, uid: Uid, place: Place)
    requires s.Valid()
    ensures var s' := Host(s, uid, place);
      && s'.active < |s'.tabs| && var t := s'.tabs[s'.active];
      && t.focused < |t.panes| && t.panes[t.focused] == uid
      && (if place.OwnTab? then s' == s.(tabs := s.tabs + [t], active := |s.tabs|) && t.panes == [uid] && !t.system
          else
            var ti := Aimed(s, place);
            && s'.active == ti && s'.tabs == s.tabs[ti := t] && t.system == s.tabs[ti].system
            && RemoveAt(t.panes, t.focused) == s.tabs[ti].panes
            && t.focused == if place.Dock? then |s.tabs[ti].panes|
                            else if place.at <= |s.tabs[ti].panes| then place.at else |s.tabs[ti].panes|)
  {
    match place {
      case OwnTab =>
        assert s.tabs + [Tab([uid], false, 0)] == (s.tabs + [Tab([], false, 0)])[|s.tabs| := Tab([uid], false, 0)];
      case Here(at) => HostInLands(s, s.active, at, uid);
      case Dock(tab) => HostInLands(SwitchTab(s, tab), Aimed(s, place), |s.tabs[Aimed(s, place)].panes|, uid);
      case DockAt(tab, at) => HostInLands(SwitchTab(s, tab), Aimed(s, place), at, uid);
    }
  }

  lemma HostInLands(s: State, ti: nat, at: nat, uid: Uid)
    requires ti < |s.tabs|
    ensures var s' := HostIn(s, ti, at, uid);
      |s'.tabs| == |s.tabs| && var t := s'.tabs[ti];
      && t.focused == Min(at, |s.tabs[ti].panes|) && t.focused < |t.panes| && t.panes[t.focused] == uid
      && RemoveAt(t.panes, t.focused) == s.tabs[ti].panes
      && s' == s.(tabs := s.tabs[ti := t]) && t.system == s.tabs[ti].system
  {
  }

  /** Tab `ti` of `s'` is shown and has `uid`, focused, at slot `at` among what it had; nothing else of
      the window has changed. */
  ghost predicate LandsIn(s: State, s': State, ti: nat, at: nat, uid: Uid) {
    && ti < |s.tabs| == |s'.tabs| && s'.active == ti && at <= |s.tabs[ti].panes|
    && s'.tabs[ti].panes == s.tabs[ti].panes[..at] + [uid] + s.tabs[ti].panes[at..]
    && s'.tabs[ti].focused == at && s'.tabs[ti].system == s.tabs[ti].system
    && (forall k :: 0 <= k < |s.tabs| && k != ti ==> s'.tabs[k] == s.tabs[k])
    && s'.closed == s.closed && s'.reminders == s.reminders
  }

  /** `uid` has a tab of its own, shown, after all the others. */
  ghost predicate LandsBeside(s: State, s': State, uid: Uid) {
    && s'.tabs == s.tabs + [Tab([uid], false, 0)] && s'.active == |s.tabs|
    && s'.closed == s.closed && s'.reminders == s.reminders
  }

  /** Dropped over another window a pane goes by what it is let go over. On a chip: to the end of that tab.
      Beside the chips: to a tab of its own. On the panes: to the hovered slot of the tab looked at. In
      the workspace tree: to the slot and tab it shows. The window shows where the pane went. */
  lemma DropAcross(ws: seq<Win>, next: nat, i: nat, uid: Uid, h: Hover, opens: bool, shell: Uid, j: nat)
    requires Wellformed(ws, next) && i < |ws| && j < |ws| && i != j && h.win == Some(ws[j].id)
    requires FindPane(ws[i].state.tabs, uid).Some?
    ensures var s, ws' := ws[j].state, Dropped(ws, next, i, uid, h, opens, shell);
      && |ws'| == |ws| && ws'[j].id == ws[j].id && ws'[j].closing == ws[j].closing
      && var s' := ws'[j].state;
      && (h.overLeftPanel && h.dropTab < 0 ==> ws' == ws)
      && (h.overLeftPanel && 0 <= h.dropTab < |s.tabs| ==>
            var n, slot := |s.tabs[h.dropTab].panes|, h.dropSlot;
            LandsIn(s, s', h.dropTab, if slot < 0 then 0 else if slot < n then slot else n, uid))
      && (!h.overLeftPanel && h.overStrip && h.tabOver.None? ==> LandsBeside(s, s', uid))
      && (!h.overLeftPanel && h.overStrip && h.tabOver.Some? && h.tabOver.value < |s.tabs| ==>
            LandsIn(s, s', h.tabOver.value, |s.tabs[h.tabOver.value].panes|, uid))
      && (!h.overLeftPanel && !h.overStrip ==>
            s.active < |s.tabs| && var n := |s.tabs[s.active].panes|;
            LandsIn(s, s', s.active, if h.slotIndex < n then h.slotIndex else n, uid))
  {
    WellformedAt(ws, next, j);
    OnlyById(ws, next, j);
    var s := ws[j].state;
    if h.overLeftPanel {
      if h.dropTab >= 0 { Lands(s, uid, DockAt(h.dropTab, Clamp(h.dropSlot))); }
    } else if h.overStrip {
      match h.tabOver {
        case Some(ti) => Lands(s, uid, Dock(ti));
        case None => Lands(s, uid, OwnTab);
      }
    } else {
      Lands(s, uid, Here(h.slotIndex));
    }
    hide Host, TakePane, FindPane;
  }

  lemma OnlyById(ws: seq<Win>, next: nat, j: nat)
    requires Wellformed(ws, next) && j < |ws|
    ensures ById(ws, ws[j].id) == Some(j)
  {
  }

  lemma Lands(s: State, uid: Uid, place: Place)
    requires s.Valid()
    ensures var s' := Host(s, uid, place);
      match place
      case OwnTab => LandsBeside(s, s', uid)
      case Dock(tab) => tab < |s.tabs| ==> LandsIn(s, s', tab, |s.tabs[tab].panes|, uid)
      case DockAt(tab, at) => tab < |s.tabs| ==> LandsIn(s, s', tab, Min(at, |s.tabs[tab].panes|), uid)
      case Here(at) => LandsIn(s, s', s.active, Min(at, |s.tabs[s.active].panes|), uid)
  {
    var none: seq<Uid> := [];
    assert InsertAt(none, 0, uid) == [uid];
    if place.OwnTab? {
      assert s.tabs + [Tab([uid], false, 0)] == (s.tabs + [Tab([], false, 0)])[|s.tabs| := Tab([uid], false, 0)];
    }
  }

  /** Dropped on the desktop a pane is all that a new window shows, which comes last. */
  lemma DropTears(ws: seq<Win>, next: nat, i: nat, uid: Uid, h: Hover, shell: Uid)
    requires Wellformed(ws, next) && i < |ws| && h.win.None? && FindPane(ws[i].state.tabs, uid).Some?
    ensures var ws' := Dropped(ws, next, i, uid, h, true, shell);
      if h.overLeftPanel then ws' == ws
      else |ws'| == |ws| + 1 && ws'[|ws|] == Win(next, State([Tab([uid], false, 0)], 0, [], []), false)
  {
    hide TakePane, FindPane;
    var none: seq<Uid> := [];
    assert InsertAt(none, 0, uid) == [uid];
    assert Adopt(EMPTY_WINDOW, uid).tabs == [Tab([uid], false, 0)];
  }

  /** Dropped in its own window a pane goes by what it is let go over too: each surface has its own rule. */
  lemma DropOwn(ws: seq<Win>, next: nat, i: nat, uid: Uid, h: Hover, opens: bool, shell: Uid)
    requires Wellformed(ws, next) && i < |ws| && h.win == Some(ws[i].id)
    ensures var s, ws' := ws[i].state, Dropped(ws, next, i, uid, h, opens, shell);
      && ws' == Put(ws, i, if i < |ws'| then ws'[i].state else s) && i < |ws'|
      && (h.overLeftPanel && h.dropTab < 0 ==> ws' == ws)
      && (h.overLeftPanel && h.dropTab >= 0 ==>
            ws'[i].state == InTree(s, uid, h.dropTab, if h.dropSlot < 0 then 0 else h.dropSlot, shell))
      && (!h.overLeftPanel && h.overStrip ==> s.Valid() && ws'[i].state == OnStrip(s, uid, h.tabOver))
      && (!h.overLeftPanel && !h.overStrip ==> s.Valid() && ws'[i].state == OnTiles(s, uid, h.paneIdx, h.slotIndex))
  {
  }

  /** Beside the chips of its own window a pane gets a tab of its own, last and shown; its old tab, when
      that was all it held, is gone. */
  lemma BesideChips(s: State, uid: Uid)
    requires s.Valid() && FindPane(s.tabs, uid).Some?
    ensures var f, s' := FindPane(s.tabs, uid).value, OnStrip(s, uid, None);
      var emptied := |s.tabs[f.0].panes| == 1 && !s.tabs[f.0].system && |s.tabs| > 1;
      && s'.tabs != [] && s'.active == |s'.tabs| - 1 && s'.tabs[s'.active] == Tab([uid], false, 0)
      && |s'.tabs| == (if emptied then |s.tabs| else |s.tabs| + 1)
      && (if emptied then s'.tabs[..s'.active] == s.tabs[..f.0] + s.tabs[f.0 + 1..]
          else && s'.tabs[f.0].panes == s.tabs[f.0].panes[..f.1] + s.tabs[f.0].panes[f.1 + 1..]
               && forall k :: 0 <= k < |s.tabs| && k != f.0 ==> s'.tabs[k] == s.tabs[k])
  {
    var f := FindPane(s.tabs, uid).value;
    var d := TakePane(s, f.0, f.1).0;
    Lands(d.(active := 0), uid, OwnTab);
    TakePaneValid(s, f.0, f.1);
    Lands(d, uid, OwnTab);
  }

  /** In the tree of its own window a pane dropped on its own tab moves to the slot aimed at, counted
      before it is taken out; on another tab it is inserted there. */
  lemma TreeDrop(s: State, uid: Uid, tab: nat, at: nat, shell: Uid)
    requires s.Valid() && FindPane(s.tabs, uid).Some? && tab < |s.tabs|
    ensures var f, s', was := FindPane(s.tabs, uid).value, InTree(s, uid, tab, at, shell), s.tabs[tab].panes;
      if f.0 != tab then
        var ti := if |s'.tabs| < |s.tabs| && f.0 < tab then tab - 1 else tab;
        && ti < |s'.tabs| && var to := if at < |was| then at else |was|;
        s'.tabs[ti].panes == was[..to] + [uid] + was[to..]
      else if at > |was| then s' == s
      else
        var dest := if at > f.1 then at - 1 else at;
        && tab < |s'.tabs| && dest < |s'.tabs[tab].panes| && s'.tabs[tab].panes[dest] == uid
        && s'.tabs[tab].panes[..dest] + s'.tabs[tab].panes[dest + 1..] == was[..f.1] + was[f.1 + 1..]
  {
    var f := FindPane(s.tabs, uid).value;
    if f.0 != tab { MoveBetweenTabsLands(s, f.0, f.1, tab, at, shell); }
  }

  /** A pane dragged onto the chip of its own tab when it is all that tab holds takes the tab with
      it: the chip pointed at disappears, and the pane joins the neighbour. Every other chip drop
      lands in the tab pointed at. */
  predicate OwnChip(s: State, f: (nat, nat), ti: nat)
    requires f.0 < |s.tabs|
  {
    f.0 == ti && |s.tabs[ti].panes| == 1 && !s.tabs[ti].system && |s.tabs| > 1
  }

  lemma ChipDock(s: State, uid: Uid, ti: nat)
    requires s.Valid() && ti < |s.tabs| && FindPane(s.tabs, uid).Some?
    ensures var f, s' := FindPane(s.tabs, uid).value, OnStrip(s, uid, Some(ti));
      && s'.Valid() && var shown := s'.tabs[s'.active].panes;
      if OwnChip(s, f, ti) then (
        |s'.tabs| == |s.tabs| - 1 && shown == s.tabs[if ti + 1 < |s.tabs| then ti + 1 else ti - 1].panes + [uid])
      else shown == (if f.0 == ti then RemoveAt(s.tabs[ti].panes, f.1) else s.tabs[ti].panes) + [uid]
  {
    var t := SwitchTab(s, ti);
    var f := FindPane(s.tabs, uid).value;
    var d := TakePane(t, f.0, f.1).0;
    TakePaneValid(t, f.0, f.1);
    HostLands(d, uid, Here(|d.tabs[d.active].panes|));
    var s' := OnStrip(s, uid, Some(ti));
    assert s' == Adopt(d, uid);
    var n := |d.tabs[d.active].panes|;
    assert s'.tabs[s'.active].panes == d.tabs[d.active].panes + [uid];
  }

  /** On the panes of its own window a pane takes the very tile pointed at; one from another tab is
      inserted, focused, at the hovered slot of the tab being looked at. */
  lemma TileDrop(s: State, uid: Uid, dest: nat, slot: nat)
    requires s.Valid() && FindPane(s.tabs, uid).Some?
    ensures var s', was := OnTiles(s, uid, Some(dest), slot), s.tabs[s.active].panes;
      && s'.active < |s'.tabs| && var t := s'.tabs[s'.active];
      if uid in was then dest < |was| ==> dest < |t.panes| && t.panes[dest] == uid
      else t.focused == Min(slot, |was|) && t.focused < |t.panes| && t.panes[t.focused] == uid && RemoveAt(t.panes, t.focused) == was
  {
    var was := s.tabs[s.active].panes;
    match IndexIn(was, uid) {
      case Some(from) => if dest < |was| { PaneTakesTile(s, s.active, from, dest); }
      case None =>
        TakenElsewhere(s, uid);
        var d := DetachUid(s, uid).value.0;
        hide DetachUid, HostIn, ReorderPaneIn;
        HostInLands(d, d.active, slot, uid);
    }
  }

  /** Taking out a pane of another tab leaves the tab being looked at as it is. */
  lemma TakenElsewhere(s: State, uid: Uid)
    requires s.Valid() && FindPane(s.tabs, uid).Some? && uid !in s.tabs[s.active].panes
    ensures var d := DetachUid(s, uid).value.0;
      d.Valid() && d.tabs[d.active].panes == s.tabs[s.active].panes
  {
    var f := FindPane(s.tabs, uid).value;
    TakePaneValid(s, f.0, f.1);
  }

  /** A drop changes only the window the pane left, the window it was dropped on and, past the end,
      a new one. */
  lemma DropLeavesOthers(ws: seq<Win>, next: nat, i: nat, uid: Uid, h: Hover, opens: bool, shell: Uid, k: nat)
    requires Wellformed(ws, next) && i < |ws| && k < |ws| && k != i && h.win != Some(ws[k].id)
    ensures var ws' := Dropped(ws, next, i, uid, h, opens, shell); k < |ws'| && ws'[k] == ws[k]
  {
    hide InTree, OnStrip, OnTiles, Host, DetachUid, Adopt;
  }

  /** Leaving for another window closes the window left exactly when its only pane went. */
  lemma SourceClosesIff(ws: seq<Win>, next: nat, i: nat, uid: Uid, h: Hover, opens: bool, shell: Uid)
    requires Wellformed(ws, next) && i < |ws| && !ws[i].closing
    ensures var ws', f := Dropped(ws, next, i, uid, h, opens, shell), FindPane(ws[i].state.tabs, uid);
      && i < |ws'|
      && (ws'[i].closing <==>
          && f.Some? && |ws[i].state.tabs| == 1 && |ws[i].state.tabs[0].panes| == 1 && !ws[i].state.tabs[0].system
          && h.win != Some(ws[i].id)
          && (h.overLeftPanel ==> h.win.Some? && ById(ws, h.win.value).Some? && h.dropTab >= 0))
  {
    hide InTree, OnStrip, OnTiles, Host, Adopt, State.Valid;
    if DetachUid(ws[i].state, uid).Some? { ClosesAt(ws[i].state, uid); }
    hide DetachUid, TakePane;
  }

  lemma ClosesAt(s: State, uid: Uid)
    requires DetachUid(s, uid).Some?
    ensures FindPane(s.tabs, uid).Some?
    ensures !DetachUid(s, uid).value.1 <==> |s.tabs| == 1 && |s.tabs[0].panes| == 1 && !s.tabs[0].system
  {
  }

  // ---- hit-testing the strip ----

  function Centre(chip: (real, real)): real {
    chip.0 + chip.1 / 2.0
  }

  /** How many chips' centres the cursor has passed. */
  function Passed(g: seq<(real, real)>, lx: real): nat {
    if g == [] then 0 else (if lx >= Centre(g[0]) then 1 else 0) + Passed(g[1..], lx)
  }

  predicate On(chip: (real, real), lx: real) {
    chip.0 <= lx < chip.0 + chip.1
  }

  /** `slot` follows the last chip whose centre is at or left of the cursor; `over` is the last chip
      the cursor is on. */
  ghost predicate IsHit(g: seq<(real, real)>, lx: real, slot: nat, over: Option<nat>) {
    && slot <= |g| && (slot > 0 ==> lx >= Centre(g[slot - 1]))
    && (forall i :: slot <= i < |g| ==> lx < Centre(g[i]))
    && (over.Some? ==> over.value < |g| && On(g[over.value], lx))
    && (forall i :: (if over.Some? then over.value < i else 0 <= i) && i < |g| ==> !On(g[i], lx))
  }

  /** Chips beyond the reported geometry, or beyond the tabs, do not take part. */
  method TabHit(tabs: nat, geometry: seq<(real, real)>, lx: real) returns (slot: nat, over: Option<nat>)
    ensures IsHit(geometry[..Min(tabs, |geometry|)], lx, slot, over)
  {
    var n := Min(tabs, |geometry|);
    slot, over := 0, None;
    for i := 0 to n
      invariant IsHit(geometry[..i], lx, slot, over)
    {
      assert geometry[..i + 1] == geometry[..i] + [geometry[i]];
      var (x, wd) := geometry[i];
      if lx >= x + wd / 2.0 {
        slot := i + 1;
      }
      if lx >= x && lx < x + wd {
        over := Some(i);
      }
    }
  }

  /** Chips left to right, none overlapping the next. */
  ghost predicate Ordered(g: seq<(real, real)>) {
    && (forall i :: 0 <= i < |g| ==> g[i].1 >= 0.0)
    && (forall i :: 0 <= i < |g| - 1 ==> g[i].0 + g[i].1 <= g[i + 1].0)
  }

  /** On an ordered strip the slot counts the centres passed, and a chip the cursor is on is the one
      just before or just after the slot. */
  lemma HitOnOrdered(g: seq<(real, real)>, lx: real, slot: nat, over: Option<nat>)
    requires Ordered(g) && IsHit(g, lx, slot, over)
    ensures Passed(g, lx) == slot
    ensures over.Some? ==> slot == over.value || slot == over.value + 1
  {
    OrderedSlot(g, lx, slot);
    if over.Some? {
      var o := over.value;
      assert o + 1 < |g| ==> g[o].0 + g[o].1 <= g[o + 1].0;
      assert o > 0 ==> var b := o - 1; g[b].0 + g[b].1 <= g[b + 1].0;
      if slot > o + 1 { FirstPassed(g[o + 1..], lx, slot - o - 1); }
    }
  }

  /** Where the centres do not decrease, the last one passed tells how many are. */
  lemma {:induction false} OrderedSlot(g: seq<(real, real)>, lx: real, slot: nat)
    requires Ordered(g) && slot <= |g| && (slot > 0 ==> lx >= Centre(g[slot - 1]))
    requires forall i :: slot <= i < |g| ==> lx < Centre(g[i])
    ensures Passed(g, lx) == slot
    decreases |g|
  {
    if g != [] {
      if slot == 0 {
        OrderedSlot(g[1..], lx, 0);
      } else {
        FirstPassed(g, lx, slot);
        OrderedSlot(g[1..], lx, slot - 1);
      }
    }
  }

  lemma {:induction false} FirstPassed(g: seq<(real, real)>, lx: real, slot: nat)
    requires Ordered(g) && 0 < slot <= |g| && lx >= Centre(g[slot - 1])
    ensures lx >= Centre(g[0])
    decreases slot
  {
    if slot > 1 {
      assert g[slot - 2].0 + g[slot - 2].1 <= g[slot - 1].0;
      FirstPassed(g, lx, slot - 1);
    }
  }
}
