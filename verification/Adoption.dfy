/** Which tab of a window a control-spawned pane is adopted into. The order a tick's hash map gives the
    model's panes in is a parameter, `order`. */
module Adoption {
  import opened Wrappers

  /** The model's tab ids: the position of a tab the GUI published, or one minted for a new group. */
  datatype TabId = At(index: nat) | Minted(serial: nat)

  /** Panes the model keeps in one tab are in one tab of the GUI. */
  ghost predicate Grouped(gui: map<Uid, nat>, cur: map<Uid, TabId>) {
    forall u, v :: u in gui && v in gui && u in cur && v in cur && cur[u] == cur[v] ==> gui[u] == gui[v]
  }

  /** The model tab has a pane the GUI already hosts. */
  ghost predicate Hosted(gui: map<Uid, nat>, cur: map<Uid, TabId>, t: TabId) {
    exists u :: u in gui && u in cur && cur[u] == t
  }

  /** What adopting comes to so far: hosted panes unmoved; groups together where they were to begin
      with; a pane of a hosted group on a tab that hosted one of its group; and every tab made for a
      group no tab hosted made once, numbered past the old tabs, and holding that group. */
  ghost predicate Sorted(gui0: map<Uid, nat>, tabs0: nat, gui: map<Uid, nat>, tabs: nat, cur: map<Uid, TabId>,
                         created: map<TabId, nat>, done: set<Uid>) {
    && (Grouped(gui0, cur) ==> Grouped(gui, cur)) && (forall u :: u in gui ==> gui[u] < tabs)
    && (forall u :: u in gui0 ==> u in gui && gui[u] == gui0[u])
    && (forall u :: u in done && u in cur && Hosted(gui0, cur, cur[u]) ==> u in gui && HostedOn(gui0, cur, cur[u], gui[u]))
    && (forall t :: t in created ==> tabs0 <= created[t] < tabs && Hosted(gui, cur, t))
    && (forall t, t' :: t in created && t' in created && created[t] == created[t'] ==> t == t')
    && (forall u :: u in done && u in cur && OwnTab(gui0, cur, cur[u]) ==> u in gui && cur[u] in created && gui[u] == created[cur[u]])
  }

  /** A group put at a live position that no tab hosts beforehand goes there. */
  ghost predicate Positioned(gui0: map<Uid, nat>, tabs0: nat, gui: map<Uid, nat>, cur: map<Uid, TabId>, done: set<Uid>) {
    forall u :: u in done && u in cur && LiveAt(gui0, tabs0, cur, cur[u]) ==> u in gui && gui[u] == cur[u].index
  }

  /** A group no tab hosts beforehand, put at the position of a tab that is there. */
  ghost predicate LiveAt(gui0: map<Uid, nat>, tabs0: nat, cur: map<Uid, TabId>, t: TabId) {
    t.At? && t.index < tabs0 && !Hosted(gui0, cur, t)
  }

  /** A pane the model keeps on `t` is on tab `ti`. */
  ghost predicate HostedOn(gui: map<Uid, nat>, cur: map<Uid, TabId>, t: TabId, ti: nat) {
    exists v :: v in gui && v in cur && cur[v] == t && gui[v] == ti
  }

  predicate Together(cur: map<Uid, TabId>, done: set<Uid>, u: Uid, v: Uid) {
    u in done && v in done && u in cur && v in cur && cur[u] == cur[v]
  }

  /** A pane of a group no tab hosts beforehand, new or put at a position that is gone, is on a tab that
      was not there; and such a group, wherever it was put, shares one tab. */
  ghost predicate Apart(gui0: map<Uid, nat>, tabs0: nat, gui: map<Uid, nat>, cur: map<Uid, TabId>, done: set<Uid>) {
    && (forall u :: u in done && u in cur && !Hosted(gui0, cur, cur[u]) ==>
          u in gui && (cur[u].Minted? || cur[u].index >= tabs0 ==> gui[u] >= tabs0))
    && (forall u, v :: Together(cur, done, u, v) && !Hosted(gui0, cur, cur[u]) && u in gui && v in gui ==> gui[u] == gui[v])
  }

  /** A new group: minted, with none of its panes hosted beforehand. */
  ghost predicate OwnTab(gui0: map<Uid, nat>, cur: map<Uid, TabId>, t: TabId) {
    t.Minted? && !Hosted(gui0, cur, t)
  }

  /** A pane put with a sibling, or in an existing tab when it has none, leaves everything sorted. */
  lemma JoinSorted(gui0: map<Uid, nat>, tabs0: nat, gui: map<Uid, nat>, tabs: nat, cur: map<Uid, TabId>,
                   created: map<TabId, nat>, done: set<Uid>, u: Uid, ti: nat)
    requires Sorted(gui0, tabs0, gui, tabs, cur, created, done) && u in cur && u !in gui && ti < tabs
    requires Hosted(gui, cur, cur[u]) ==> HostedOn(gui, cur, cur[u], ti)
    requires gui.Keys <= gui0.Keys + done
    requires OwnTab(gui0, cur, cur[u]) ==> Hosted(gui, cur, cur[u])
    ensures Sorted(gui0, tabs0, gui[u := ti], tabs, cur, created, done + {u})
  {
    var gui' := gui[u := ti];
    forall t | t in created ensures Hosted(gui', cur, t) {
      var v :| v in gui && v in cur && cur[v] == t;
      assert v in gui';
    }
    if Hosted(gui0, cur, cur[u]) {
      var x :| x in gui0 && x in cur && cur[x] == cur[u];
      assert Hosted(gui, cur, cur[u]);
    }
    if Hosted(gui, cur, cur[u]) {
      var v :| v in gui && v in cur && cur[v] == cur[u] && gui[v] == ti;
      assert v in gui0 || v in done;
      if Hosted(gui0, cur, cur[u]) {
        if v in gui0 { assert HostedOn(gui0, cur, cur[u], ti); } else { assert HostedOn(gui0, cur, cur[v], gui[v]); }
      }
    }
  }

  /** And so does a pane given a new tab because nothing hosts its model tab. */
  lemma MakeSorted(gui0: map<Uid, nat>, tabs0: nat, gui: map<Uid, nat>, tabs: nat, cur: map<Uid, TabId>,
                   created: map<TabId, nat>, done: set<Uid>, u: Uid)
    requires Sorted(gui0, tabs0, gui, tabs, cur, created, done) && u in cur && u !in gui && tabs0 <= tabs
    requires !Hosted(gui, cur, cur[u])
    ensures Sorted(gui0, tabs0, gui[u := tabs], tabs + 1, cur, created[cur[u] := tabs], done + {u})
  {
    var gui' := gui[u := tabs];
    assert u in gui' && cur[u] !in created;
    forall t | t in created ensures Hosted(gui', cur, t) {
      var v :| v in gui && v in cur && cur[v] == t;
      assert v in gui';
    }
  }

  /** A pane put with a sibling, or at the position it is meant for, leaves all at their positions; so
      does a new tab, for a pane meant for none. */
  lemma StaysPositioned(gui0: map<Uid, nat>, tabs0: nat, gui: map<Uid, nat>, cur: map<Uid, TabId>, done: set<Uid>, u: Uid, ti: nat)
    requires Positioned(gui0, tabs0, gui, cur, done) && u in cur && u !in gui && gui.Keys <= gui0.Keys + done
    requires if Hosted(gui, cur, cur[u]) then HostedOn(gui, cur, cur[u], ti) else cur[u] == At(ti) || (cur[u].At? ==> cur[u].index >= tabs0)
    ensures Positioned(gui0, tabs0, gui[u := ti], cur, done + {u})
  {
    if LiveAt(gui0, tabs0, cur, cur[u]) && Hosted(gui, cur, cur[u]) {
      var v :| v in gui && v in cur && cur[v] == cur[u] && gui[v] == ti;
      assert v !in gui0;
    }
  }

  /** A pane put with a sibling, or, where it has none, at a live position or on a new tab, leaves the
      unhosted groups each on one tab, and new where it should be. */
  lemma StaysApart(gui0: map<Uid, nat>, tabs0: nat, gui: map<Uid, nat>, cur: map<Uid, TabId>, done: set<Uid>, u: Uid, ti: nat)
    requires Apart(gui0, tabs0, gui, cur, done) && u in cur && u !in gui && gui.Keys <= gui0.Keys + done
    requires if Hosted(gui, cur, cur[u]) then HostedOn(gui, cur, cur[u], ti) else cur[u] == At(ti) || ti >= tabs0
    requires forall v :: v in gui0 ==> v in gui
    ensures Apart(gui0, tabs0, gui[u := ti], cur, done + {u})
  {
    var gui' := gui[u := ti];
    if !Hosted(gui0, cur, cur[u]) {
      if Hosted(gui, cur, cur[u]) {
        var x :| x in gui && x in cur && cur[x] == cur[u] && gui[x] == ti;
        assert x in done;
      }
      forall v | v in done && v in cur && cur[v] == cur[u] && v in gui ensures gui[v] == ti {
        assert Hosted(gui, cur, cur[u]);
      }
    }
  }

  // ---- one order ----

  /** The panes' tabs, how many tabs there are, and those made this tick. */
  datatype Strip = Strip(gui: map<Uid, nat>, tabs: nat, created: map<TabId, nat>)

  /** The tab of the first of the other panes of model tab `t` that a tab hosts. */
  function SiblingIn(order: seq<Uid>, gui: map<Uid, nat>, cur: map<Uid, TabId>, u: Uid, t: TabId): Option<nat> {
    if order == [] then None
    else if order[0] != u && order[0] in cur && cur[order[0]] == t && order[0] in gui then Some(gui[order[0]])
    else SiblingIn(order[1..], gui, cur, u, t)
  }

  /** A sibling's tab, else the tab made this tick for the model tab, else the position the id names. */
  function Resolved(order: seq<Uid>, s: Strip, cur: map<Uid, TabId>, u: Uid): Option<nat>
    requires u in cur
  {
    var t, sibling := cur[u], SiblingIn(order, s.gui, cur, u, cur[u]);
    if sibling.Some? then sibling
    else if t in s.created then Some(s.created[t])
    else if t.At? && t.index < s.tabs then Some(t.index)
    else None
  }

  function Adopted(order: seq<Uid>, s: Strip, cur: map<Uid, TabId>, u: Uid): Strip
    requires u in cur
  {
    match Resolved(order, s, cur, u)
    case Some(ti) => s.(gui := s.gui[u := ti])
    case None => Strip(s.gui[u := s.tabs], s.tabs + 1, s.created[cur[u] := s.tabs])
  }

  /** All the new panes of `rest`, one after another. */
  function AdoptedAll(order: seq<Uid>, s: Strip, cur: map<Uid, TabId>, new': set<Uid>, rest: seq<Uid>): Strip
    requires new' <= cur.Keys
    decreases |rest|
  {
    if rest == [] then s
    else AdoptedAll(order, if rest[0] in new' then Adopted(order, s, cur, rest[0]) else s, cur, new', rest[1..])
  }

  lemma {:induction false} SiblingHosts(order: seq<Uid>, gui: map<Uid, nat>, cur: map<Uid, TabId>, u: Uid, t: TabId)
    ensures match SiblingIn(order, gui, cur, u, t)
      case Some(ti) => exists v :: v in order && v != u && v in gui && v in cur && cur[v] == t && gui[v] == ti
      case None => forall v :: v in order && v != u && v in gui && v in cur ==> cur[v] != t
  {
    if order != [] {
      SiblingHosts(order[1..], gui, cur, u, t);
      assert forall v :: v in order <==> v == order[0] || v in order[1..];
    }
  }

  /** A tab made this tick has a sibling on it, so it never decides. */
  lemma ResolvesTo(order: seq<Uid>, s: Strip, cur: map<Uid, TabId>, u: Uid)
    requires u in cur && u !in s.gui && (forall v :: v in cur ==> v in order)
    requires forall t :: t in s.created ==> Hosted(s.gui, cur, t)
    ensures var t, tab := cur[u], Resolved(order, s, cur, u);
      if Hosted(s.gui, cur, t) then tab.Some? && HostedOn(s.gui, cur, t, tab.value)
      else tab == if t.At? && t.index < s.tabs then Some(t.index) else None
  {
    SiblingHosts(order, s.gui, cur, u, cur[u]);
  }

  /** What adopting comes to so far, with the panes of `done` adopted. */
  ghost predicate Settled(gui0: map<Uid, nat>, tabs0: nat, s: Strip, cur: map<Uid, TabId>, done: set<Uid>) {
    && Sorted(gui0, tabs0, s.gui, s.tabs, cur, s.created, done) && Positioned(gui0, tabs0, s.gui, cur, done)
    && Apart(gui0, tabs0, s.gui, cur, done) && s.gui.Keys == gui0.Keys + done && s.tabs >= tabs0
  }

  lemma KeepsOld(gui0: map<Uid, nat>, tabs0: nat, s: Strip, cur: map<Uid, TabId>, done: set<Uid>)
    requires Sorted(gui0, tabs0, s.gui, s.tabs, cur, s.created, done)
    ensures forall v :: v in gui0 ==> v in s.gui
  {
  }

  lemma JoinSettles(s: Strip, cur: map<Uid, TabId>, u: Uid, ti: nat, gui0: map<Uid, nat>, tabs0: nat, done: set<Uid>)
    requires u in cur && u !in s.gui && Settled(gui0, tabs0, s, cur, done)
    requires if Hosted(s.gui, cur, cur[u]) then HostedOn(s.gui, cur, cur[u], ti) else cur[u] == At(ti) && ti < s.tabs
    ensures Settled(gui0, tabs0, s.(gui := s.gui[u := ti]), cur, done + {u})
  {
    OnStrip(gui0, tabs0, s, cur, done, ti, u);
    KeepsOld(gui0, tabs0, s, cur, done);
    hide Sorted, Positioned, Apart, OwnTab, Hosted, HostedOn;
    StaysApart(gui0, tabs0, s.gui, cur, done, u, ti);
    JoinSorted(gui0, tabs0, s.gui, s.tabs, cur, s.created, done, u, ti);
    StaysPositioned(gui0, tabs0, s.gui, cur, done, u, ti);
  }

  lemma MakeSettles(s: Strip, cur: map<Uid, TabId>, u: Uid, gui0: map<Uid, nat>, tabs0: nat, done: set<Uid>)
    requires u in cur && u !in s.gui && Settled(gui0, tabs0, s, cur, done)
    requires !Hosted(s.gui, cur, cur[u]) && (cur[u].At? ==> cur[u].index >= s.tabs)
    ensures Settled(gui0, tabs0, Strip(s.gui[u := s.tabs], s.tabs + 1, s.created[cur[u] := s.tabs]), cur, done + {u})
  {
    KeepsOld(gui0, tabs0, s, cur, done);
    hide Sorted, Positioned, Apart, OwnTab, Hosted, HostedOn;
    var gui' := s.gui[u := s.tabs];
    assert gui'.Keys == gui0.Keys + (done + {u}) && s.tabs + 1 >= tabs0;
    StaysApart(gui0, tabs0, s.gui, cur, done, u, s.tabs);
    MakeSorted(gui0, tabs0, s.gui, s.tabs, cur, s.created, done, u);
    StaysPositioned(gui0, tabs0, s.gui, cur, done, u, s.tabs);
  }

  lemma SettledCreated(gui0: map<Uid, nat>, tabs0: nat, s: Strip, cur: map<Uid, TabId>, done: set<Uid>)
    requires Settled(gui0, tabs0, s, cur, done)
    ensures forall t :: t in s.created ==> Hosted(s.gui, cur, t)
  {
  }

  lemma AdoptedSettles(order: seq<Uid>, s: Strip, cur: map<Uid, TabId>, u: Uid, gui0: map<Uid, nat>, tabs0: nat, done: set<Uid>)
    requires u in cur && u !in s.gui && (forall v :: v in cur ==> v in order) && Settled(gui0, tabs0, s, cur, done)
    ensures Settled(gui0, tabs0, Adopted(order, s, cur, u), cur, done + {u})
    ensures forall t :: t in s.created ==> Hosted(s.gui, cur, t)
  {
    SettledCreated(gui0, tabs0, s, cur, done);
    hide Settled, Hosted, HostedOn, Resolved;
    ResolvesTo(order, s, cur, u);
    match Resolved(order, s, cur, u) {
      case Some(ti) => JoinSettles(s, cur, u, ti, gui0, tabs0, done);
      case None => MakeSettles(s, cur, u, gui0, tabs0, done);
    }
  }

  lemma OnStrip(gui0: map<Uid, nat>, tabs0: nat, s: Strip, cur: map<Uid, TabId>, done: set<Uid>, ti: nat, u: Uid)
    requires Sorted(gui0, tabs0, s.gui, s.tabs, cur, s.created, done) && u in cur
    requires if Hosted(s.gui, cur, cur[u]) then HostedOn(s.gui, cur, cur[u], ti) else cur[u] == At(ti) && ti < s.tabs
    ensures ti < s.tabs && (OwnTab(gui0, cur, cur[u]) ==> Hosted(s.gui, cur, cur[u]))
  {
  }

  /** In whatever order the model's panes come, the outcome is settled. */
  lemma {:induction false} AllSettle(order: seq<Uid>, s: Strip, cur: map<Uid, TabId>, new': set<Uid>, rest: seq<Uid>,
                                     gui0: map<Uid, nat>, tabs0: nat, done: set<Uid>)
    requires new' <= cur.Keys && done <= new' && new' !! gui0.Keys && (forall v :: v in cur ==> v in order)
    requires (forall u :: u in new' ==> u in done || u in rest) && (forall u :: u in rest ==> u !in done)
    requires forall i, j :: 0 <= i < j < |rest| ==> rest[i] != rest[j]
    requires Settled(gui0, tabs0, s, cur, done)
    ensures Settled(gui0, tabs0, AdoptedAll(order, s, cur, new', rest), cur, new')
    decreases |rest|
  {
    if rest == [] {
      assert done == new';
    } else {
      var u := rest[0];
      assert forall v :: v in rest <==> v == u || v in rest[1..];
      assert u !in rest[1..];
      if u in new' {
        assert u !in s.gui by { hide Sorted, Positioned, Apart; }
        AdoptedSettles(order, s, cur, u, gui0, tabs0, done);
        hide Adopted, Settled;
        AllSettle(order, Adopted(order, s, cur, u), cur, new', rest[1..], gui0, tabs0, done + {u});
      } else {
        hide Settled;
        AllSettle(order, s, cur, new', rest[1..], gui0, tabs0, done);
      }
    }
  }

  /** The panes of `cur`, each once. */
  ghost predicate Orders(order: seq<Uid>, cur: map<Uid, TabId>) {
    (forall u :: u in cur <==> u in order) && (forall i, j :: 0 <= i < j < |order| ==> order[i] != order[j])
  }

  class Window {
    /** The tab each pane is on. */
    var gui: map<Uid, nat>
    var tabs: nat

    constructor (tabs: nat)
      ensures gui == map[] && this.tabs == tabs
    {
      gui, this.tabs := map[], tabs;
    }

    /** A tab hosting one of the other panes of model tab `t`, whichever comes up first. */
    method Sibling(order: seq<Uid>, u: Uid, cur: map<Uid, TabId>, t: TabId) returns (tab: Option<nat>)
      requires forall v :: v in order ==> v in cur
      ensures tab == SiblingIn(order, gui, cur, u, t)
    {
      for k := 0 to |order|
        invariant SiblingIn(order[k..], gui, cur, u, t) == SiblingIn(order, gui, cur, u, t)
      {
        var v := order[k];
        assert order[k..][0] == v && order[k..][1..] == order[k + 1..];
        if v != u && cur[v] == t && v in gui { return Some(gui[v]); }
      }
      tab := None;
    }

    method ResolveAdoptTab(order: seq<Uid>, u: Uid, cur: map<Uid, TabId>, created: map<TabId, nat>) returns (tab: Option<nat>)
      requires Orders(order, cur) && u in cur && u !in gui
      requires forall t :: t in created ==> Hosted(gui, cur, t)
      ensures tab == Resolved(order, Strip(gui, tabs, created), cur, u)
      ensures var t := cur[u];
        if Hosted(gui, cur, t) then tab.Some? && HostedOn(gui, cur, t, tab.value)
        else tab == if t.At? && t.index < tabs then Some(t.index) else None
    {
      ResolvesTo(order, Strip(gui, tabs, created), cur, u);
      var t := cur[u];
      tab := Sibling(order, u, cur, t);
      if tab.Some? { return; }
      if t in created { return Some(created[t]); }
      if t.At? && t.index < tabs { return Some(t.index); }
      tab := None;
    }

    method AdoptControlPane(order: seq<Uid>, u: Uid, cur: map<Uid, TabId>, created: map<TabId, nat>) returns (created': map<TabId, nat>)
      requires Orders(order, cur) && u in cur && u !in gui
      requires forall t :: t in created ==> Hosted(gui, cur, t)
      modifies this
      ensures Strip(gui, tabs, created') == Adopted(order, Strip(old(gui), old(tabs), created), cur, u)
    {
      created' := created;
      var target := ResolveAdoptTab(order, u, cur, created);
      match target {
        case Some(ti) => gui := gui[u := ti];
        case None =>
          gui := gui[u := tabs];
          created' := created[cur[u] := tabs];
          tabs := tabs + 1;
      }
    }

    /** Adopts all the new panes. Nothing hosted moves, a pane of a hosted group joins one of the group's
        tabs, groups that were together stay together, each new group gets a tab of its own, apart from
        every other new group's, and a group at a live position goes there. */
    method AdoptAll(order: seq<Uid>, new': set<Uid>, cur: map<Uid, TabId>) returns (created: map<TabId, nat>)
      requires Orders(order, cur) && new' <= cur.Keys && new' !! gui.Keys && forall u :: u in gui ==> gui[u] < tabs
      modifies this
      ensures Strip(gui, tabs, created) == AdoptedAll(order, Strip(old(gui), old(tabs), map[]), cur, new', order)
      ensures gui.Keys == old(gui.Keys) + new' && tabs >= old(tabs)
      ensures Settled(old(gui), old(tabs), Strip(gui, tabs, created), cur, new')
    {
      created := map[];
      ghost var start, done := Strip(gui, tabs, map[]), {};
      SettledStart(gui, tabs, cur);
      AllSettle(order, start, cur, new', order, gui, tabs, {});
      hide Settled, Adopted, Orders;
      for k := 0 to |order|
        invariant AdoptedAll(order, Strip(gui, tabs, created), cur, new', order[k..]) == AdoptedAll(order, start, cur, new', order)
        invariant done <= new' && Settled(start.gui, start.tabs, Strip(gui, tabs, created), cur, done)
        invariant forall i :: k <= i < |order| ==> order[i] !in done
      {
        var u := order[k];
        assert order[k..][0] == u && order[k..][1..] == order[k + 1..];
        OrdersHas(order, cur, k);
        if u in new' {
          SettledKeys(start.gui, start.tabs, Strip(gui, tabs, created), cur, done);
          AdoptedSettles(order, Strip(gui, tabs, created), cur, u, start.gui, start.tabs, done);
          created := AdoptControlPane(order, u, cur, created);
          done := done + {u};
        }
      }
      SettledKeys(start.gui, start.tabs, Strip(gui, tabs, created), cur, new');
    }
  }

  lemma SettledKeys(gui0: map<Uid, nat>, tabs0: nat, s: Strip, cur: map<Uid, TabId>, done: set<Uid>)
    ensures Settled(gui0, tabs0, s, cur, done) ==> s.gui.Keys == gui0.Keys + done && s.tabs >= tabs0
  {
  }

  lemma OrdersHas(order: seq<Uid>, cur: map<Uid, TabId>, k: nat)
    requires Orders(order, cur) && k < |order|
    ensures order[k] in cur && forall v :: v in cur ==> v in order
    ensures forall i :: k < i < |order| ==> order[i] != order[k]
  {
  }

  lemma SettledStart(gui: map<Uid, nat>, tabs: nat, cur: map<Uid, TabId>)
    requires forall u :: u in gui ==> gui[u] < tabs
    ensures Settled(gui, tabs, Strip(gui, tabs, map[]), cur, {})
  {
  }

  /** Sorted panes of two new groups are on two new tabs. */
  lemma GroupsApart(gui0: map<Uid, nat>, tabs0: nat, gui: map<Uid, nat>, tabs: nat, cur: map<Uid, TabId>,
                    created: map<TabId, nat>, new': set<Uid>, u: Uid, v: Uid)
    requires Sorted(gui0, tabs0, gui, tabs, cur, created, new') && u in new' && v in new' && new' <= cur.Keys
    requires OwnTab(gui0, cur, cur[u]) && OwnTab(gui0, cur, cur[v])
    ensures u in gui && v in gui && (gui[u] == gui[v] <==> cur[u] == cur[v]) && gui[u] >= tabs0
  {
  }

  /** Panes adopted into a group that was on one tab are all on that tab; where the human has split the
      group over several, each is on one of them. */
  lemma GroupsJoined(gui0: map<Uid, nat>, tabs0: nat, gui: map<Uid, nat>, tabs: nat, cur: map<Uid, TabId>,
                     created: map<TabId, nat>, new': set<Uid>, u: Uid, ti: nat)
    requires Sorted(gui0, tabs0, gui, tabs, cur, created, new') && u in new' && u in cur
    requires HostedOn(gui0, cur, cur[u], ti)
    ensures u in gui && HostedOn(gui0, cur, cur[u], gui[u])
    ensures (forall t :: HostedOn(gui0, cur, cur[u], t) ==> t == ti) ==> gui[u] == ti
  {
    assert Hosted(gui0, cur, cur[u]);
  }

  /** A pane of a group no tab hosts, put at a live position, goes there. */
  lemma PositionsKept(gui0: map<Uid, nat>, tabs0: nat, gui: map<Uid, nat>, cur: map<Uid, TabId>, new': set<Uid>, u: Uid)
    requires Positioned(gui0, tabs0, gui, cur, new') && u in new' && u in cur && LiveAt(gui0, tabs0, cur, cur[u])
    ensures u in gui && gui[u] == cur[u].index
  {
  }

  /** A pane whose group no tab hosted and whose position is gone never lands on a tab that was there,
      and its group shares the tab it lands on. */
  lemma StalePositions(gui0: map<Uid, nat>, tabs0: nat, gui: map<Uid, nat>, cur: map<Uid, TabId>, new': set<Uid>, u: Uid)
    requires Apart(gui0, tabs0, gui, cur, new') && u in new' && u in cur && !Hosted(gui0, cur, cur[u])
    requires cur[u].At? && cur[u].index >= tabs0
    ensures u in gui && gui[u] >= tabs0
    ensures forall v :: v in new' && v in cur && cur[v] == cur[u] ==> v in gui && gui[v] == gui[u]
  {
    forall v | v in new' && v in cur && cur[v] == cur[u] ensures v in gui && gui[v] == gui[u] {
      assert Together(cur, new', u, v);
    }
  }

  // ---- what is left to the order ----

  /** The panes of a set in some order, `first` ahead of the others. */
  lemma {:induction false} OrderOf(panes: set<Uid>, first: Uid) returns (order: seq<Uid>)
    requires first in panes
    ensures order != [] && order[0] == first
    ensures forall u :: u in panes <==> u in order
    ensures forall i, j :: 0 <= i < j < |order| ==> order[i] != order[j]
    decreases panes
  {
    var others := panes - {first};
    if u :| u in others {
      var rest := OrderOf(others, u);
      order := [first] + rest;
      assert forall v :: v in order <==> v == first || v in rest;
    } else {
      order := [first];
      assert others == {} && panes == others + {first};
    }
  }

  /** Of the tabs a group is spread over a new pane of it can join each, and no other: which one is
      settled by the order the panes come in. */
  lemma SplitEitherWay(s: Strip, cur: map<Uid, TabId>, u: Uid, ti: nat)
    requires u in cur && u !in s.gui && Hosted(s.gui, cur, cur[u])
    ensures (exists order :: Orders(order, cur) && Resolved(order, s, cur, u) == Some(ti)) <==> HostedOn(s.gui, cur, cur[u], ti)
  {
    if HostedOn(s.gui, cur, cur[u], ti) {
      var v :| v in s.gui && v in cur && cur[v] == cur[u] && s.gui[v] == ti;
      var order := OrderOf(cur.Keys, v);
      assert Orders(order, cur) && Resolved(order, s, cur, u) == Some(ti);
    }
    if order :| Orders(order, cur) && Resolved(order, s, cur, u) == Some(ti) {
      SiblingHosts(order, s.gui, cur, u, cur[u]);
    }
  }

  /** The numbers of two new groups' tabs follow it as well. */
  lemma NewTabsEitherWay(tabs: nat, u: Uid, v: Uid, m: nat, n: nat)
    requires u != v && m != n
    ensures var cur, s := map[u := Minted(m), v := Minted(n)], Strip(map[], tabs, map[]);
      && Orders([u, v], cur) && Orders([v, u], cur)
      && AdoptedAll([u, v], s, cur, {u, v}, [u, v]).gui == map[u := tabs, v := tabs + 1]
      && AdoptedAll([v, u], s, cur, {u, v}, [v, u]).gui == map[u := tabs + 1, v := tabs]
  {
    var cur, s := map[u := Minted(m), v := Minted(n)], Strip(map[], tabs, map[]);
    TwoAdopted([u, v], tabs, cur, u, v);
    TwoAdopted([v, u], tabs, cur, v, u);
    assert {v, u} == {u, v} && cur.Keys == {u, v};
  }

  lemma TwoAdopted(order: seq<Uid>, tabs: nat, cur: map<Uid, TabId>, u: Uid, v: Uid)
    requires order == [u, v] && u != v && u in cur && v in cur && cur[u].Minted? && cur[v].Minted? && cur[u] != cur[v]
    ensures AdoptedAll(order, Strip(map[], tabs, map[]), cur, {u, v}, order).gui == map[u := tabs, v := tabs + 1]
  {
    var s := Strip(map[], tabs, map[]);
    SiblingHosts(order, s.gui, cur, u, cur[u]);
    var s1 := Adopted(order, s, cur, u);
    assert s1 == Strip(map[u := tabs], tabs + 1, map[cur[u] := tabs]);
    SiblingHosts(order, s1.gui, cur, v, cur[v]);
    assert Adopted(order, s1, cur, v).gui == map[u := tabs, v := tabs + 1];
    assert order[1..] == [v] && [v][1..] == [] && {u, v} <= cur.Keys;
    hide Adopted;
    var s2 := Adopted(order, s1, cur, v);
    assert AdoptedAll(order, s2, cur, {u, v}, []) == s2;
    assert AdoptedAll(order, s1, cur, {u, v}, [v]) == s2;
    assert AdoptedAll(order, s, cur, {u, v}, order) == AdoptedAll(order, s1, cur, {u, v}, [v]);
  }
}
