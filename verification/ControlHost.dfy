/** The host that keeps the GUI's panes and the control read-model in step, once a tick, visiting
    panes in whatever order the hash maps give them. */
module ControlHost {
  import opened Wrappers
  import opened Merge
  import opened Healing

  /** The read-model's index has every pane id in the tree, each finding a pane that carries it. */
  ghost predicate Indexed(entries: map<Uid, Uid>, byId: map<Uid, Uid>) {
    && (forall u :: u in entries ==> entries[u] in byId)
    && (forall k :: k in byId ==> byId[k] in entries && entries[byId[k]] == k)
  }

  /** The panes that a lookup finds. */
  function Found(entries: map<Uid, Uid>, byId: map<Uid, Uid>): map<Uid, Uid> {
    map u | u in entries && entries[u] in byId && byId[entries[u]] == u :: entries[u]
  }

  lemma FoundFacts(s: Sides, entries: map<Uid, Uid>, byId: map<Uid, Uid>)
    requires Indexed(entries, byId) && s.model == Found(entries, byId) && s.shadowed == entries.Keys - s.model.Keys
    ensures s.ModelApart() && s.model.Keys + s.shadowed == entries.Keys && s.model.Values == byId.Keys
  {
    forall k | k in byId ensures k in s.model.Values {
      assert byId[k] in s.model;
    }
  }

  /** A pane put in the tree; one that was there under its id goes on being the one found. */
  function Inserted(entries: map<Uid, Uid>, byId: map<Uid, Uid>, u: Uid, k: Uid): (map<Uid, Uid>, map<Uid, Uid>) {
    (entries[u := k], if k in byId then byId else byId[k := u])
  }

  /** The running panes a republish means to carry over: in the tree, never published, and not in the
      new tree by session or by id. */
  function Orphans(entries: map<Uid, Uid>, exited: set<Uid>, prev: set<Uid>, tree: map<Uid, Uid>): set<Uid> {
    set u | u in entries && u !in exited && u !in prev && u !in tree && entries[u] !in tree.Values
  }

  /** The new tree with the panes of `carried` carried over. */
  function Republished(was: map<Uid, Uid>, tree: map<Uid, Uid>, carried: set<Uid>): map<Uid, Uid> {
    tree + map u | u in carried * was.Keys :: was[u]
  }

  /** Clients are to be told: a session was healed, the control side or the GUI changed which panes
      there are, or an active tab changed. */
  predicate Tells(s: Sides, healed: bool, gui: set<Uid>, before: map<nat, nat>, active: map<nat, nat>) {
    healed || s.Structural() || Changed(s.prev, gui) || before != active
  }

  lemma HealedTells(s: Sides, healed: bool, gui: set<Uid>, before: map<nat, nat>, active: map<nat, nat>)
    ensures Tells(s, healed, gui, before, active) <==> healed || Tells(s, false, gui, before, active)
  {
  }

  lemma TellsIs(s: Sides, gui: set<Uid>, before: map<nat, nat>, active: map<nat, nat>, structural: bool, republished: bool)
    requires structural == s.Structural() && (republished <==> Changed(s.prev, gui) || before != active)
    ensures Tells(s, false, gui, before, active) <==> structural || republished
  {
  }

  class ControlHost {
    /** The panes on the layout: a pane keeps its number when its session is renamed in place. */
    var gui: map<Uid, nat>
    var nextPane: nat
    /** Sessions the GUI keeps alive off the layout. */
    var parked: set<Uid>
    /** The read-model: the panes of its tree, and the one that a lookup by id finds. */
    var entries: map<Uid, Uid>
    var byId: map<Uid, Uid>
    var exited: set<Uid>
    var prev: set<Uid>
    var paneIds: map<Uid, Uid>
    var healPending: map<Uid, nat>
    /** The active tab of each window, as last published. */
    var prevActive: map<nat, nat>
    /** The alias map as last written to disk. */
    var savedIds: map<Uid, Uid>

    ghost function Now(): Sides
      reads this
    {
      var model := Found(entries, byId);
      Sides(gui.Keys, model, entries.Keys - model.Keys, prev, paneIds)
    }

    /** No two sessions share a pane, and the index is that of the tree. */
    ghost predicate Valid()
      reads `gui, `nextPane, `entries, `byId
    {
      && (forall u, v :: u in gui && v in gui && gui[u] == gui[v] ==> u == v)
      && (forall u :: u in gui ==> gui[u] < nextPane)
      && Indexed(entries, byId)
    }

    lemma IndexKept()
      requires Valid()
      ensures Indexed(entries, byId) && Now().model.Keys + Now().shadowed == entries.Keys
      ensures var model := Found(entries, byId); Now() == Sides(gui.Keys, model, entries.Keys - model.Keys, prev, paneIds)
    {
      FoundFacts(Now(), entries, byId);
    }

    constructor ()
      ensures Valid() && Now() == Sides({}, map[], {}, {}, map[]) && parked == {} && exited == {} && healPending == map[]
      ensures prevActive == map[] && savedIds == map[]
    {
      gui, nextPane, parked, entries, byId, exited, prev := map[], 0, {}, map[], map[], {}, {};
      paneIds, healPending, prevActive, savedIds := map[], map[], map[], map[];
    }

    method LostControlPanes(alive: set<Uid>) returns (lost: map<Uid, Uid>)
      requires Valid()
      ensures lost.Keys == Lost(Now(), parked, alive) && forall u :: u in lost ==> lost[u] == paneIds[u]
    {
      lost := map[];
      FoundFacts(Now(), entries, byId);
      var todo := paneIds.Keys;
      while todo != {}
        invariant todo <= paneIds.Keys
        invariant lost.Keys == Lost(Now(), parked, alive) - todo
        invariant forall u :: u in lost ==> lost[u] == paneIds[u]
        decreases todo
      {
        var u :| u in todo;
        if paneIds[u] != u && u !in gui && u !in parked && u !in entries && paneIds[u] !in byId && u in alive {
          lost := lost[u := paneIds[u]];
        }
        todo := todo - {u};
      }
    }

    method InsertPane(uid: Uid, paneId: Uid)
      requires Valid() && uid !in entries
      modifies `entries, `byId
      ensures Valid() && (entries, byId) == Inserted(old(entries), old(byId), uid, paneId)
    {
      entries := entries[uid := paneId];
      if paneId !in byId { byId := byId[paneId := uid]; }
    }

    /** Finds the lost; anything no longer lost leaves the debounce. */
    method ForgetFound(alive: set<Uid>) returns (lost: map<Uid, Uid>)
      requires Valid()
      modifies `healPending
      ensures lost.Keys == old(Lost(Now(), parked, alive)) && forall u :: u in lost ==> lost[u] == paneIds[u]
      ensures forall u :: u in lost ==> u !in entries && lost[u] !in byId
      ensures healPending == map u | u in old(healPending) && u in lost :: old(healPending)[u]
    {
      lost := LostControlPanes(alive);
      LostOutside(Now(), entries, byId, parked, alive, lost);
      hide *;
      healPending := map u | u in healPending && u in lost :: healPending[u];
    }

    /** One lost session: its debounce starts, goes on, or is over. */
    method HealOne(uid: Uid, paneId: Uid, now: nat, windowed: bool, ghost h: Recovery, ghost todo: set<Uid>) returns (inserted: bool)
      requires Valid() && h.Done(todo, now, windowed, entries, byId, healPending)
      requires uid in todo && todo <= h.lost.Keys && paneId == h.lost[uid]
      modifies `entries, `byId, `healPending
      ensures Valid() && h.Done(todo - {uid}, now, windowed, entries, byId, healPending)
      ensures inserted <==> windowed && uid in Due(h.lost.Keys, h.pending, now)
    {
      HealStep(h, todo, now, windowed, entries, byId, healPending, uid);
      hide Recovery.Done, Inserted, Due;
      inserted := false;
      var since := if uid in healPending then healPending[uid] else now;
      if now - since < HEAL_DEBOUNCE {
        healPending := healPending[uid := since];
      } else {
        healPending := healPending - {uid};
        if windowed {
          InsertPane(uid, paneId);
          inserted := true;
        }
      }
    }

    /** Each lost session in turn, `healPending` holding none but lost ones. */
    method HealEach(lost: map<Uid, Uid>, now: nat, windowed: bool) returns (healed: bool)
      requires Valid() && healPending.Keys <= lost.Keys && forall u :: u in lost ==> u !in entries && lost[u] !in byId
      modifies `entries, `byId, `healPending
      ensures Valid() && Recovery(old(entries), old(byId), old(healPending), lost).Done({}, now, windowed, entries, byId, healPending)
      ensures healed <==> windowed && Due(lost.Keys, old(healPending), now) != {}
    {
      ghost var h, due := Recovery(entries, byId, healPending, lost), Due(lost.Keys, healPending, now);
      healed := false;
      var todo := lost.Keys;
      assert due <= todo;
      hide Valid, Due, Recovery.Done;
      HealStart(h, now, windowed);
      while todo != {}
        invariant Valid() && todo <= lost.Keys && h.Done(todo, now, windowed, entries, byId, healPending)
        invariant (healed ==> windowed && due != {}) && (windowed && !healed ==> due <= todo)
        decreases todo
      {
        var uid :| uid in todo;
        var inserted := HealOne(uid, lost[uid], now, windowed, h, todo);
        todo := todo - {uid};
        healed := healed || inserted;
      }
    }

    /** Puts back every session lost for the debounce. Of those that share an id, `back` has the one
        then found by it. */
    method HealLostPanes(alive: set<Uid>, now: nat, windowed: bool) returns (healed: bool, ghost back: set<Uid>)
      requires Valid()
      modifies `entries, `byId, `healPending
      ensures Valid() && healPending == PendingAfter(old(Lost(Now(), parked, alive)), old(healPending), now)
      ensures OnePerId(paneIds, Due(old(Lost(Now(), parked, alive)), old(healPending), now), back)
      ensures Now() == HealedBy(old(Now()), parked, alive, old(healPending), now, windowed, back)
      ensures Grown(old(entries), entries, paneIds)
      ensures healed == Heals(old(Now()), parked, alive, old(healPending), now, windowed)
    {
      ghost var was, before, tree, index := Now(), healPending, entries, byId;
      IndexKept();
      hide *;
      var lost := ForgetFound(alive);
      ghost var h := Recovery(tree, index, healPending, lost);
      healed := HealEach(lost, now, windowed);
      IndexKept();
      back := HealingIs(was, h, before, parked, alive, windowed, now, entries, byId, healPending);
    }

    /** Every pane the read-model holds, looked up by its id. */
    method SnapshotModel() returns (cur: map<Uid, Uid>)
      requires Valid()
      ensures cur == Now().model
    {
      cur := map[];
      var todo := entries.Keys;
      while todo != {}
        invariant todo <= entries.Keys
        invariant forall u :: u in cur ==> u in Found(entries, byId) && cur[u] == entries[u]
        invariant forall u :: u in Found(entries, byId) && u !in todo ==> u in cur
        decreases todo
      {
        var u :| u in todo;
        var p := byId[entries[u]];
        cur := cur[p := entries[p]];
        todo := todo - {u};
      }
    }

    /** The GUI session named `paneId`, if any. */
    method GuiUidForPaneId(paneId: Uid) returns (found: Option<Uid>)
      ensures match found
        case Some(u) => u in gui && Eff(paneIds, u) == paneId
        case None => forall u :: u in gui ==> Eff(paneIds, u) != paneId
    {
      var todo := gui.Keys;
      while todo != {}
        invariant todo <= gui.Keys
        invariant forall u :: u in gui && u !in todo ==> Eff(paneIds, u) != paneId
        decreases todo
      {
        var u :| u in todo;
        if Eff(paneIds, u) == paneId { return Some(u); }
        todo := todo - {u};
      }
      found := None;
    }

    method RecordAliases(cur: map<Uid, Uid>)
      modifies `paneIds
      ensures paneIds == old(Now()).(model := cur).Recorded()
    {
      var todo := cur.Keys;
      while todo != {}
        invariant todo <= cur.Keys
        invariant forall u :: u in paneIds <==> u in old(paneIds) || (u in cur && u !in todo && cur[u] != u)
        invariant forall u :: u in paneIds ==> paneIds[u] == if u in old(paneIds) then old(paneIds)[u] else cur[u]
        decreases todo
      {
        var u :| u in todo;
        if cur[u] != u && u !in paneIds {
          paneIds := paneIds[u := cur[u]];
        }
        todo := todo - {u};
      }
    }

    /** Gives the pane of `old'` to the session that took its place. */
    method RebindRespawn(old': Uid, new': Uid, paneId: Uid)
      requires Valid() && old' in gui && new' !in gui
      modifies `gui, `paneIds
      ensures Valid() && gui == (old(gui) - {old'})[new' := old(gui)[old']]
      ensures paneIds == (old(paneIds) - {old'})[new' := paneId]
    {
      gui := (gui - {old'})[new' := gui[old']];
      paneIds := paneIds - {old'};
      paneIds := paneIds[new' := paneId];
    }

    method AdoptControlPane(u: Uid, paneId: Uid)
      requires Valid() && u !in gui
      modifies `gui, `nextPane, `paneIds
      ensures Valid() && gui == old(gui)[u := old(nextPane)]
      ensures paneIds == old(paneIds)[u := paneId]
    {
      gui := gui[u := nextPane];
      nextPane := nextPane + 1;
      paneIds := paneIds[u := paneId];
    }

    /** One new uid: some pane named as it is becomes its pane, or it gets one of its own. */
    method TakeIn(u: Uid, paneId: Uid, ghost s: Sides, ghost before: map<Uid, nat>, ghost done: set<Uid>, ghost gone: set<Uid>)
      returns (ghost ousted: set<Uid>)
      requires Valid() && u !in gui && u in s.New() && paneId == s.model[u] && u !in done && before.Keys == s.gui
      requires s.ModelApart() && TakenIn(s, before, gui, paneIds, done, gone)
      modifies `gui, `nextPane, `paneIds
      ensures Valid() && gui.Keys <= old(gui.Keys) + {u}
      ensures TakenIn(s, before, gui, paneIds, done + {u}, ousted)
    {
      hide Sides.GuiAfter, Sides.IdsAfter, Sides.Recorded, Sides.Displaced, Sides.New, Sides.Ousting, InPlace;
      ousted := gone;
      var respawnOf := GuiUidForPaneId(paneId);
      match respawnOf {
        case Some(old') =>
          RebindStep(s, done, gone, u, old');
          InPlaceRebound(s, before, gui, done, gone, old', u);
          ousted := gone + {old'};
          RebindRespawn(old', u, paneId);
        case None =>
          AdoptStep(s, done, gone, u);
          InPlaceAdopted(s, before, gui, gone, u, nextPane);
          AdoptControlPane(u, paneId);
      }
    }

    /** The model's uids one by one: skips the known, takes in the new. */
    method TakeInNew(cur: map<Uid, Uid>, ghost s: Sides) returns (any: bool, ghost ousted: set<Uid>)
      requires Valid() && gui.Keys == s.gui && cur == s.model && prev == s.prev && paneIds == s.Recorded() && s.ModelApart()
      modifies `gui, `nextPane, `paneIds
      ensures Valid() && TakenIn(s, old(gui), gui, paneIds, s.model.Keys, ousted)
      ensures any <==> s.New() != {}
    {
      any, ousted := false, {};
      var stateUids := gui.Keys;
      var todo := cur.Keys;
      NoneTakenIn(s, gui);
      assert cur.Keys - todo == {};
      hide TakenIn, Sides.ModelApart, Sides.Recorded;
      while todo != {}
        invariant Valid() && todo <= cur.Keys && gui.Keys <= stateUids + (cur.Keys - todo)
        invariant TakenIn(s, old(gui), gui, paneIds, cur.Keys - todo, ousted)
        invariant (any ==> s.New() != {}) && (!any ==> s.New() <= todo)
        decreases todo
      {
        var u :| u in todo;
        ghost var done := cur.Keys - todo;
        if u !in stateUids && u !in prev {
          ousted := TakeIn(u, cur[u], s, old(gui), done, ousted);
          any := true;
        } else {
          SkipTakenIn(s, old(gui), gui, paneIds, done, ousted, u);
        }
        assert cur.Keys - (todo - {u}) == done + {u};
        todo := todo - {u};
      }
      assert cur.Keys - todo == cur.Keys;
    }

    /** Takes out of the GUI what was published and the model holds no longer. */
    method DropClosed(stateUids: set<Uid>, cur: map<Uid, Uid>) returns (any: bool)
      requires Valid()
      modifies `gui
      ensures Valid() && gui == old(gui) - (prev * stateUids - cur.Keys)
      ensures any <==> prev * stateUids - cur.Keys != {}
    {
      any := false;
      var todo := prev;
      while todo != {}
        invariant todo <= prev
        invariant gui == old(gui) - ((prev - todo) * stateUids - cur.Keys)
        invariant any <==> (prev - todo) * stateUids - cur.Keys != {}
        decreases todo
      {
        var u :| u in todo;
        assert prev - (todo - {u}) == prev - todo + {u};
        assert (prev - todo + {u}) * stateUids - cur.Keys
            == (prev - todo) * stateUids - cur.Keys + if u in stateUids && u !in cur then {u} else {};
        if u in stateUids && u !in cur {
          gui := gui - {u};
          any := true;
        }
        todo := todo - {u};
      }
    }

    /** Brings the model's changes into the GUI. */
    method Apply(cur: map<Uid, Uid>, alive: set<Uid>) returns (structural: bool, ghost ousted: set<Uid>)
      requires Valid() && cur == Now().model
      modifies `gui, `nextPane, `paneIds
      ensures Valid()
      ensures var s := old(Now());
        && structural == s.Structural() && s.Ousting(s.model.Keys, ousted)
        && gui.Keys == s.GuiBy(ousted) && paneIds == s.IdsBy(alive, ousted) && InPlace(s, old(gui), gui, ousted)
    {
      ghost var s := Now();
      FoundFacts(s, entries, byId);
      assert s.(model := cur) == s && s.gui == gui.Keys && s.ids == paneIds && s.prev == prev;
      StructuralIs(s);
      hide *;
      var stateUids := gui.Keys;
      RecordAliases(cur);
      var took;
      took, ousted := TakeInNew(cur, s);
      ghost var taken, ids := gui, paneIds;
      var dropped := DropClosed(stateUids, cur);
      structural := took || dropped;
      PruneAliases(alive);
      MergedIs(s, old(gui), taken, ids, gui, paneIds, alive, ousted);
    }

    /** Brings the model's changes into the GUI, and writes the aliases out where the panes changed or
        the number of aliases did. Of the panes that carry the id of one new session `ousted` has the
        one that gave way to it. */
    method Reconcile(cur: map<Uid, Uid>, alive: set<Uid>) returns (structural: bool, ghost ousted: set<Uid>)
      requires Valid() && cur == Now().model
      modifies `gui, `nextPane, `paneIds, `savedIds
      ensures Valid()
      ensures var s := old(Now());
        && structural == s.Structural() && s.Ousting(s.model.Keys, ousted)
        && gui.Keys == s.GuiBy(ousted) && paneIds == s.IdsBy(alive, ousted) && InPlace(s, old(gui), gui, ousted)
      ensures savedIds == if structural || |paneIds| != |old(paneIds)| then paneIds else old(savedIds)
    {
      hide Sides.GuiBy, Sides.IdsBy, InPlace, Sides.Ousting, Valid, Sides.Structural, Found;
      var idsBefore := |paneIds|;
      structural, ousted := Apply(cur, alive);
      if structural || |paneIds| != idsBefore { savedIds := paneIds; }
    }

    /** An alias lives while its pane is shown or its session runs. */
    method PruneAliases(alive: set<Uid>)
      modifies `paneIds
      ensures paneIds == map u | u in old(paneIds) && (u in gui || u in alive) :: old(paneIds)[u]
    {
      paneIds := map u | u in paneIds && (u in gui || u in alive) :: paneIds[u];
    }

    /** The GUI's panes under their ids, in whatever order: where two share an id, the one that comes
        last is found by it. */
    method RebuildTree(alive: set<Uid>) returns (tree: map<Uid, Uid>, index: map<Uid, Uid>, dead: set<Uid>)
      ensures tree == TreeOf(gui.Keys, paneIds) && Indexed(tree, index) && dead == gui.Keys - alive
    {
      tree, index, dead := map[], map[], {};
      var todo := gui.Keys;
      while todo != {}
        invariant todo <= gui.Keys && tree.Keys == gui.Keys - todo
        invariant forall u :: u in tree ==> tree[u] == Eff(paneIds, u)
        invariant Indexed(tree, index) && dead == gui.Keys - todo - alive
        decreases todo
      {
        var u :| u in todo;
        tree := tree[u := Eff(paneIds, u)];
        index := index[Eff(paneIds, u) := u];
        if u !in alive { dead := dead + {u}; }
        todo := todo - {u};
      }
    }

    /** Puts the orphans in the new tree, unless one put there before has their id. */
    method CarryOver(was: map<Uid, Uid>, orphans: set<Uid>) returns (ghost carried: set<Uid>)
      requires Valid() && orphans <= was.Keys && forall u :: u in orphans ==> u !in entries && was[u] !in byId
      modifies `entries, `byId
      ensures Valid() && OnePerId(was, orphans, carried)
      ensures entries == Republished(was, old(entries), carried)
    {
      carried := {};
      ghost var tree, index := entries, byId;
      var todo := orphans;
      NoneCarriedOver(was, tree, index);
      assert orphans - todo == {};
      hide Valid, CarriedOver;
      while todo != {}
        invariant Valid() && todo <= orphans
        invariant CarriedOver(was, tree, index, orphans - todo, carried, entries, byId)
        decreases todo
      {
        var u :| u in todo;
        assert orphans - (todo - {u}) == orphans - todo + {u};
        if was[u] !in byId {
          CarryMore(was, tree, index, orphans - todo, carried, entries, byId, u);
          InsertPane(u, was[u]);
          carried := carried + {u};
        } else {
          CarryNot(was, tree, index, orphans - todo, carried, entries, byId, u);
        }
        todo := todo - {u};
      }
      assert orphans - todo == orphans;
      CarriedIs(was, tree, index, orphans, carried, entries, byId);
    }

    /** Rebuilds the model from the GUI's panes, carrying over running panes the GUI has never shown;
        says whether the panes or the active tabs changed. */
    method Publish(alive: set<Uid>, active: map<nat, nat>) returns (changed: bool, ghost carried: set<Uid>)
      requires Valid()
      modifies `entries, `byId, `exited, `prev, `prevActive
      ensures Valid()
      ensures var tree := TreeOf(gui.Keys, paneIds);
        && OnePerId(old(entries), Orphans(old(entries), old(exited), old(prev), tree), carried)
        && entries == Republished(old(entries), tree, carried)
      ensures exited == gui.Keys - alive && prev == gui.Keys && prevActive == active
      ensures changed <==> Changed(old(prev), gui.Keys) || old(prevActive) != active
    {
      var was := entries;
      var tree, index, dead := RebuildTree(alive);
      hide TreeOf, Changed, Valid, OnePerId, Republished;
      changed := Changed(prev, gui.Keys) || prevActive != active;
      var orphans := Orphans(was, exited, prev, tree);
      OrphansOutside(was, exited, prev, tree, index);
      hide Orphans;
      SetTree(tree, index);
      carried := CarryOver(was, orphans);
      exited := dead;
      prev := gui.Keys;
      prevActive := active;
    }

    method SetTree(tree: map<Uid, Uid>, index: map<Uid, Uid>)
      requires Valid() && Indexed(tree, index)
      modifies `entries, `byId
      ensures Valid() && entries == tree && byId == index
    {
      entries, byId := tree, index;
    }

    /** Reconcile and republish under one lock: the merge. `found` are the panes then found by their
        ids. */
    method Merge(alive: set<Uid>, active: map<nat, nat>) returns (changed: bool, ghost ousted: set<Uid>, ghost found: set<Uid>)
      requires Valid()
      modifies `gui, `nextPane, `entries, `byId, `exited, `prev, `paneIds, `savedIds, `prevActive
      ensures Valid() && prevActive == active
      ensures var s := old(Now());
        && MergedInPlace(s, old(gui), gui, paneIds, alive, ousted, found)
        && (NoneToCarry(s, old(entries)) ==> Now() == s.MergedBy(alive, ousted, found))
        && changed == Tells(s, false, gui.Keys, old(prevActive), active)
    {
      ghost var s, was, gone := Now(), entries, exited;
      FoundFacts(s, entries, byId);
      hide Valid, Indexed, Found, Sides.GuiBy, Sides.IdsBy, InPlace, Sides.Ousting, Sides.Structural, OnePerId, Orphans, TreeOf,
        Sides.ModelApart, Changed, Republished, Sides.CanMerge, Sides.MergedBy, NoneToCarry, Tells;
      var cur := SnapshotModel();
      var structural, republished;
      ghost var carried;
      structural, ousted := Reconcile(cur, alive);
      republished, carried := Publish(alive, active);
      changed := structural || republished;
      TellsIs(s, gui.Keys, old(prevActive), active, structural, republished);
      IndexKept();
      found := RepublishIs(s, was, gone, carried, alive, ousted, entries, byId);
    }

    /** A tick: heal, reconcile and republish, with nothing in between. Says whether clients are to be
        told: something was healed, the panes changed on either side, or an active tab did. */
    method Sync(alive: set<Uid>, active: map<nat, nat>, now: nat, windowed: bool)
      returns (changed: bool, ghost back: set<Uid>, ghost ousted: set<Uid>, ghost found: set<Uid>)
      requires Valid()
      modifies `gui, `nextPane, `entries, `byId, `exited, `prev, `paneIds, `savedIds, `prevActive, `healPending
      ensures Valid() && prevActive == active
      ensures healPending == PendingAfter(old(Lost(Now(), parked, alive)), old(healPending), now)
      ensures OnePerId(old(paneIds), old(Due(Lost(Now(), parked, alive), healPending, now)), back)
      ensures var s, pending := old(Now()), old(healPending);
        var h := HealedBy(s, parked, alive, pending, now, windowed, back);
        && MergedInPlace(h, old(gui), gui, paneIds, alive, ousted, found)
        && (Kept(s, parked, alive) ==> Now() == h.MergedBy(alive, ousted, found))
        && changed == Tells(h, Heals(s, parked, alive, pending, now, windowed), gui.Keys, old(prevActive), active)
    {
      ghost var s, pending := Now(), healPending;
      IndexKept();
      hide *;
      var healed, merged;
      healed, back := HealLostPanes(alive, now, windowed);
      IndexKept();
      ghost var h := HealedBy(s, parked, alive, pending, now, windowed, back);
      if Kept(s, parked, alive) {
        KeptCarriesNone(s, parked, alive, pending, now, windowed, back, old(entries), entries);
      }
      merged, ousted, found := Merge(alive, active);
      HealedTells(h, healed, gui.Keys, old(prevActive), active);
      changed := healed || merged;
    }
  }

  /** Where healing starts from: the tree and its index, the clocks and the lost sessions with their ids,
      none of them in the tree. */
  datatype Recovery = Recovery(tree: map<Uid, Uid>, index: map<Uid, Uid>, pending: map<Uid, nat>, lost: map<Uid, Uid>) {
    /** Where it has come to once all lost but those of `todo` have been looked at. */
    ghost predicate Done(todo: set<Uid>, now: nat, windowed: bool, entries: map<Uid, Uid>, byId: map<Uid, Uid>, clocks: map<Uid, nat>) {
      var due := Due(lost.Keys, pending, now);
      && lost.Keys !! tree.Keys && lost.Values !! index.Keys
      && Clocked(todo, now, clocks) && Grown(if windowed then due - todo else {}, entries, byId)
    }

    ghost predicate Clocked(todo: set<Uid>, now: nat, clocks: map<Uid, nat>) {
      && (forall u :: u in clocks <==> (u in todo && u in pending) || (u in lost && u !in todo && u !in Due(lost.Keys, pending, now)))
      && (forall u :: u in clocks ==> clocks[u] == if u in pending then pending[u] else now)
    }

    function With(put: set<Uid>): map<Uid, Uid> {
      tree + map u | u in put * lost.Keys :: lost[u]
    }

    /** The tree with the panes of `put` added, an id that finds a pane going on finding it. */
    ghost predicate Grown(put: set<Uid>, entries: map<Uid, Uid>, byId: map<Uid, Uid>) {
      && put <= lost.Keys && entries == With(put)
      && (forall k :: k in index ==> k in byId && byId[k] == index[k])
      && (forall k :: k in byId && k !in index ==> byId[k] in put && lost[byId[k]] == k)
    }
  }

  lemma HealStart(h: Recovery, now: nat, windowed: bool)
    requires h.pending.Keys <= h.lost.Keys && forall u :: u in h.lost ==> u !in h.tree && h.lost[u] !in h.index
    ensures h.Done(h.lost.Keys, now, windowed, h.tree, h.index, h.pending)
  {
    var put := if windowed then Due(h.lost.Keys, h.pending, now) - h.lost.Keys else {};
    assert put == {} && h.With(put) == h.tree;
  }

  lemma ClockOne(h: Recovery, todo: set<Uid>, now: nat, clocks: map<Uid, nat>, u: Uid)
    requires h.Clocked(todo, now, clocks) && u in todo && todo <= h.lost.Keys
    ensures var since := if u in clocks then clocks[u] else now;
      && (u in Due(h.lost.Keys, h.pending, now) <==> now - since >= HEAL_DEBOUNCE)
      && h.Clocked(todo - {u}, now, if now - since < HEAL_DEBOUNCE then clocks[u := since] else clocks - {u})
  {
  }

  lemma GrowOne(h: Recovery, put: set<Uid>, entries: map<Uid, Uid>, byId: map<Uid, Uid>, u: Uid)
    requires h.Grown(put, entries, byId) && u in h.lost && u !in put && u !in h.tree && h.lost[u] !in h.index
    ensures u !in entries
    ensures h.Grown(put + {u}, Inserted(entries, byId, u, h.lost[u]).0, Inserted(entries, byId, u, h.lost[u]).1)
  {
    assert entries[u := h.lost[u]] == h.With(put + {u});
  }

  lemma HealStep(h: Recovery, todo: set<Uid>, now: nat, windowed: bool, entries: map<Uid, Uid>, byId: map<Uid, Uid>,
                 clocks: map<Uid, nat>, u: Uid)
    requires h.Done(todo, now, windowed, entries, byId, clocks) && u in todo && todo <= h.lost.Keys
    ensures u !in entries
    ensures var since := if u in clocks then clocks[u] else now;
      if now - since < HEAL_DEBOUNCE then
        u !in Due(h.lost.Keys, h.pending, now) && h.Done(todo - {u}, now, windowed, entries, byId, clocks[u := since])
      else
        var (entries', byId') := if windowed then Inserted(entries, byId, u, h.lost[u]) else (entries, byId);
        u in Due(h.lost.Keys, h.pending, now) && h.Done(todo - {u}, now, windowed, entries', byId', clocks - {u})
  {
    ClockOne(h, todo, now, clocks, u);
    var due := Due(h.lost.Keys, h.pending, now);
    assert h.lost[u] in h.lost.Values;
    var put := if windowed then due - todo else {};
    assert windowed ==> due - (todo - {u}) == if u in due then put + {u} else put;
    GrowOne(h, put, entries, byId, u);
    hide Due, Recovery.Clocked, Recovery.Grown;
  }

  /** Whatever the tree has got is there under its alias. */
  ghost predicate Grown(was: map<Uid, Uid>, entries: map<Uid, Uid>, ids: map<Uid, Uid>) {
    && (forall u :: u in was ==> u in entries && entries[u] == was[u])
    && forall u :: u in entries && u !in was ==> u in ids && entries[u] == ids[u]
  }

  /** What healing each lost session comes to. */
  lemma HealingIs(s: Sides, h: Recovery, before: map<Uid, nat>, parked: set<Uid>, alive: set<Uid>, windowed: bool, now: nat,
                  entries: map<Uid, Uid>, byId: map<Uid, Uid>, clocks: map<Uid, nat>) returns (back: set<Uid>)
    requires Indexed(h.tree, h.index) && Indexed(entries, byId) && h.Done({}, now, windowed, entries, byId, clocks)
    requires s.model == Found(h.tree, h.index) && s.shadowed == h.tree.Keys - s.model.Keys
    requires h.lost.Keys == Lost(s, parked, alive) && forall u :: u in h.lost ==> h.lost[u] == s.ids[u]
    requires h.pending == map u | u in before && u in h.lost :: before[u]
    ensures var due := Due(Lost(s, parked, alive), before, now);
      && Due(h.lost.Keys, h.pending, now) == due && OnePerId(s.ids, due, back)
      && clocks == PendingAfter(Lost(s, parked, alive), before, now)
      && var model := Found(entries, byId);
         s.(model := model, shadowed := entries.Keys - model.Keys) == HealedBy(s, parked, alive, before, now, windowed, back)
    ensures Grown(h.tree, entries, s.ids)
  {
    assert forall u :: u in h.lost ==> u in s.ids;
    DueKept(h.lost.Keys, before, h.pending, now);
    PendingIs(h, before, windowed, now, entries, byId, clocks);
    hide Found, Lost, Indexed, OnePerId, Reinserted, PendingAfter, Grown, Due, Recovery.Done;
    back := HealedIs(s, h, windowed, now, entries, byId, clocks);
  }

  lemma LostOutside(s: Sides, entries: map<Uid, Uid>, byId: map<Uid, Uid>, parked: set<Uid>, alive: set<Uid>, lost: map<Uid, Uid>)
    requires Indexed(entries, byId) && s.model == Found(entries, byId) && s.shadowed == entries.Keys - s.model.Keys
    requires lost.Keys == Lost(s, parked, alive) && forall u :: u in lost ==> lost[u] == s.ids[u]
    ensures forall u :: u in lost ==> u !in entries && lost[u] !in byId && u in s.ids
  {
    FoundFacts(s, entries, byId);
  }

  /** Of the panes put back, those found by their id are one for each id. */
  lemma HealedIs(s: Sides, h: Recovery, windowed: bool, now: nat, entries: map<Uid, Uid>, byId: map<Uid, Uid>, clocks: map<Uid, nat>)
    returns (back: set<Uid>)
    requires Indexed(h.tree, h.index) && Indexed(entries, byId) && h.Done({}, now, windowed, entries, byId, clocks)
    requires s.model == Found(h.tree, h.index) && s.shadowed == h.tree.Keys - s.model.Keys
    requires forall u :: u in h.lost ==> u in s.ids && h.lost[u] == s.ids[u]
    ensures var due := Due(h.lost.Keys, h.pending, now);
      && due <= s.ids.Keys && OnePerId(s.ids, due, back)
      && var model := Found(entries, byId);
         s.(model := model, shadowed := entries.Keys - model.Keys) == if windowed then Reinserted(s, due, back) else s
    ensures Grown(h.tree, entries, s.ids)
  {
    var due := Due(h.lost.Keys, h.pending, now);
    RecoveredTree(s.ids, h, windowed, now, entries, byId, clocks);
    assert due <= s.ids.Keys;
    hide Due, Recovery.Grown, Recovery.Clocked, Indexed, Grown;
    if windowed {
      assert due - {} == due;
      back := set u | u in due && h.lost[u] in byId && byId[h.lost[u]] == u;
      PutOne(s.ids, h, due, back, entries, byId);
      PutFound(s, h, due, back, entries, byId);
    } else {
      back := SomePicked(s.ids, due);
    }
  }

  lemma RecoveredTree(ids: map<Uid, Uid>, h: Recovery, windowed: bool, now: nat, entries: map<Uid, Uid>, byId: map<Uid, Uid>,
                      clocks: map<Uid, nat>)
    requires h.Done({}, now, windowed, entries, byId, clocks)
    requires forall u :: u in h.lost ==> u in ids && h.lost[u] == ids[u]
    ensures Grown(h.tree, entries, ids) && (!windowed ==> entries == h.tree && byId == h.index)
  {
  }

  lemma PutOne(ids: map<Uid, Uid>, h: Recovery, due: set<Uid>, back: set<Uid>, entries: map<Uid, Uid>, byId: map<Uid, Uid>)
    requires Indexed(entries, byId) && h.Grown(due, entries, byId) && h.lost.Values !! h.index.Keys
    requires forall u :: u in h.lost ==> u in ids && h.lost[u] == ids[u]
    requires back == set u | u in due && h.lost[u] in byId && byId[h.lost[u]] == u
    ensures OnePerId(ids, due, back)
  {
    forall u | u in due ensures Carries(ids, back, Eff(ids, u)) {
      assert entries[u] == h.lost[u] && h.lost[u] in h.lost.Values;
      assert byId[h.lost[u]] in back;
    }
  }

  lemma PutFound(s: Sides, h: Recovery, due: set<Uid>, back: set<Uid>, entries: map<Uid, Uid>, byId: map<Uid, Uid>)
    requires Indexed(h.tree, h.index) && h.Grown(due, entries, byId) && h.lost.Keys !! h.tree.Keys && due <= s.ids.Keys
    requires s.model == Found(h.tree, h.index) && s.shadowed == h.tree.Keys - s.model.Keys
    requires forall u :: u in h.lost ==> u in s.ids && h.lost[u] == s.ids[u]
    requires back == set u | u in due && h.lost[u] in byId && byId[h.lost[u]] == u
    ensures var model := Found(entries, byId);
      s.(model := model, shadowed := entries.Keys - model.Keys) == Reinserted(s, due, back)
  {
    FoundMore(h, s.ids, due, back, entries, byId);
    assert s.model.Keys <= h.tree.Keys && back <= due;
    hide Found, Indexed, Recovery.Grown;
    StillHidden(h.tree.Keys, s.model, due, back, Aliased(s.ids, due * back));
  }

  lemma StillHidden(tree: set<Uid>, found: map<Uid, Uid>, due: set<Uid>, back: set<Uid>, put: map<Uid, Uid>)
    requires found.Keys <= tree && back <= due && due !! tree && put.Keys == due * back
    ensures tree + due - (found + put).Keys == tree - found.Keys + (due - back)
  {
  }

  lemma FoundMore(h: Recovery, ids: map<Uid, Uid>, due: set<Uid>, back: set<Uid>, entries: map<Uid, Uid>, byId: map<Uid, Uid>)
    requires Indexed(h.tree, h.index) && h.Grown(due, entries, byId) && h.lost.Keys !! h.tree.Keys
    requires forall u :: u in h.lost ==> u in ids && h.lost[u] == ids[u]
    requires back == set u | u in due && h.lost[u] in byId && byId[h.lost[u]] == u
    ensures entries.Keys == h.tree.Keys + due && Aliased(ids, due * back).Keys == due * back
    ensures Found(entries, byId) == Found(h.tree, h.index) + Aliased(ids, due * back)
  {
    forall u | u in h.tree ensures u in Found(entries, byId) <==> u in Found(h.tree, h.index) {
      assert byId[entries[u]] == h.index[entries[u]];
    }
  }

  lemma PendingIs(h: Recovery, before: map<Uid, nat>, windowed: bool, now: nat, entries: map<Uid, Uid>, byId: map<Uid, Uid>,
                  clocks: map<Uid, nat>)
    requires h.pending == map u | u in before && u in h.lost :: before[u]
    requires h.Done({}, now, windowed, entries, byId, clocks) && Due(h.lost.Keys, h.pending, now) == Due(h.lost.Keys, before, now)
    ensures clocks == PendingAfter(h.lost.Keys, before, now)
  {
  }

  /** The GUI and the alias map once the model uids in `done` are taken in and those of `ousted` have
      given way. */
  ghost predicate TakenIn(s: Sides, before: map<Uid, nat>, gui: map<Uid, nat>, ids: map<Uid, Uid>, done: set<Uid>, ousted: set<Uid>) {
    && s.Ousting(done, ousted) && gui.Keys == s.GuiAfter(done, ousted) && ids == s.IdsAfter(done, ousted)
    && InPlace(s, before, gui, ousted)
  }

  lemma NoneTakenIn(s: Sides, gui: map<Uid, nat>)
    requires gui.Keys == s.gui
    ensures TakenIn(s, gui, gui, s.Recorded(), {}, {})
  {
    assert s.New() * {} == {} && s.NewIds({}) == {} && s.Displaced({}) == {};
    assert s.IdsAfter({}, {}) == s.Recorded();
  }

  lemma SkipTakenIn(s: Sides, before: map<Uid, nat>, gui: map<Uid, nat>, ids: map<Uid, Uid>, done: set<Uid>, ousted: set<Uid>, u: Uid)
    requires u !in s.New()
    ensures TakenIn(s, before, gui, ids, done, ousted) ==> TakenIn(s, before, gui, ids, done + {u}, ousted)
  {
    SkipStep(s, done, ousted, u);
  }

  lemma StructuralIs(s: Sides)
    ensures s.Structural() <==> s.New() != {} || s.prev * s.gui - s.model.Keys != {}
  {
  }

  /** Taking in, dropping the closed and pruning the aliases is the merge. */
  lemma MergedIs(s: Sides, before: map<Uid, nat>, taken: map<Uid, nat>, ids: map<Uid, Uid>,
                 gui: map<Uid, nat>, ids': map<Uid, Uid>, alive: set<Uid>, ousted: set<Uid>)
    requires TakenIn(s, before, taken, ids, s.model.Keys, ousted) && before.Keys == s.gui
    requires gui == taken - (s.prev * s.gui - s.model.Keys)
    requires ids' == map u | u in ids && (u in gui || u in alive) :: ids[u]
    ensures gui.Keys == s.GuiBy(ousted) && ids' == s.IdsBy(alive, ousted) && InPlace(s, before, gui, ousted)
  {
    hide Sides.GuiAfter, Sides.IdsAfter, Sides.Recorded, Sides.Ousting;
  }

  /** Compared by size and by anything new. */
  predicate Changed(was: set<Uid>, now: set<Uid>) {
    |was| != |now| || exists u :: u in now && u !in was
  }

  /** Which is to say compared as sets. */
  lemma ChangedIff(was: set<Uid>, now: set<Uid>)
    ensures Changed(was, now) <==> was != now
  {
    if |was| == |now| && now <= was { Subset(now, was); }
  }

  lemma {:induction false} Subset(b: set<Uid>, a: set<Uid>)
    requires b <= a && |a| == |b|
    ensures a == b
    decreases a
  {
    if u :| u in b {
      Subset(b - {u}, a - {u});
      assert b == b - {u} + {u} && a == a - {u} + {u};
    } else {
      assert b == {};
    }
  }

  /** Panes that stay keep their place; a session that another gave way to has its place. */
  ghost predicate InPlace(s: Sides, before: map<Uid, nat>, after: map<Uid, nat>, ousted: set<Uid>) {
    && (forall u :: u in after && u in before ==> after[u] == before[u])
    && (forall u, v :: u in after && u !in before && v in ousted && v in before && u in s.model && Eff(s.Recorded(), v) == s.model[u]
          ==> after[u] == before[v])
  }

  lemma InPlaceRebound(s: Sides, before: map<Uid, nat>, gui: map<Uid, nat>, done: set<Uid>, ousted: set<Uid>, old': Uid, u: Uid)
    requires s.ModelApart() && InPlace(s, before, gui, ousted) && s.Ousting(done, ousted) && before.Keys == s.gui
    requires old' in gui && old' in s.gui && u in s.New() && u !in done && Eff(s.Recorded(), old') == s.model[u]
    ensures InPlace(s, before, (gui - {old'})[u := gui[old']], ousted + {old'})
  {
    forall v | v in ousted ensures Eff(s.Recorded(), v) != s.model[u] {
      var x :| x in s.New() * done && s.model[x] == Eff(s.Recorded(), v);
    }
  }

  lemma InPlaceAdopted(s: Sides, before: map<Uid, nat>, gui: map<Uid, nat>, ousted: set<Uid>, u: Uid, pane: nat)
    requires InPlace(s, before, gui, ousted) && before.Keys == s.gui && u in s.New()
    requires forall v :: v in s.gui ==> Eff(s.Recorded(), v) != s.model[u]
    ensures InPlace(s, before, gui[u := pane], ousted)
  {
  }

  lemma OrphansOutside(was: map<Uid, Uid>, exited: set<Uid>, prev: set<Uid>, tree: map<Uid, Uid>, index: map<Uid, Uid>)
    requires Indexed(tree, index)
    ensures var orphans := Orphans(was, exited, prev, tree);
      orphans <= was.Keys && forall u :: u in orphans ==> u !in tree && was[u] !in index
  {
    assert forall k :: k in index ==> tree[index[k]] == k;
  }

  lemma PickSame(ids: map<Uid, Uid>, from: set<Uid>, picked: set<Uid>, u: Uid)
    requires OnePerId(ids, from, picked) && Carries(ids, picked, Eff(ids, u))
    ensures OnePerId(ids, from + {u}, picked)
  {
  }

  function IdsOf(ids: map<Uid, Uid>, panes: set<Uid>): set<Uid> {
    set u | u in panes :: Eff(ids, u)
  }

  /** The orphans of `done` looked at, those of `carried` put in the tree. */
  ghost predicate CarriedOver(was: map<Uid, Uid>, tree: map<Uid, Uid>, index: map<Uid, Uid>, done: set<Uid>, carried: set<Uid>,
                              entries: map<Uid, Uid>, byId: map<Uid, Uid>) {
    && OnePerId(was, done, carried) && carried <= done && entries == Republished(was, tree, carried)
    && byId.Keys == index.Keys + IdsOf(was, carried)
  }

  lemma NoneCarriedOver(was: map<Uid, Uid>, tree: map<Uid, Uid>, index: map<Uid, Uid>)
    ensures CarriedOver(was, tree, index, {}, {}, tree, index)
  {
    assert Republished(was, tree, {}) == tree;
  }

  lemma CarriedIs(was: map<Uid, Uid>, tree: map<Uid, Uid>, index: map<Uid, Uid>, done: set<Uid>, carried: set<Uid>,
                  entries: map<Uid, Uid>, byId: map<Uid, Uid>)
    requires CarriedOver(was, tree, index, done, carried, entries, byId)
    ensures OnePerId(was, done, carried) && entries == Republished(was, tree, carried)
  {
  }

  lemma CarryMore(was: map<Uid, Uid>, tree: map<Uid, Uid>, index: map<Uid, Uid>, done: set<Uid>, carried: set<Uid>,
                  entries: map<Uid, Uid>, byId: map<Uid, Uid>, u: Uid)
    requires CarriedOver(was, tree, index, done, carried, entries, byId) && u in was && u !in done && u !in tree && was[u] !in byId
    ensures u !in entries
    ensures var (entries', byId') := Inserted(entries, byId, u, was[u]);
      CarriedOver(was, tree, index, done + {u}, carried + {u}, entries', byId')
  {
    PickMore(was, done, carried, done + {u}, u);
    RepublishedMore(was, tree, carried, u);
    hide OnePerId, Carries, IdsOf, Republished;
  }

  lemma RepublishedMore(was: map<Uid, Uid>, tree: map<Uid, Uid>, carried: set<Uid>, u: Uid)
    requires u in was && u !in tree
    ensures IdsOf(was, carried + {u}) == IdsOf(was, carried) + {was[u]}
    ensures Republished(was, tree, carried + {u}) == Republished(was, tree, carried)[u := was[u]]
    ensures u !in carried ==> u !in Republished(was, tree, carried)
  {
  }

  lemma CarryNot(was: map<Uid, Uid>, tree: map<Uid, Uid>, index: map<Uid, Uid>, done: set<Uid>, carried: set<Uid>,
                 entries: map<Uid, Uid>, byId: map<Uid, Uid>, u: Uid)
    requires CarriedOver(was, tree, index, done, carried, entries, byId) && u in was && was[u] !in index && was[u] in byId
    ensures CarriedOver(was, tree, index, done + {u}, carried, entries, byId)
  {
    assert Carries(was, carried, Eff(was, u));
    PickSame(was, done, carried, u);
  }

  /** The GUI and the aliases are merged, panes and their successors in place. */
  ghost predicate MergedInPlace(s: Sides, before: map<Uid, nat>, gui: map<Uid, nat>, ids: map<Uid, Uid>, alive: set<Uid>,
                                ousted: set<Uid>, found: set<Uid>) {
    && s.CanMerge(alive, ousted, found) && InPlace(s, before, gui, ousted)
    && gui.Keys == s.GuiBy(ousted) && ids == s.IdsBy(alive, ousted)
  }

  /** Whatever in the tree was never published is new to the GUI, or shares its id with a pane that is. */
  ghost predicate NoneToCarry(s: Sides, entries: map<Uid, Uid>) {
    forall u :: u in entries && u !in s.prev ==> u in s.New() || entries[u] in s.NewIds(s.model.Keys)
  }

  /** Then, after a reconcile, a republish under the same lock has nothing to carry over. */
  lemma NothingCarried(s: Sides, entries: map<Uid, Uid>, exited: set<Uid>, alive: set<Uid>, ousted: set<Uid>)
    requires s.ModelApart() && s.Ousting(s.model.Keys, ousted) && NoneToCarry(s, entries)
    ensures Orphans(entries, exited, s.prev, TreeOf(s.GuiBy(ousted), s.IdsBy(alive, ousted))) == {}
  {
    var tree := TreeOf(s.GuiBy(ousted), s.IdsBy(alive, ousted));
    forall c | c in s.New() ensures c in tree && tree[c] == s.model[c] {
    }
  }

  /** A republish shows each pane of the GUI under its id and loses no id of a running pane the GUI has
      never shown; what it keeps besides the GUI's panes are such panes, each under an id of its own. */
  lemma RepublishKeeps(was: map<Uid, Uid>, exited: set<Uid>, prev: set<Uid>, gui: set<Uid>, ids: map<Uid, Uid>, carried: set<Uid>, u: Uid)
    requires OnePerId(was, Orphans(was, exited, prev, TreeOf(gui, ids)), carried)
    ensures var entries := Republished(was, TreeOf(gui, ids), carried);
      && (u in gui ==> u in entries && entries[u] == Eff(ids, u))
      && (u in was && u !in exited && u !in prev ==> was[u] in entries.Values || u in gui)
      && (u in entries && u !in gui ==>
            && u in was && u !in exited && u !in prev && entries[u] == was[u]
            && forall v :: v in entries && v != u ==> entries[v] != entries[u])
  {
    var entries := Republished(was, TreeOf(gui, ids), carried);
    if u in Orphans(was, exited, prev, TreeOf(gui, ids)) {
      assert Carries(was, carried, Eff(was, u));
      var v :| v in carried && Eff(was, v) == Eff(was, u);
      assert v in entries && entries[v] == was[u];
    } else if u in was && u !in exited && u !in prev && u !in gui {
      var v :| v in gui && Eff(ids, v) == was[u];
      assert v in entries && entries[v] == was[u];
    }
    if u in entries && u !in gui {
      forall v | v in entries && v != u ensures entries[v] != entries[u] {
        if v in gui { assert TreeOf(gui, ids)[v] == entries[v]; }
      }
    }
  }

  /** Clients are told exactly when something was healed, a pane came in from the control side or was
      closed there, the GUI shows other panes than at the last publish, or an active tab changed. */
  lemma ToldIff(s: Sides, healed: bool, gui: set<Uid>, before: map<nat, nat>, active: map<nat, nat>)
    ensures Tells(s, healed, gui, before, active) <==>
      || healed || before != active || s.prev != gui
      || (exists u :: u in s.model && u !in s.gui && u !in s.prev)
      || (exists u :: u in s.gui && u in s.prev && u !in s.model)
  {
    ChangedIff(s.prev, gui);
    StructuralIs(s);
    hide Changed, Sides.Structural;
    if s.New() != {} { var u :| u in s.New(); }
    if s.prev * s.gui - s.model.Keys != {} { var u :| u in s.prev * s.gui - s.model.Keys; }
    assert forall u :: u in s.model && u !in s.gui && u !in s.prev ==> u in s.New();
    assert forall u :: u in s.gui && u in s.prev && u !in s.model ==> u in s.prev * s.gui - s.model.Keys;
  }

  /** What a tick starts from, and healing adds, is nothing a republish would carry over. */
  lemma KeptCarriesNone(s: Sides, parked: set<Uid>, alive: set<Uid>, pending: map<Uid, nat>, now: nat, windowed: bool, back: set<Uid>,
                        was: map<Uid, Uid>, entries: map<Uid, Uid>)
    requires Kept(s, parked, alive) && was.Keys == s.model.Keys + s.shadowed && Grown(was, entries, s.ids)
    requires OnePerId(s.ids, Due(Lost(s, parked, alive), pending, now), back)
    requires var h := HealedBy(s, parked, alive, pending, now, windowed, back); entries.Keys == h.model.Keys + h.shadowed
    ensures NoneToCarry(HealedBy(s, parked, alive, pending, now, windowed, back), entries)
  {
    var h, due := HealedBy(s, parked, alive, pending, now, windowed, back), Due(Lost(s, parked, alive), pending, now);
    forall u | u in entries && u !in s.prev ensures u in h.New() || entries[u] in h.NewIds(h.model.Keys) {
      if u in h.shadowed && u !in h.model {
        assert Carries(s.ids, back, Eff(s.ids, u));
        var c :| c in back && Eff(s.ids, c) == Eff(s.ids, u);
        assert c in h.New() * h.model.Keys && h.model[c] == entries[u];
      }
    }
  }

  /** After a republish the panes found are one of the GUI's for each id. */
  lemma RepublishIs(s: Sides, was: map<Uid, Uid>, exited: set<Uid>, carried: set<Uid>, alive: set<Uid>, ousted: set<Uid>,
                    entries: map<Uid, Uid>, byId: map<Uid, Uid>) returns (found: set<Uid>)
    requires s.ModelApart() && s.Ousting(s.model.Keys, ousted) && Indexed(entries, byId)
    requires var tree := TreeOf(s.GuiBy(ousted), s.IdsBy(alive, ousted));
      OnePerId(was, Orphans(was, exited, s.prev, tree), carried) && entries == Republished(was, tree, carried)
    ensures s.CanMerge(alive, ousted, found)
    ensures NoneToCarry(s, was) ==>
      var model := Found(entries, byId);
      Sides(s.GuiBy(ousted), model, entries.Keys - model.Keys, s.GuiBy(ousted), s.IdsBy(alive, ousted)) == s.MergedBy(alive, ousted, found)
  {
    var gui, ids := s.GuiBy(ousted), s.IdsBy(alive, ousted);
    found := Found(entries, byId).Keys * gui;
    if NoneToCarry(s, was) {
      NothingCarried(s, was, exited, alive, ousted);
      RepublishedNone(was, TreeOf(gui, ids), carried);
    }
    RepublishedEntries(was, exited, s.prev, gui, ids, carried);
    hide Sides.GuiBy, Sides.IdsBy, Sides.Ousting, Sides.ModelApart, NoneToCarry, Orphans, Republished, OnePerId, Found, TreeOf, Indexed;
    FoundOne(gui, ids, entries, byId);
  }

  lemma RepublishedNone(was: map<Uid, Uid>, tree: map<Uid, Uid>, carried: set<Uid>)
    requires carried <= {}
    ensures Republished(was, tree, carried) == tree
  {
  }

  lemma RepublishedEntries(was: map<Uid, Uid>, exited: set<Uid>, prev: set<Uid>, gui: set<Uid>, ids: map<Uid, Uid>, carried: set<Uid>)
    requires carried <= Orphans(was, exited, prev, TreeOf(gui, ids))
    ensures var entries := Republished(was, TreeOf(gui, ids), carried);
      && gui <= entries.Keys
      && forall u :: u in entries ==> if u in gui then entries[u] == Eff(ids, u) else entries[u] !in TreeOf(gui, ids).Values
  {
  }

  lemma FoundOne(gui: set<Uid>, ids: map<Uid, Uid>, entries: map<Uid, Uid>, byId: map<Uid, Uid>)
    requires Indexed(entries, byId) && gui <= entries.Keys
    requires forall u :: u in entries ==> if u in gui then entries[u] == Eff(ids, u) else entries[u] !in TreeOf(gui, ids).Values
    ensures OnePerId(ids, gui, Found(entries, byId).Keys * gui)
    ensures entries.Keys == gui ==>
      var found := Found(entries, byId).Keys * gui;
      Found(entries, byId) == TreeOf(gui * found, ids) && entries.Keys - Found(entries, byId).Keys == gui - found
  {
    var found := Found(entries, byId).Keys * gui;
    forall u | u in gui ensures Carries(ids, found, Eff(ids, u)) {
      var k := Eff(ids, u);
      assert TreeOf(gui, ids)[u] == k;
      assert byId[k] in found;
    }
  }

  /** Dropping what is no longer lost from the debounce does not change who is due. */
  lemma DueKept(lost: set<Uid>, pending: map<Uid, nat>, kept: map<Uid, nat>, now: nat)
    requires kept == map u | u in pending && u in lost :: pending[u]
    ensures Due(lost, kept, now) == Due(lost, pending, now)
  {
  }

}
