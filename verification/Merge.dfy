/** The tick's merge of the pane tree two parties edit, on values: the GUI's uids, the control
    read-model (uid to pane id), the uids last published, and the alias map that pins a pane id onto
    a uid. A pane with no alias is named by its uid, so pane ids and uids share one type. */
module Merge {
  import opened Wrappers

  function Eff(ids: map<Uid, Uid>, u: Uid): Uid {
    if u in ids then ids[u] else u
  }

  /** The GUI's panes, each under the id it is named by. */
  function TreeOf(gui: set<Uid>, ids: map<Uid, Uid>): map<Uid, Uid> {
    map u | u in gui :: Eff(ids, u)
  }

  ghost predicate Carries(ids: map<Uid, Uid>, panes: set<Uid>, id: Uid) {
    exists v :: v in panes && Eff(ids, v) == id
  }

  ghost predicate ApartIn(ids: map<Uid, Uid>, panes: set<Uid>) {
    forall u, v :: u in panes && v in panes && Eff(ids, u) == Eff(ids, v) ==> u == v
  }

  /** For each id the panes of `from` carry, `picked` has one of them that does, whichever it is. */
  ghost predicate OnePerId(ids: map<Uid, Uid>, from: set<Uid>, picked: set<Uid>) {
    picked <= from && ApartIn(ids, picked) && forall u :: u in from ==> Carries(ids, picked, Eff(ids, u))
  }

  /** Where no two carry the same id there is nothing to choose. */
  lemma AllPicked(ids: map<Uid, Uid>, from: set<Uid>, picked: set<Uid>)
    requires ApartIn(ids, from)
    ensures OnePerId(ids, from, picked) <==> picked == from
  {
    if OnePerId(ids, from, picked) {
      forall u | u in from ensures u in picked {
        assert Carries(ids, picked, Eff(ids, u));
      }
    }
  }

  /** A pane with an id of its own is picked as well. */
  lemma PickMore(ids: map<Uid, Uid>, from: set<Uid>, picked: set<Uid>, from': set<Uid>, u: Uid)
    requires OnePerId(ids, from, picked) && !Carries(ids, picked, Eff(ids, u))
    requires from <= from' && u in from' && forall v :: v in from' ==> v in from || Eff(ids, v) == Eff(ids, u)
    ensures OnePerId(ids, from', picked + {u})
  {
    forall v | v in from' ensures Carries(ids, picked + {u}, Eff(ids, v)) {
      if v in from && Eff(ids, v) != Eff(ids, u) {
        var x :| x in picked && Eff(ids, x) == Eff(ids, v);
        assert x in picked + {u};
      } else {
        assert u in picked + {u};
      }
    }
  }

  /** There always is a choice. */
  lemma {:induction false} SomePicked(ids: map<Uid, Uid>, from: set<Uid>) returns (picked: set<Uid>)
    ensures OnePerId(ids, from, picked)
    decreases from
  {
    picked := {};
    if u :| u in from {
      picked := SomePicked(ids, from - {u});
      if !Carries(ids, picked, Eff(ids, u)) {
        PickMore(ids, from - {u}, picked, from, u);
        picked := picked + {u};
      }
    }
  }

  /** `model` has the panes a lookup in the read-model finds by their id; `shadowed` are the sessions
      of those whose id finds another pane. */
  datatype Sides = Sides(gui: set<Uid>, model: map<Uid, Uid>, shadowed: set<Uid>, prev: set<Uid>, ids: map<Uid, Uid>) {
    ghost predicate ModelApart() {
      forall u, v :: u in model && v in model && model[u] == model[v] ==> u == v
    }

    /** The model names its panes apart, and a pane of the GUI as the host does. */
    ghost predicate Tidy() {
      ModelApart() && forall u :: u in model && u in gui ==> Eff(ids, u) == model[u]
    }

    /** Each side names its panes apart, and both name a shared pane alike. */
    ghost predicate Agree() {
      Tidy() && ApartIn(ids, gui)
    }

    /** Control-minted ids the model knows and the alias map does not yet. */
    function Recorded(): map<Uid, Uid> {
      map u | u in ids.Keys + model.Keys && (u in ids || model[u] != u) :: if u in ids then ids[u] else model[u]
    }

    /** In the model, unknown to the GUI, and never published. */
    function New(): set<Uid> {
      model.Keys - gui - prev
    }

    /** The GUI uids whose pane id a new session of `done` carries. */
    function Displaced(done: set<Uid>): set<Uid> {
      set v | v in gui && Eff(Recorded(), v) in NewIds(done)
    }

    function NewIds(done: set<Uid>): set<Uid> {
      set u | u in New() * done :: model[u]
    }

    /** For each new session of `done` whose id is taken, one pane that has it gives way. */
    ghost predicate Ousting(done: set<Uid>, ousted: set<Uid>) {
      OnePerId(Recorded(), Displaced(done), ousted)
    }

    /** The GUI and the alias map once the model's uids in `done` have been looked at and the sessions
        `ousted` have given way. */
    function GuiAfter(done: set<Uid>, ousted: set<Uid>): set<Uid> {
      gui - ousted + New() * done
    }

    function IdsAfter(done: set<Uid>, ousted: set<Uid>): map<Uid, Uid> {
      map u | u in Recorded().Keys + New() * done && u !in ousted
        :: if u in New() * done then model[u] else Recorded()[u]
    }

    function GuiBy(ousted: set<Uid>): set<Uid> {
      GuiAfter(model.Keys, ousted) - (prev * gui - model.Keys)
    }

    /** The alias map after the merge: pruned to what the GUI shows or what still runs. */
    function IdsBy(alive: set<Uid>, ousted: set<Uid>): map<Uid, Uid> {
      map u | u in IdsAfter(model.Keys, ousted) && (u in GuiBy(ousted) || u in alive) :: IdsAfter(model.Keys, ousted)[u]
    }

    /** What the sides are after a tick, `found` being the panes a lookup then finds. */
    function MergedBy(alive: set<Uid>, ousted: set<Uid>, found: set<Uid>): Sides {
      var gui', ids' := GuiBy(ousted), IdsBy(alive, ousted);
      Sides(gui', TreeOf(gui' * found, ids'), gui' - found, gui', ids')
    }

    /** The choices a tick can come to. */
    ghost predicate CanMerge(alive: set<Uid>, ousted: set<Uid>, found: set<Uid>) {
      Ousting(model.Keys, ousted) && OnePerId(IdsBy(alive, ousted), GuiBy(ousted), found)
    }

    // Where the sides agree there is nothing to choose.

    function MergedGui(): set<Uid> {
      GuiBy(Displaced(model.Keys))
    }

    function MergedIds(alive: set<Uid>): map<Uid, Uid> {
      IdsBy(alive, Displaced(model.Keys))
    }

    /** The merge changes which panes there are: something is new, or the model dropped a pane. */
    predicate Structural() {
      New() != {} || prev * gui - model.Keys != {}
    }

    function Tree(alive: set<Uid>): map<Uid, Uid> {
      TreeOf(MergedGui(), MergedIds(alive))
    }

    function Merged(alive: set<Uid>): Sides {
      Sides(MergedGui(), Tree(alive), {}, MergedGui(), MergedIds(alive))
    }
  }

  /** Recording aliases first changes no pane's name. */
  lemma RecordedAgrees(s: Sides, u: Uid)
    requires s.Tidy() && u in s.gui
    ensures Eff(s.Recorded(), u) == Eff(s.ids, u)
  {
  }

  /** Only a pane the model no longer has can be displaced. */
  lemma DisplacedGone(s: Sides)
    requires s.Tidy()
    ensures s.Displaced(s.model.Keys) !! s.model.Keys
  {
    forall v | v in s.Displaced(s.model.Keys) ensures v !in s.model {
      RecordedAgrees(s, v);
      var u :| u in s.New() && s.model[u] == Eff(s.ids, v);
    }
  }

  /** A tick merges three ways, but for GUI panes that gave way to a control-minted session. */
  lemma ThreeWay(s: Sides, ousted: set<Uid>)
    requires s.Tidy() && ousted <= s.Displaced(s.model.Keys)
    ensures s.GuiBy(ousted) == s.gui * s.model.Keys + (s.model.Keys - s.prev) + (s.gui - s.prev - ousted)
    ensures ousted !! s.model.Keys
  {
    DisplacedGone(s);
  }

  /** A tick drops a pane from the GUI exactly when it gave way, or was published and is in the model
      no longer or not to be found there by its id. */
  lemma DropsIff(s: Sides, ousted: set<Uid>, u: Uid)
    requires s.Tidy() && ousted <= s.Displaced(s.model.Keys) && u in s.gui
    ensures u !in s.GuiBy(ousted) <==> u in ousted || (u in s.prev && u !in s.model)
  {
    ThreeWay(s, ousted);
  }

  /** The plain three-way merge is what a tick gives exactly when no GUI pane the model has never been
      told of carries the id of a new session. */
  lemma PlainMergeIff(s: Sides)
    requires s.Agree()
    ensures s.MergedGui() == s.gui * s.model.Keys + (s.gui - s.prev) + (s.model.Keys - s.prev)
      <==> forall v :: v in s.gui - s.prev ==> Eff(s.ids, v) !in s.NewIds(s.model.Keys)
  {
    ThreeWay(s, s.Displaced(s.model.Keys));
    forall v | v in s.gui ensures v in s.Displaced(s.model.Keys) <==> Eff(s.ids, v) in s.NewIds(s.model.Keys) {
      RecordedAgrees(s, v);
    }
    if v :| v in s.gui - s.prev && v in s.Displaced(s.model.Keys) {
      assert v !in s.MergedGui();
    }
  }

  /** A pane that stays keeps its id; a pane that comes is named as the model names it. */
  lemma IdsKept(s: Sides, alive: set<Uid>, ousted: set<Uid>, u: Uid)
    requires s.Tidy() && ousted <= s.Displaced(s.model.Keys) && u in s.GuiBy(ousted)
    ensures Eff(s.IdsBy(alive, ousted), u) == if u in s.gui then Eff(s.ids, u) else s.model[u]
  {
    if u in s.gui {
      RecordedAgrees(s, u);
      assert u !in s.New();
    }
  }

  // ---- one uid at a time ----

  /** A uid that is not new changes nothing. */
  lemma SkipStep(s: Sides, done: set<Uid>, ousted: set<Uid>, u: Uid)
    requires u !in s.New()
    ensures s.GuiAfter(done + {u}, ousted) == s.GuiAfter(done, ousted)
    ensures s.IdsAfter(done + {u}, ousted) == s.IdsAfter(done, ousted)
    ensures s.Displaced(done + {u}) == s.Displaced(done)
  {
    assert s.New() * (done + {u}) == s.New() * done;
    assert s.NewIds(done + {u}) == s.NewIds(done);
    assert s.Displaced(done + {u}) == s.Displaced(done);
  }

  lemma NewIdsStep(s: Sides, done: set<Uid>, u: Uid)
    requires u in s.New()
    ensures s.NewIds(done + {u}) == s.NewIds(done) + {s.model[u]}
    ensures s.New() * (done + {u}) == s.New() * done + {u}
  {
    assert s.New() * (done + {u}) == s.New() * done + {u};
    assert u in s.New() * (done + {u});
  }

  /** Where a session is named so far: as the merge will leave it. */
  lemma EffSoFar(s: Sides, done: set<Uid>, ousted: set<Uid>, w: Uid)
    requires w in s.GuiAfter(done, ousted) && ousted <= s.gui
    ensures Eff(s.IdsAfter(done, ousted), w) == if w in s.gui then Eff(s.Recorded(), w) else s.model[w]
  {
  }

  /** A new session whose id no pane has is added. */
  lemma AdoptStep(s: Sides, done: set<Uid>, ousted: set<Uid>, u: Uid)
    requires s.ModelApart() && u in s.New() && u !in done && s.Ousting(done, ousted)
    requires forall w :: w in s.GuiAfter(done, ousted) ==> Eff(s.IdsAfter(done, ousted), w) != s.model[u]
    ensures s.Ousting(done + {u}, ousted)
    ensures s.GuiAfter(done + {u}, ousted) == s.GuiAfter(done, ousted) + {u}
    ensures s.IdsAfter(done + {u}, ousted) == s.IdsAfter(done, ousted)[u := s.model[u]]
    ensures forall v :: v in s.gui ==> Eff(s.Recorded(), v) != s.model[u]
  {
    NewIdsStep(s, done, u);
    forall v | v in s.gui ensures Eff(s.Recorded(), v) != s.model[u] {
      if v in ousted {
        var x :| x in s.New() * done && s.model[x] == Eff(s.Recorded(), v);
      } else {
        EffSoFar(s, done, ousted, v);
      }
    }
    assert s.Displaced(done + {u}) == s.Displaced(done);
  }

  /** A new session whose id a pane has takes the place of that pane's session, which was there
      before the tick. */
  lemma RebindStep(s: Sides, done: set<Uid>, ousted: set<Uid>, u: Uid, old': Uid)
    requires s.ModelApart() && u in s.New() && u !in done && s.Ousting(done, ousted)
    requires old' in s.GuiAfter(done, ousted) && Eff(s.IdsAfter(done, ousted), old') == s.model[u]
    ensures old' in s.gui && Eff(s.Recorded(), old') == s.model[u]
    ensures s.Ousting(done + {u}, ousted + {old'})
    ensures s.GuiAfter(done + {u}, ousted + {old'}) == s.GuiAfter(done, ousted) - {old'} + {u}
    ensures s.IdsAfter(done + {u}, ousted + {old'}) == (s.IdsAfter(done, ousted) - {old'})[u := s.model[u]]
  {
    EffSoFar(s, done, ousted, old');
    OustOne(s, done, ousted, u, old');
    NewIdsStep(s, done, u);
    hide Sides.Ousting, Sides.Recorded, Sides.ModelApart, Sides.Displaced;
  }

  lemma OustOne(s: Sides, done: set<Uid>, ousted: set<Uid>, u: Uid, old': Uid)
    requires s.ModelApart() && u in s.New() && u !in done && s.Ousting(done, ousted)
    requires old' in s.gui && Eff(s.Recorded(), old') == s.model[u]
    ensures s.Ousting(done + {u}, ousted + {old'})
  {
    NewIdsStep(s, done, u);
    hide Sides.Recorded, Sides.New;
    PickMore(s.Recorded(), s.Displaced(done), ousted, s.Displaced(done + {u}), old');
  }

  // ---- where the sides agree ----

  /** The tick can come to one thing only. */
  lemma OneMerge(s: Sides, alive: set<Uid>, ousted: set<Uid>, found: set<Uid>)
    requires s.Agree()
    ensures s.CanMerge(alive, ousted, found) <==> ousted == s.Displaced(s.model.Keys) && found == s.MergedGui()
    ensures s.CanMerge(alive, ousted, found) ==> s.MergedBy(alive, ousted, found) == s.Merged(alive)
  {
    forall u, v | u in s.gui && v in s.gui && Eff(s.Recorded(), u) == Eff(s.Recorded(), v) ensures u == v {
      RecordedAgrees(s, u);
      RecordedAgrees(s, v);
    }
    AllPicked(s.Recorded(), s.Displaced(s.model.Keys), ousted);
    TickAgrees(s, alive);
    AllPicked(s.MergedIds(alive), s.MergedGui(), found);
    assert s.MergedGui() * s.MergedGui() == s.MergedGui();
  }

  /** After a tick both sides hold the same panes, under the same ids, each id once. */
  lemma TickAgrees(s: Sides, alive: set<Uid>)
    requires s.Agree()
    ensures s.Merged(alive).Agree() && s.Merged(alive).model.Keys == s.Merged(alive).gui
  {
    var s' := s.Merged(alive);
    forall u, v | u in s'.gui && v in s'.gui && Eff(s'.ids, u) == Eff(s'.ids, v) ensures u == v {
      IdsKept(s, alive, s.Displaced(s.model.Keys), u);
      IdsKept(s, alive, s.Displaced(s.model.Keys), v);
      if u in s.gui && v !in s.gui { NotTaken(s, u, v); }
      if v in s.gui && u !in s.gui { NotTaken(s, v, u); }
    }
  }

  lemma NotTaken(s: Sides, u: Uid, v: Uid)
    requires s.Agree() && u in s.gui && u in s.MergedGui() && v in s.New()
    ensures Eff(s.ids, u) != s.model[v]
  {
    RecordedAgrees(s, u);
    assert s.model[v] in s.NewIds(s.model.Keys);
  }

  /** Ticking again with nothing in between changes nothing. */
  lemma TickAgain(s: Sides, alive: set<Uid>)
    requires s.Agree()
    ensures s.Merged(alive).Merged(alive) == s.Merged(alive)
  {
    TickAgrees(s, alive);
    Settled(s.Merged(alive), alive);
  }

  lemma Settled(s: Sides, alive: set<Uid>)
    requires s.Agree() && s.model.Keys == s.gui == s.prev && s.shadowed == {}
    requires forall u :: u in s.ids ==> u in s.gui || u in alive
    ensures s.Merged(alive) == s
  {
    var all := s.model.Keys;
    assert s.New() == {} && s.NewIds(all) == {} && s.Displaced(all) == {};
    assert s.GuiAfter(all, {}) == s.gui && s.MergedGui() == s.gui;
    assert s.Recorded() == s.ids && s.IdsAfter(all, {}) == s.ids && s.MergedIds(alive) == s.ids;
    hide Sides.Recorded, Sides.IdsAfter, Sides.MergedIds, Sides.MergedGui, Sides.Displaced;
    assert s.Tree(alive) == s.model;
  }

  /** A restarted pane: the model swaps its session for a new one under the same id. */
  function Restarted(s: Sides, old': Uid, new': Uid): Sides
    requires old' in s.model
  {
    s.(model := (s.model - {old'})[new' := s.model[old']])
  }

  /** Restarting a pane both sides show keeps its place: the new session alone takes it over, under
      the id it had, aliased or not. */
  lemma RestartKeepsPane(s: Sides, old': Uid, new': Uid, alive: set<Uid>)
    requires s.Agree() && old' in s.gui && old' in s.model
    requires new' !in s.gui + s.prev + s.model.Keys + s.ids.Keys
    ensures var r := Restarted(s, old', new');
      && r.Agree() && new' in r.MergedGui() && old' !in r.MergedGui()
      && r.Displaced({new'}) == {old'}
      && Eff(r.MergedIds(alive), new') == Eff(s.ids, old')
  {
    var r := Restarted(s, old', new');
    RecordedAgrees(s, old');
    RestartAgrees(s, old', new');
    RecordedAgrees(r, old');
    assert new' in r.New() && r.model[new'] == Eff(r.ids, old');
    forall v | v in r.Displaced({new'}) ensures v == old' {
      RecordedAgrees(r, v);
      var u :| u in r.New() * {new'} && r.model[u] == Eff(r.ids, v);
    }
    assert r.model[new'] in r.NewIds({new'}) && r.model[new'] in r.NewIds(r.model.Keys);
    IdsKept(r, alive, r.Displaced(r.model.Keys), new');
  }

  lemma RestartAgrees(s: Sides, old': Uid, new': Uid)
    requires s.Agree() && old' in s.model && new' !in s.gui + s.model.Keys
    ensures Restarted(s, old', new').Agree()
  {
  }
}
