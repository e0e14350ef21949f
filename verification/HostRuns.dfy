/** The host over whole runs: the control side and the GUI edit the panes in any interleaving,
    sessions die, a fault drops panes, and ticks merge and heal. */
module HostRuns {
  import opened Wrappers
  import opened Merge
  import opened Healing
  import opened ControlHost

  /** `used` is every uid and pane id ever minted; `log` what each tick found lost, and when. */
  datatype World = World(s: Sides, parked: set<Uid>, alive: set<Uid>, pending: map<Uid, nat>,
                         used: set<Uid>, now: nat, log: seq<(nat, set<Uid>)>)

  /** What a tick comes to where sessions share an id, hash maps and tabs deciding: which of the healed
      is found by it, which pane gives way to a new session, which of the panes published is found. */
  datatype Picks = Picks(back: set<Uid>, ousted: set<Uid>, found: set<Uid>)

  /** Dispatches, edits of the GUI, deaths, a fault and ticks. A pane closed through the control plane
      is parked on the UI thread and so is a `GuiClose`. */
  datatype Step =
    | NewPane(u: Uid, id: Uid)
    | RestartPane(u: Uid, fresh': Uid)
    | GuiOpen(u: Uid)
    | GuiClose(u: Uid)
    | GuiReopen(u: Uid)
    | GuiForget(u: Uid)
    | GuiRebind(u: Uid, fresh': Uid)
    | SessionDies(u: Uid)
    | GuiLoses(u: Uid)
    | Tick(at: nat, windowed: bool, picks: Picks)

  /** What the environment guarantees: fresh uids are fresh, an edit names something there, time does
      not go back, a tick picks what it can. */
  ghost predicate Legal(w: World, e: Step) {
    match e
    case NewPane(u, id) => u !in w.used && id !in w.used && u != id
    case RestartPane(u, n) => u in w.s.model && n !in w.used
    case GuiOpen(u) => u !in w.used
    case GuiClose(u) => u in w.s.gui
    case GuiReopen(u) => u in w.parked
    case GuiForget(u) => u in w.parked
    case GuiRebind(u, n) => u in w.s.gui && n !in w.used
    case SessionDies(u) => true
    case GuiLoses(u) => u in w.s.gui
    case Tick(at, windowed, p) =>
      at >= w.now && OnePerId(w.s.ids, DueNow(w, at), p.back) && Mended(w, at, windowed, p.back).CanMerge(w.alive, p.ousted, p.found)
  }

  /** The alias of a pane whose session the GUI itself replaced follows it; a pane without one has
      nothing to follow. */
  function MovedAlias(ids: map<Uid, Uid>, old': Uid, new': Uid): map<Uid, Uid> {
    if old' in ids then (ids - {old'})[new' := ids[old']] else ids
  }

  function LostNow(w: World): set<Uid> {
    Lost(w.s, w.parked, w.alive)
  }

  function DueNow(w: World, at: nat): set<Uid> {
    Due(LostNow(w), w.pending, at)
  }

  /** The sides as the merge finds them, the due put back. */
  function Mended(w: World, at: nat, windowed: bool, back: set<Uid>): Sides {
    HealedBy(w.s, w.parked, w.alive, w.pending, at, windowed, back)
  }

  function Ticked(w: World, at: nat, s: Sides): World {
    w.(s := s, pending := PendingAfter(LostNow(w), w.pending, at), now := at, log := w.log + [(at, LostNow(w))])
  }

  function Next(w: World, e: Step): World {
    var s := w.s;
    match e
    case NewPane(u, id) => w.(s := s.(model := s.model[u := id]), alive := w.alive + {u}, used := w.used + {u, id})
    case RestartPane(u, n) =>
      if u in s.model then w.(s := Restarted(s, u, n), alive := w.alive - {u} + {n}, used := w.used + {n}) else w
    case GuiOpen(u) => w.(s := s.(gui := s.gui + {u}), alive := w.alive + {u}, used := w.used + {u})
    case GuiClose(u) => w.(s := s.(gui := s.gui - {u}), parked := w.parked + {u})
    case GuiReopen(u) => w.(s := s.(gui := s.gui + {u}), parked := w.parked - {u})
    case GuiForget(u) => w.(parked := w.parked - {u}, alive := w.alive - {u})
    case GuiRebind(u, n) =>
      w.(s := s.(gui := s.gui - {u} + {n}, ids := MovedAlias(s.ids, u, n)),
         alive := w.alive - {u} + {n}, used := w.used + {n})
    case SessionDies(u) => w.(alive := w.alive - {u})
    case GuiLoses(u) => w.(s := s.(gui := s.gui - {u}))
    case Tick(at, windowed, p) => Ticked(w, at, Mended(w, at, windowed, p.back).MergedBy(w.alive, p.ousted, p.found))
  }

  // ---- what every step keeps, whatever happens ----

  ghost predicate MintedSides(s: Sides, used: set<Uid>) {
    && s.gui <= used && s.model.Keys <= used && s.prev <= used && s.ids.Keys <= used
    && (forall u :: u in s.model ==> s.model[u] in used) && (forall u :: u in s.ids ==> s.ids[u] in used)
  }

  /** Everything in play was minted. */
  ghost predicate Minted(w: World) {
    MintedSides(w.s, w.used) && w.parked <= w.used && w.alive <= w.used
  }

  /** A pane the GUI has, or has put by, and the model shares was published; what was published is in
      the model still unless it is dead. */
  ghost predicate Published(w: World) {
    && w.s.gui !! w.parked && w.s.New() !! w.s.ids.Keys
    && w.s.shadowed <= w.s.prev && w.s.shadowed !! w.s.model.Keys
    && (forall u :: u in w.s.model && (u in w.s.gui || u in w.parked) ==> u in w.s.prev)
    && (forall u :: u in w.s.prev && u in w.alive ==> u in w.s.model || u in w.s.shadowed)
  }

  /** A session under debounce was lost at the tick that started it and at every one since. */
  ghost predicate Debounced(w: World) {
    forall u :: u in w.pending ==> w.pending[u] <= w.now && LostSince(w.log, u, w.pending[u])
  }

  ghost predicate LostSince(log: seq<(nat, set<Uid>)>, u: Uid, since: nat) {
    exists i :: 0 <= i < |log| && log[i].0 == since && forall j :: i <= j < |log| ==> u in log[j].1
  }

  /** The model names what was published as the host does, but for sessions gone for good. */
  ghost predicate Named(w: World) {
    forall u :: u in w.s.model && u !in w.s.New() ==>
      Eff(w.s.ids, u) == w.s.model[u] || (u !in w.alive && u !in w.s.gui && u !in w.parked)
  }

  ghost predicate Basic(w: World) {
    Minted(w) && Published(w) && Debounced(w) && w.s.ModelApart() && Named(w)
  }

  lemma BasicTidy(w: World)
    requires Basic(w)
    ensures w.s.Tidy() && Kept(w.s, w.parked, w.alive)
  {
    forall u | u in w.s.model && u in w.s.gui ensures Eff(w.s.ids, u) == w.s.model[u] {
      assert u !in w.s.New();
    }
  }

  lemma LostSinceGrows(log: seq<(nat, set<Uid>)>, u: Uid, since: nat, at: nat, lost: set<Uid>)
    requires u in lost && (LostSince(log, u, since) || since == at)
    ensures LostSince(log + [(at, lost)], u, since)
  {
    var log' := log + [(at, lost)];
    if LostSince(log, u, since) {
      var i :| 0 <= i < |log| && log[i].0 == since && forall j :: i <= j < |log| ==> u in log[j].1;
      assert log'[i].0 == since;
    } else {
      assert log'[|log|].0 == since;
    }
  }

  /** What a tick leaves on the GUI was there or is new. */
  lemma MergedFrom(s: Sides, alive: set<Uid>, ousted: set<Uid>, found: set<Uid>)
    requires s.CanMerge(alive, ousted, found)
    ensures var r := s.MergedBy(alive, ousted, found);
      && r.gui == r.prev == r.model.Keys + r.shadowed && r.gui <= s.gui + s.New() && s.New() !! s.gui
      && r.model.Keys !! r.shadowed && r.ModelApart()
      && (forall u :: u in r.model ==> r.model[u] == Eff(r.ids, u))
      && r.ids.Keys <= s.ids.Keys + s.model.Keys && r.ids.Keys <= r.gui + alive
      && (forall u :: u in r.ids ==> r.ids[u] == (if u in s.New() then s.model[u] else if u in s.ids then s.ids[u] else s.model[u]))
  {
  }

  lemma MendedFrom(w: World, at: nat, windowed: bool, back: set<Uid>)
    requires OnePerId(w.s.ids, DueNow(w, at), back)
    ensures var r := Mended(w, at, windowed, back);
      && r.gui == w.s.gui && r.ids == w.s.ids && r.prev == w.s.prev
      && (forall u :: u in r.model <==> u in w.s.model || (windowed && u in back))
      && (forall u :: u in r.model ==> if u in w.s.model then r.model[u] == w.s.model[u] else u in w.s.ids && r.model[u] == w.s.ids[u])
    ensures back <= DueNow(w, at)
    ensures forall u :: u in DueNow(w, at) ==>
      u in LostNow(w) && u in w.s.ids && u !in w.parked && u !in w.s.gui && u !in w.s.model && u in w.alive
  {
  }

  lemma MendedTidy(w: World, at: nat, windowed: bool, back: set<Uid>)
    requires Basic(w) && OnePerId(w.s.ids, DueNow(w, at), back)
    ensures Mended(w, at, windowed, back).Tidy()
  {
    BasicTidy(w);
    HealTidy(w.s, w.parked, w.alive, DueNow(w, at), back);
  }

  lemma MergeMinted(s: Sides, alive: set<Uid>, ousted: set<Uid>, found: set<Uid>, used: set<Uid>)
    requires MintedSides(s, used) && s.CanMerge(alive, ousted, found)
    ensures MintedSides(s.MergedBy(alive, ousted, found), used)
  {
    MergedFrom(s, alive, ousted, found);
    hide Sides.MergedBy, Sides.CanMerge;
  }

  lemma TickMinted(w: World, at: nat, windowed: bool, p: Picks)
    requires Minted(w) && Legal(w, Tick(at, windowed, p))
    ensures Minted(Next(w, Tick(at, windowed, p)))
  {
    MendedFrom(w, at, windowed, p.back);
    hide Mended, DueNow, LostNow, Sides.CanMerge, OnePerId, Sides.MergedBy;
    MergeMinted(Mended(w, at, windowed, p.back), w.alive, p.ousted, p.found, w.used);
  }

  lemma TickPublished(w: World, at: nat, windowed: bool, p: Picks)
    requires Basic(w) && Legal(w, Tick(at, windowed, p))
    ensures Published(Next(w, Tick(at, windowed, p)))
  {
    MendedFrom(w, at, windowed, p.back);
    MergedFrom(Mended(w, at, windowed, p.back), w.alive, p.ousted, p.found);
    hide Sides.MergedBy, Mended, DueNow, LostNow, Sides.CanMerge, Minted, Debounced, Named, OnePerId, Eff, Sides.ModelApart;
  }

  lemma TickNamed(w: World, at: nat, windowed: bool, p: Picks)
    requires Legal(w, Tick(at, windowed, p))
    ensures Named(Next(w, Tick(at, windowed, p))) && Next(w, Tick(at, windowed, p)).s.ModelApart()
  {
    MergedFrom(Mended(w, at, windowed, p.back), w.alive, p.ousted, p.found);
    hide Sides.MergedBy, Mended, DueNow, LostNow, Sides.CanMerge, OnePerId, Eff;
  }

  lemma TickDebounced(w: World, at: nat, windowed: bool, p: Picks)
    requires Debounced(w) && Legal(w, Tick(at, windowed, p))
    ensures Debounced(Next(w, Tick(at, windowed, p)))
  {
    var w' := Next(w, Tick(at, windowed, p));
    forall u | u in w'.pending ensures w'.pending[u] <= w'.now && LostSince(w'.log, u, w'.pending[u]) {
      LostSinceGrows(w.log, u, w'.pending[u], at, LostNow(w));
    }
  }

  lemma EditMinted(w: World, e: Step)
    requires Minted(w) && Legal(w, e) && !e.Tick?
    ensures Minted(Next(w, e))
  {
  }

  lemma EditPublished(w: World, e: Step)
    requires Minted(w) && Published(w) && Legal(w, e) && !e.Tick?
    ensures Published(Next(w, e))
  {
  }

  lemma EditNamed(w: World, e: Step)
    requires Minted(w) && Published(w) && w.s.ModelApart() && Named(w) && Legal(w, e) && !e.Tick?
    ensures Next(w, e).s.ModelApart() && Named(Next(w, e))
  {
  }

  lemma EditDebounced(w: World, e: Step)
    requires Debounced(w) && !e.Tick?
    ensures Debounced(Next(w, e))
  {
    hide LostSince;
  }

  /** What holds of every world is kept by every step, careful or not. */
  lemma NextBasic(w: World, e: Step)
    requires Basic(w) && Legal(w, e)
    ensures Basic(Next(w, e))
  {
    hide Next, Legal;
    if e.Tick? {
      TickMinted(w, e.at, e.windowed, e.picks);
      TickPublished(w, e.at, e.windowed, e.picks);
      TickNamed(w, e.at, e.windowed, e.picks);
      TickDebounced(w, e.at, e.windowed, e.picks);
    } else {
      EditMinted(w, e);
      EditPublished(w, e);
      EditNamed(w, e);
      EditDebounced(w, e);
    }
  }

  /** A tick can always be made: there is always something to pick. */
  lemma TickPossible(w: World, at: nat, windowed: bool) returns (p: Picks)
    requires at >= w.now
    ensures Legal(w, Tick(at, windowed, p))
  {
    var back := SomePicked(w.s.ids, DueNow(w, at));
    var r := Mended(w, at, windowed, back);
    var ousted := SomePicked(r.Recorded(), r.Displaced(r.model.Keys));
    var found := SomePicked(r.IdsBy(w.alive, ousted), r.GuiBy(ousted));
    p := Picks(back, ousted, found);
  }

  // ---- pane ids over runs ----

  /** The uids whose pane ids can be seen, now or once reopened or healed. */
  function Standing(w: World): set<Uid> {
    w.s.gui + (w.parked + w.s.ids.Keys) * w.alive
  }

  ghost predicate Apart(w: World) {
    forall u, v :: u in Standing(w) && v in Standing(w) && Eff(w.s.ids, u) == Eff(w.s.ids, v) ==> u == v
  }

  /** No id names two sessions, shown, put by or to be found again, and a lookup finds every pane. */
  ghost predicate Sound(w: World) {
    Basic(w) && Apart(w) && w.s.shadowed == {}
  }

  /** In a sound world the sides agree, and no two lost sessions share a pane id. */
  lemma SoundAgrees(w: World)
    requires Sound(w)
    ensures w.s.Agree() && ApartIn(w.s.ids, LostNow(w))
  {
    BasicTidy(w);
    assert LostNow(w) <= Standing(w) && w.s.gui <= Standing(w);
  }

  /** The sides as the merge finds them, where there is nothing to pick. */
  function Healed(w: World, at: nat, windowed: bool): Sides {
    Mended(w, at, windowed, DueNow(w, at))
  }

  function TickOf(w: World, at: nat, windowed: bool): World {
    Ticked(w, at, Healed(w, at, windowed).Merged(w.alive))
  }

  /** From a sound world a tick can come to one thing only. */
  lemma SoundTick(w: World, at: nat, windowed: bool, p: Picks)
    requires Sound(w) && Legal(w, Tick(at, windowed, p))
    ensures p.back == DueNow(w, at) && Mended(w, at, windowed, p.back) == Healed(w, at, windowed)
    ensures p.ousted == Healed(w, at, windowed).Displaced(Healed(w, at, windowed).model.Keys)
    ensures Next(w, Tick(at, windowed, p)) == TickOf(w, at, windowed)
  {
    SoundAgrees(w);
    assert DueNow(w, at) <= LostNow(w);
    AllPicked(w.s.ids, DueNow(w, at), p.back);
    HealedAgrees(w, at, windowed);
    OneMerge(Healed(w, at, windowed), w.alive, p.ousted, p.found);
  }

  /** No session off the layout that still runs carries the id of a pane dispatched since the last
      tick. */
  ghost predicate NoContest(w: World) {
    forall u, v :: u in w.s.New() && v in Standing(w) && v !in w.s.gui ==> Eff(w.s.ids, v) != w.s.model[u]
  }

  /** Reopening gives no pane id to a second pane; a tick finds no contest. */
  ghost predicate Careful(w: World, e: Step) {
    match e
    case GuiReopen(u) => forall v :: v in Standing(w) && v != u ==> Eff(w.s.ids, v) != Eff(w.s.ids, u)
    case Tick(_, _, _) => NoContest(w)
    case _ => true
  }

  lemma HealedAgrees(w: World, at: nat, windowed: bool)
    requires Sound(w)
    ensures Healed(w, at, windowed).Agree()
  {
    SoundAgrees(w);
    assert DueNow(w, at) <= LostNow(w);
    AllPicked(w.s.ids, DueNow(w, at), DueNow(w, at));
    HealTidy(w.s, w.parked, w.alive, DueNow(w, at), DueNow(w, at));
  }

  lemma HealedFrom(w: World, at: nat, windowed: bool)
    requires Sound(w)
    ensures var r := Healed(w, at, windowed);
      && r.gui == w.s.gui && r.ids == w.s.ids && r.prev == w.s.prev
      && (forall u :: u in r.model <==> u in w.s.model || (windowed && u in DueNow(w, at)))
      && (forall u :: u in r.model ==> if u in w.s.model then r.model[u] == w.s.model[u] else u in w.s.ids && r.model[u] == w.s.ids[u])
    ensures forall u :: u in DueNow(w, at) ==>
      u in LostNow(w) && u in w.s.ids && u !in w.parked && u !in w.s.gui && u !in w.s.model && u in w.alive
  {
    SoundAgrees(w);
    assert DueNow(w, at) <= LostNow(w);
    AllPicked(w.s.ids, DueNow(w, at), DueNow(w, at));
    MendedFrom(w, at, windowed, DueNow(w, at));
  }

  /** What a tick from a sound world leaves on the GUI was there or is new. */
  lemma TickFrom(w: World, at: nat, windowed: bool)
    requires Sound(w)
    ensures var r, s := Healed(w, at, windowed), TickOf(w, at, windowed).s;
      && s.gui == s.prev == s.model.Keys && s.gui <= r.gui + r.New() && r.New() !! r.gui
      && (forall u :: u in s.model ==> s.model[u] == Eff(s.ids, u))
      && s.ids.Keys <= r.ids.Keys + r.model.Keys
      && (forall u :: u in s.ids ==> s.ids[u] == (if u in r.New() then r.model[u] else if u in r.ids then r.ids[u] else r.model[u]))
  {
    HealedAgrees(w, at, windowed);
    var r := Healed(w, at, windowed);
    OneMerge(r, w.alive, r.Displaced(r.model.Keys), r.MergedGui());
    MergedFrom(r, w.alive, r.Displaced(r.model.Keys), r.MergedGui());
    hide Healed, Sides.CanMerge, Sides.MergedBy, Sides.Agree;
  }

  /** Who stands after a tick: what is new, under its model id, and who stood before, under the same
      id and not displaced. */
  lemma StandsAfter(w: World, at: nat, windowed: bool, x: Uid)
    requires Sound(w) && x in Standing(TickOf(w, at, windowed))
    ensures var r, ids' := Healed(w, at, windowed), TickOf(w, at, windowed).s.ids;
      if x in r.New() then Eff(ids', x) == r.model[x]
      else x in Standing(w) && Eff(ids', x) == Eff(w.s.ids, x) && x !in r.Displaced(r.model.Keys)
  {
    var r := Healed(w, at, windowed);
    HealedAgrees(w, at, windowed);
    HealedFrom(w, at, windowed);
    if x in r.MergedGui() {
      hide Sides.MergedIds;
      IdsKept(r, w.alive, r.Displaced(r.model.Keys), x);
    } else {
      assert x !in r.New();
      assert x in w.s.model ==> x !in w.s.New();
      OffLayout(r, w.alive, x, w.parked);
    }
  }

  /** Off the layout, an alias outlives a tick while its session runs. */
  lemma OffLayout(r: Sides, alive: set<Uid>, x: Uid, parked: set<Uid>)
    requires r.Agree() && x !in r.MergedGui() && x !in r.New() && x in alive
    requires x in parked || x in r.MergedIds(alive)
    requires parked !! r.gui
    requires x in r.model ==> Eff(r.ids, x) == r.model[x]
    ensures x !in r.Displaced(r.model.Keys)
    ensures Eff(r.MergedIds(alive), x) == Eff(r.ids, x) && (x !in parked ==> x in r.ids)
  {
  }

  lemma TickApart(w: World, at: nat, windowed: bool)
    requires Sound(w) && NoContest(w)
    ensures Apart(TickOf(w, at, windowed))
  {
    var w', r := TickOf(w, at, windowed), Healed(w, at, windowed);
    HealedAgrees(w, at, windowed);
    HealedFrom(w, at, windowed);
    forall x, y | x in Standing(w') && y in Standing(w') && Eff(w'.s.ids, x) == Eff(w'.s.ids, y) ensures x == y {
      StandsAfter(w, at, windowed, x);
      StandsAfter(w, at, windowed, y);
      if x in r.New() && y !in r.New() { NewStandsApart(w, at, windowed, x, y); }
      if y in r.New() && x !in r.New() { NewStandsApart(w, at, windowed, y, x); }
    }
  }

  lemma NewStandsApart(w: World, at: nat, windowed: bool, x: Uid, y: Uid)
    requires Sound(w) && NoContest(w) && x in Healed(w, at, windowed).New()
    requires y in Standing(w) && y !in Healed(w, at, windowed).New()
    requires y !in Healed(w, at, windowed).Displaced(Healed(w, at, windowed).model.Keys)
    ensures Eff(w.s.ids, y) != Healed(w, at, windowed).model[x]
  {
    var r := Healed(w, at, windowed);
    HealedAgrees(w, at, windowed);
    HealedFrom(w, at, windowed);
    if y in w.s.gui {
      RecordedAgrees(r, y);
      assert r.model[x] in r.NewIds(r.model.Keys);
    } else if x !in w.s.model {
      assert x in Standing(w);
    }
  }

  /** A contest leaves two sessions standing under one pane id. */
  lemma ContestCollides(w: World, at: nat, windowed: bool)
    requires Sound(w) && !NoContest(w)
    ensures !Apart(TickOf(w, at, windowed))
  {
    var w', r := TickOf(w, at, windowed), Healed(w, at, windowed);
    var u, v :| u in w.s.New() && v in Standing(w) && v !in w.s.gui && Eff(w.s.ids, v) == w.s.model[u];
    HealedAgrees(w, at, windowed);
    HealedFrom(w, at, windowed);
    assert u in r.New() && u in r.MergedGui() && v !in w.s.New();
    IdsKept(r, w.alive, r.Displaced(r.model.Keys), u);
    assert v in Standing(w');
    StandsAfter(w, at, windowed, v);
  }

  lemma EditApart(w: World, e: Step)
    requires Sound(w) && Legal(w, e) && !e.Tick? && !e.GuiReopen?
    ensures Apart(Next(w, e))
  {
    hide Named, Sides.ModelApart, Debounced;
    var w' := Next(w, e);
    if e.GuiOpen? {
      FreshStandsApart(w, e.u);
      assert Standing(w') <= Standing(w) + {e.u};
    } else if e.GuiRebind? {
      FreshStandsApart(w, e.fresh');
      assert Standing(w') <= Standing(w) - {e.u} + {e.fresh'};
    } else {
      assert w'.s.ids == w.s.ids && Standing(w') <= Standing(w);
    }
  }

  /** A fresh uid is nobody's pane id. */
  lemma FreshStandsApart(w: World, n: Uid)
    requires Minted(w) && n !in w.used
    ensures Eff(w.s.ids, n) == n && forall v :: v in Standing(w) ==> v in w.used && Eff(w.s.ids, v) in w.used
  {
  }

  lemma ReopenApartIff(w: World, u: Uid)
    requires Sound(w) && u in w.parked
    ensures Apart(Next(w, GuiReopen(u))) <==> Careful(w, GuiReopen(u))
  {
    var w' := Next(w, GuiReopen(u));
    assert Standing(w') == Standing(w) + {u};
  }

  /** Pane ids stay apart, and the model keeps naming panes as the host does, through exactly the steps
      that are careful. */
  lemma SoundIff(w: World, e: Step)
    requires Sound(w) && Legal(w, e)
    ensures Sound(Next(w, e)) <==> Careful(w, e)
  {
    NextBasic(w, e);
    if e.Tick? {
      SoundTick(w, e.at, e.windowed, e.picks);
      if NoContest(w) { TickApart(w, e.at, e.windowed); } else { ContestCollides(w, e.at, e.windowed); }
    } else {
      hide Basic, Apart, NoContest, Legal;
      if e.GuiReopen? { ReopenApartIff(w, e.u); } else { EditApart(w, e); }
    }
  }

  /** A session still running reopens under its own id; only a dead one can find its id taken. */
  lemma LivingReopensFree(w: World, u: Uid)
    requires Sound(w) && u in w.parked && u in w.alive
    ensures Careful(w, GuiReopen(u))
  {
    assert u in Standing(w);
  }

  // ---- runs ----

  function Run(w: World, es: seq<Step>): World
    decreases |es|
  {
    if es == [] then w else Run(Next(w, es[0]), es[1..])
  }

  ghost predicate LegalRun(w: World, es: seq<Step>)
    decreases |es|
  {
    es == [] || (Legal(w, es[0]) && LegalRun(Next(w, es[0]), es[1..]))
  }

  ghost predicate CarefulRun(w: World, es: seq<Step>)
    decreases |es|
  {
    es == [] || (Careful(w, es[0]) && CarefulRun(Next(w, es[0]), es[1..]))
  }

  /** Over every careful run no two panes of the GUI share an effective pane id, and the model names
      each pane it shares with the GUI by that id. */
  lemma {:induction false} IdsStable(w: World, es: seq<Step>)
    requires Sound(w) && LegalRun(w, es) && CarefulRun(w, es)
    ensures Sound(Run(w, es)) && Run(w, es).s.Agree()
    decreases |es|
  {
    SoundAgrees(w);
    if es != [] {
      SoundIff(w, es[0]);
      IdsStable(Next(w, es[0]), es[1..]);
    }
  }

  /** No step of any kind changes the pane id of a pane that stays. */
  lemma StepKeepsId(w: World, e: Step, u: Uid)
    requires Basic(w) && Legal(w, e) && u in w.s.gui && u in Next(w, e).s.gui
    ensures Eff(Next(w, e).s.ids, u) == Eff(w.s.ids, u)
  {
    if e.Tick? {
      MendedTidy(w, e.at, e.windowed, e.picks.back);
      MendedFrom(w, e.at, e.windowed, e.picks.back);
      IdsKept(Mended(w, e.at, e.windowed, e.picks.back), w.alive, e.picks.ousted, u);
    }
  }

  /** A session the GUI replaces on its own keeps the pane's id exactly when the pane had an alias. */
  lemma GuiRebindKeepsIff(w: World, u: Uid, n: Uid)
    requires Basic(w) && Legal(w, GuiRebind(u, n))
    ensures Eff(Next(w, GuiRebind(u, n)).s.ids, n) == Eff(w.s.ids, u) <==> u in w.s.ids
  {
  }

  /** Aliases are written out only when the panes changed or the number of aliases did; that misses no
      change, as a tick that changes no pane only ever takes aliases away. */
  lemma AliasesWritten(w: World, at: nat, windowed: bool, p: Picks)
    requires Basic(w) && Legal(w, Tick(at, windowed, p))
    ensures var r, ids' := Mended(w, at, windowed, p.back), Next(w, Tick(at, windowed, p)).s.ids;
      ids' != w.s.ids ==> r.Structural() || |ids'| != |w.s.ids|
  {
    if !Mended(w, at, windowed, p.back).Structural() {
      MendedFrom(w, at, windowed, p.back);
      assert forall u :: u in p.back ==> u in w.s.ids;
      var r, ids' := Mended(w, at, windowed, p.back), Next(w, Tick(at, windowed, p)).s.ids;
      assert r.New() == {} && ids' == r.IdsBy(w.alive, p.ousted);
      hide *;
      AliasesKept(w, r, p.ousted);
      if ids' != w.s.ids { FewerAliases(ids', w.s.ids); }
    }
  }

  lemma AliasesKept(w: World, r: Sides, ousted: set<Uid>)
    requires Basic(w) && r.New() == {} && r.gui == w.s.gui && r.ids == w.s.ids && r.prev == w.s.prev
    requires forall u :: u in r.model && u !in w.s.ids ==> u in w.s.model && r.model[u] == w.s.model[u]
    ensures var ids' := r.IdsBy(w.alive, ousted);
      forall u :: u in ids' ==> u in w.s.ids && ids'[u] == w.s.ids[u]
  {
    hide Basic;
    forall u | u in r.IdsBy(w.alive, ousted) && u !in w.s.ids ensures false {
      PrunedAgain(w, r, ousted, u);
    }
  }

  /** An alias recorded for a session gone for good does not outlive the tick. */
  lemma PrunedAgain(w: World, r: Sides, ousted: set<Uid>, u: Uid)
    requires Basic(w) && r.New() == {} && r.gui == w.s.gui && r.ids == w.s.ids && r.prev == w.s.prev && u !in w.s.ids
    requires u in r.model ==> u in w.s.model && r.model[u] == w.s.model[u]
    ensures u !in r.IdsBy(w.alive, ousted)
  {
    if u in r.model { assert u !in r.New() && u !in w.s.New(); }
  }

  lemma FewerAliases(a: map<Uid, Uid>, b: map<Uid, Uid>)
    requires a != b && forall u :: u in a ==> u in b && a[u] == b[u]
    ensures |a| < |b|
  {
    var u :| u in b && u !in a;
    FewerKeys(a.Keys, b.Keys, u);
  }

  lemma {:induction false} FewerKeys(a: set<Uid>, b: set<Uid>, x: Uid)
    requires a <= b && x in b && x !in a
    ensures |a| < |b|
    decreases a
  {
    if u :| u in a { FewerKeys(a - {u}, b - {u}, x); }
  }

  const EMPTY_WORLD := World(Sides({}, map[], {}, {}, map[]), {}, {}, map[], {}, 0, [])

  /** The runs start somewhere: a first launch. */
  lemma EmptyStarts()
    ensures Sound(EMPTY_WORLD)
  {
  }

  /** And so does a relaunch, with the aliases it kept and the sessions that survived it, before any
      pane is back: sound where no two survivors share an alias. */
  lemma RelaunchStarts(ids: map<Uid, Uid>, alive: set<Uid>, used: set<Uid>)
    requires ids.Keys + ids.Values + alive <= used
    requires forall u, v :: u in ids && v in ids && u in alive && v in alive && ids[u] == ids[v] ==> u == v
    ensures Sound(EMPTY_WORLD.(s := EMPTY_WORLD.s.(ids := ids), alive := alive, used := used))
  {
    assert forall u :: u in ids ==> ids[u] in ids.Values;
  }

  // ---- self-heal ----

  /** What a tick puts back was lost at every tick for at least the debounce, this one included, and is
      on the GUI under its own pane id when the tick ends, and in the model under that id. */
  lemma HealedWasLost(w: World, at: nat, p: Picks, u: Uid)
    requires Basic(w) && Legal(w, Tick(at, true, p)) && u in p.back
    ensures var w' := Next(w, Tick(at, true, p));
      && u in w'.s.gui && Eff(w'.s.ids, u) == w.s.ids[u] && w.s.ids[u] in w'.s.model.Values
      && w.pending[u] + 2000 <= at && LostSince(w'.log, u, w.pending[u])
  {
    BasicTidy(w);
    var r, w' := Mended(w, at, true, p.back), Next(w, Tick(at, true, p));
    HealedIsAdopted(w.s, w.parked, w.alive, DueNow(w, at), p.back, p.ousted, u);
    assert Carries(r.IdsBy(w.alive, p.ousted), p.found, w.s.ids[u]);
    var v :| v in p.found && Eff(r.IdsBy(w.alive, p.ousted), v) == w.s.ids[u];
    assert v in w'.s.model && w'.s.model[v] == w.s.ids[u];
    LostSinceGrows(w.log, u, w.pending[u], at, LostNow(w));
  }

  // ---- panes that fall off ----

  /** A running session was on the GUI and is neither there nor put by any more. */
  ghost predicate Falls(w: World, e: Step, u: Uid) {
    var w' := Next(w, e);
    u in w.s.gui && u in w.alive && u in w'.alive && u !in w'.s.gui && u !in w'.parked
  }

  /** Apart from faults that happens exactly at ticks, to a pane whose id finds another or that gives
      way to a session restarted by the control side under its id. */
  lemma FallsIff(w: World, e: Step, u: Uid)
    requires Basic(w) && Legal(w, e) && u in w.s.gui && u in w.alive
    ensures Falls(w, e, u) <==> e == GuiLoses(u) || (e.Tick? && (u in w.s.shadowed || u in e.picks.ousted))
  {
    if e.Tick? {
      MendedTidy(w, e.at, e.windowed, e.picks.back);
      MendedFrom(w, e.at, e.windowed, e.picks.back);
      DropsIff(Mended(w, e.at, e.windowed, e.picks.back), e.picks.ousted, u);
    }
  }

  /** A tick leaves an id finding another pane exactly where two panes of the GUI carry it. */
  lemma ShadowedIff(w: World, e: Step, u: Uid)
    requires Basic(w) && Legal(w, e) && e.Tick?
    ensures var s := Next(w, e).s;
      u in s.shadowed <==> u in s.gui && exists v :: v in s.model && v != u && s.model[v] == Eff(s.ids, u)
    ensures var s := Next(w, e).s;
      s.shadowed == {} <==> ApartIn(s.ids, s.gui)
  {
    var r, s := Mended(w, e.at, e.windowed, e.picks.back), Next(w, e).s;
    MergedFrom(r, w.alive, e.picks.ousted, e.picks.found);
    forall v | v in s.gui ensures Carries(s.ids, s.model.Keys, Eff(s.ids, v)) {
      var x :| x in e.picks.found && Eff(s.ids, x) == Eff(s.ids, v);
      assert x in s.model.Keys;
    }
    hide Mended, Legal, Next, Sides.CanMerge, Sides.MergedBy;
    if s.shadowed != {} {
      var x :| x in s.shadowed;
      assert Carries(s.ids, s.model.Keys, Eff(s.ids, x));
      var y :| y in s.model.Keys && Eff(s.ids, y) == Eff(s.ids, x);
      assert !ApartIn(s.ids, s.gui);
    }
  }

  ghost predicate NoTick(es: seq<Step>) {
    forall i :: 0 <= i < |es| ==> !es[i].Tick?
  }

  lemma {:induction false} ShadowedBetween(w: World, es: seq<Step>)
    requires Basic(w) && LegalRun(w, es) && NoTick(es)
    ensures Basic(Run(w, es)) && Run(w, es).s.shadowed == w.s.shadowed
    decreases |es|
  {
    if es != [] {
      NextBasic(w, es[0]);
      assert forall i :: 0 <= i < |es[1..]| ==> es[1..][i] == es[i + 1];
      ShadowedBetween(Next(w, es[0]), es[1..]);
    }
  }

  /** From one tick to the next, whatever happens in between but a fault: a pane on the GUI, running,
      falls off at the second exactly when at the first another pane of the GUI had its id and was the
      one found by it, or it now gives way. */
  lemma FallsAtNextTickIff(w: World, tick: Step, es: seq<Step>, next: Step, u: Uid)
    requires Basic(w) && Legal(w, tick) && tick.Tick? && LegalRun(Next(w, tick), es) && NoTick(es)
    requires var w' := Run(Next(w, tick), es); Legal(w', next) && next.Tick? && u in w'.s.gui && u in w'.alive
    ensures var s := Next(w, tick).s;
      Falls(Run(Next(w, tick), es), next, u) <==>
        (u in s.gui && exists v :: v in s.model && v != u && s.model[v] == Eff(s.ids, u)) || u in next.picks.ousted
  {
    NextBasic(w, tick);
    ShadowedIff(w, tick, u);
    ShadowedBetween(Next(w, tick), es);
    FallsIff(Run(Next(w, tick), es), next, u);
  }

  // ---- once taken in, once closed ----

  /** What was seen is never new again: the GUI takes each session in at most once, unless self-heal
      brings it back. */
  ghost predicate Seen(w: World, u: Uid) {
    u in w.used && u !in w.s.New()
  }

  lemma SeenStays(w: World, e: Step, u: Uid)
    requires Basic(w) && Legal(w, e) && Seen(w, u)
    ensures Seen(Next(w, e), u)
  {
    if e.Tick? {
      MergedFrom(Mended(w, e.at, e.windowed, e.picks.back), w.alive, e.picks.ousted, e.picks.found);
      hide Sides.MergedBy, Mended, Legal;
    }
  }

  /** The tick takes session `u` in. */
  predicate TakesIn(w: World, e: Step, u: Uid) {
    e.Tick? && u in Mended(w, e.at, e.windowed, e.picks.back).New()
  }

  /** The ticks of a run that take session `u` in. */
  function Takes(w: World, es: seq<Step>, u: Uid): nat
    decreases |es|
  {
    if es == [] then 0 else (if TakesIn(w, es[0], u) then 1 else 0) + Takes(Next(w, es[0]), es[1..], u)
  }

  /** If it runs and has a pane id it is on the GUI, put by, or about to be taken in. */
  ghost predicate Tracked(w: World, u: Uid) {
    u in w.alive && (u in w.s.ids || u in w.s.model) ==> u in w.s.gui || u in w.parked || u in w.s.New()
  }

  /** A fault takes the pane off the GUI, or a tick finds another by its id. */
  ghost predicate Misses(w: World, e: Step, u: Uid) {
    u in w.s.gui && u in w.alive && (e == GuiLoses(u) || (e.Tick? && u in w.s.shadowed))
  }

  /** A session goes astray in exactly those steps, unless that leaves it no alias to be found again by
      or the tick makes it give way. */
  lemma TrackedStaysIff(w: World, e: Step, u: Uid)
    requires Basic(w) && Legal(w, e) && Tracked(w, u)
    ensures Tracked(Next(w, e), u) <==>
      !(Misses(w, e, u) && if e.Tick? then u in w.s.ids && u !in e.picks.ousted else u in w.s.ids || u in w.s.model)
  {
    if e.Tick? {
      var r := Mended(w, e.at, e.windowed, e.picks.back);
      MendedTidy(w, e.at, e.windowed, e.picks.back);
      MendedFrom(w, e.at, e.windowed, e.picks.back);
      MergedFrom(r, w.alive, e.picks.ousted, e.picks.found);
      if u in w.s.gui { DropsIff(r, e.picks.ousted, u); }
      ThreeWay(r, e.picks.ousted);
      hide Mended, LostNow, DueNow, OnePerId, Sides.Tidy, Debounced, Minted;
    }
  }

  lemma TrackedNotTaken(w: World, e: Step, u: Uid)
    requires Basic(w) && Legal(w, e) && Tracked(w, u) && u !in w.s.New()
    ensures !TakesIn(w, e, u)
  {
    if e.Tick? { MendedFrom(w, e.at, e.windowed, e.picks.back); }
  }

  ghost predicate Spared(w: World, es: seq<Step>, u: Uid)
    decreases |es|
  {
    es == [] || (!Misses(w, es[0], u) && Spared(Next(w, es[0]), es[1..], u))
  }

  /** A session once seen, and not astray, is never taken in again in a run that does not miss it,
      whatever befalls the others. */
  lemma {:induction false} SeenNeverTaken(w: World, es: seq<Step>, u: Uid)
    requires Basic(w) && Tracked(w, u) && LegalRun(w, es) && Spared(w, es, u) && Seen(w, u)
    ensures Takes(w, es, u) == 0
    decreases |es|
  {
    if es != [] {
      TrackedNotTaken(w, es[0], u);
      NextBasic(w, es[0]);
      TrackedStaysIff(w, es[0], u);
      SeenStays(w, es[0], u);
      hide Basic, Next, Legal, Tracked, Misses, TakesIn, Seen;
      SeenNeverTaken(Next(w, es[0]), es[1..], u);
    }
  }

  /** A dispatched session still in the model at the next tick is taken in by that tick and by no other
      of such a run; one restarted away before it never is. */
  lemma {:induction false} TakenInOnce(w: World, es: seq<Step>, u: Uid)
    requires Basic(w) && LegalRun(w, es) && Spared(w, es, u) && u in w.s.New()
    ensures Takes(w, es, u) == if ReachesTick(w, es, u) then 1 else 0
    decreases |es|
  {
    if es != [] {
      NextBasic(w, es[0]);
      NewStays(w, es[0], u);
      hide Basic, Next, Legal, Misses, TakesIn;
      var w' := Next(w, es[0]);
      if !es[0].Tick? && u in w'.s.model {
        TakenInOnce(w', es[1..], u);
      } else {
        SeenNeverTaken(w', es[1..], u);
      }
    }
  }

  lemma NewStays(w: World, e: Step, u: Uid)
    requires Basic(w) && Legal(w, e) && u in w.s.New()
    ensures Tracked(Next(w, e), u) && (TakesIn(w, e, u) <==> e.Tick?)
    ensures if !e.Tick? && u in Next(w, e).s.model then u in Next(w, e).s.New() else Seen(Next(w, e), u)
  {
    NextBasic(w, e);
    TrackedStaysIff(w, e, u);
    if e.Tick? {
      MendedFrom(w, e.at, e.windowed, e.picks.back);
      MergedFrom(Mended(w, e.at, e.windowed, e.picks.back), w.alive, e.picks.ousted, e.picks.found);
      hide Sides.MergedBy, Mended, Legal;
    }
  }

  /** The model holds `u` until the run's next tick. */
  ghost predicate ReachesTick(w: World, es: seq<Step>, u: Uid)
    decreases |es|
  {
    es != [] && u in w.s.model && (es[0].Tick? || ReachesTick(Next(w, es[0]), es[1..], u))
  }

  /** A careful run misses no session but by a fault that befalls it. */
  lemma {:induction false} CarefulSpares(w: World, es: seq<Step>, u: Uid)
    requires Sound(w) && LegalRun(w, es) && CarefulRun(w, es) && GuiLoses(u) !in es
    ensures Spared(w, es, u)
    decreases |es|
  {
    if es != [] {
      SoundIff(w, es[0]);
      hide Next, Legal, Careful, Basic;
      CarefulSpares(Next(w, es[0]), es[1..], u);
    }
  }

  /** The session runs, has an alias, and nobody knows it or shows its id. */
  ghost predicate Astray(w: World, u: Uid) {
    && Seen(w, u) && u in w.alive && u in w.s.ids && w.s.ids[u] != u && u !in w.s.gui && u !in w.parked && u !in w.s.shadowed
    && w.s.ids[u] !in w.s.model.Values
    && forall v :: v in w.s.gui + w.s.ids.Keys && Eff(w.s.ids, v) == w.s.ids[u] ==> v == u
  }

  lemma AstrayStays(w: World, u: Uid, at: nat, p: Picks)
    requires Basic(w) && Astray(w, u) && Legal(w, Tick(at, true, p)) && u !in p.back
    ensures Astray(Next(w, Tick(at, true, p)), u)
  {
    var r, e := Mended(w, at, true, p.back), Tick(at, true, p);
    assert forall v :: v in w.s.model ==> w.s.model[v] in w.s.model.Values;
    MendedTidy(w, at, true, p.back);
    MendedFrom(w, at, true, p.back);
    SeenStays(w, e, u);
    hide Basic, Mended, DueNow, LostNow, OnePerId;
    StaysAlone(r, w.alive, p.ousted, p.found, u);
  }

  lemma StaysAlone(r: Sides, alive: set<Uid>, ousted: set<Uid>, found: set<Uid>, u: Uid)
    requires r.Tidy() && r.CanMerge(alive, ousted, found) && u in alive && u in r.ids && u !in r.gui && u !in r.model
    requires forall v :: v in r.gui + r.ids.Keys && Eff(r.ids, v) == r.ids[u] ==> v == u
    requires forall v :: v in r.model ==> r.model[v] != r.ids[u]
    ensures var s := r.MergedBy(alive, ousted, found);
      && u !in s.gui && u !in s.shadowed && u in s.ids && s.ids[u] == r.ids[u] && s.ids[u] !in s.model.Values
      && forall v :: v in s.gui + s.ids.Keys && Eff(s.ids, v) == r.ids[u] ==> v == u
  {
    var s := r.MergedBy(alive, ousted, found);
    MergedFrom(r, alive, ousted, found);
    assert u !in ousted && u !in r.New();
    assert u in s.ids;
    forall v | v in s.gui ensures Eff(s.ids, v) != r.ids[u] {
      IdsKept(r, alive, ousted, v);
    }
    forall v | v in s.ids && s.ids[v] == r.ids[u] ensures v == u {
      assert v in r.gui + r.ids.Keys || v in r.model;
    }
  }

  /** A session astray is lost at every tick, and two ticks at least the debounce apart take it in once
      more. */
  lemma AstrayTakenAgain(w: World, u: Uid, t1: nat, p1: Picks, t2: nat, p2: Picks)
    requires Basic(w) && Astray(w, u) && u !in w.pending && t2 >= t1 + 2000
    requires LegalRun(w, [Tick(t1, true, p1), Tick(t2, true, p2)])
    ensures Takes(w, [Tick(t1, true, p1), Tick(t2, true, p2)], u) == 1
  {
    var e1, e2 := Tick(t1, true, p1), Tick(t2, true, p2);
    var es, w' := [e1, e2], Next(w, e1);
    assert es[1..] == [e2] && [e2][1..] == [];
    assert LegalRun(w', [e2]);
    NextBasic(w, e1);
    AstrayStays(w, u, t1, p1);
    TakenWhenDue(w, u, t1, p1);
    TakenWhenDue(w', u, t2, p2);
    hide Basic, Next, Legal, Astray, TakesIn;
    assert Takes(w', [e2], u) == 1 by {
      assert Takes(Next(w', e2), [], u) == 0;
    }
  }

  lemma TakenWhenDue(w: World, u: Uid, at: nat, p: Picks)
    requires Basic(w) && Astray(w, u) && Legal(w, Tick(at, true, p))
    ensures u in LostNow(w) && (u in DueNow(w, at) <==> u in w.pending && at >= w.pending[u] + 2000)
    ensures TakesIn(w, Tick(at, true, p), u) <==> u in DueNow(w, at)
    ensures u in p.back <==> u in DueNow(w, at)
    ensures u !in DueNow(w, at) ==>
      u in Next(w, Tick(at, true, p)).pending && Next(w, Tick(at, true, p)).pending[u] == if u in w.pending then w.pending[u] else at
  {
    var k := w.s.ids[u];
    assert forall v :: v in w.s.model ==> w.s.model[v] in w.s.model.Values;
    assert u !in w.s.model && u !in w.s.prev;
    MendedFrom(w, at, true, p.back);
    if u in DueNow(w, at) {
      assert Carries(w.s.ids, p.back, Eff(w.s.ids, u));
      var v :| v in p.back && Eff(w.s.ids, v) == k;
    }
  }

  /** Closed by the human, and put by or gone. */
  ghost predicate Closed(w: World, u: Uid) {
    Seen(w, u) && u !in w.s.gui && (u in w.parked || u !in w.alive)
  }

  lemma CloseCloses(w: World, u: Uid)
    requires Basic(w) && u in w.s.gui
    ensures Closed(Next(w, GuiClose(u)), u)
  {
  }

  lemma {:induction false} ClosedThrough(w: World, es: seq<Step>, u: Uid)
    requires Basic(w) && LegalRun(w, es) && Closed(w, u) && GuiReopen(u) !in es
    ensures Closed(Run(w, es), u)
    decreases |es|
  {
    if es != [] {
      NextBasic(w, es[0]);
      ClosedStays(w, es[0], u);
      ClosedThrough(Next(w, es[0]), es[1..], u);
    }
  }

  /** In every run, faults, shared ids and all, a pane once closed stays off the GUI until it is
      reopened. */
  lemma NeverResurrected(w: World, u: Uid, es: seq<Step>)
    requires Basic(w) && u in w.s.gui && LegalRun(Next(w, GuiClose(u)), es) && GuiReopen(u) !in es
    ensures u !in Run(Next(w, GuiClose(u)), es).s.gui
  {
    CloseCloses(w, u);
    NextBasic(w, GuiClose(u));
    ClosedThrough(Next(w, GuiClose(u)), es, u);
  }

  lemma ClosedStays(w: World, e: Step, u: Uid)
    requires Basic(w) && Legal(w, e) && Closed(w, u) && e != GuiReopen(u)
    ensures Closed(Next(w, e), u)
  {
    SeenStays(w, e, u);
    if e.Tick? {
      MendedFrom(w, e.at, e.windowed, e.picks.back);
      MergedFrom(Mended(w, e.at, e.windowed, e.picks.back), w.alive, e.picks.ousted, e.picks.found);
      hide Sides.MergedBy, Mended, Legal;
    }
  }

  // ---- when a closed pane's id comes back ----

  /** A pane of the GUI carries the id `k`. */
  ghost predicate Shows(w: World, k: Uid) {
    Carries(w.s.ids, w.s.gui, k)
  }

  /** A dispatch not yet taken in carries the id `k`. */
  ghost predicate Awaits(w: World, k: Uid) {
    exists n :: n in w.s.New() && w.s.model[n] == k
  }

  /** Nothing that runs off the layout holds the id but what the GUI has put by. */
  ghost predicate Gone(w: World, k: Uid) {
    && k in w.used && !Shows(w, k)
    && forall v :: v in w.s.ids && v in w.alive && w.s.ids[v] == k ==> v in w.parked
  }

  /** A tick brings an id no pane carries onto the GUI exactly when some session it takes in carries
      it in the model. */
  lemma TickBringsIff(w: World, at: nat, windowed: bool, k: Uid)
    requires Sound(w) && !Shows(w, k)
    ensures Shows(TickOf(w, at, windowed), k)
      <==> exists n :: n in Healed(w, at, windowed).New() && Healed(w, at, windowed).model[n] == k
  {
    var r, w' := Healed(w, at, windowed), TickOf(w, at, windowed);
    HealedAgrees(w, at, windowed);
    HealedFrom(w, at, windowed);
    TickFrom(w, at, windowed);
    forall v | v in w'.s.gui ensures Eff(w'.s.ids, v) == if v in w.s.gui then Eff(w.s.ids, v) else r.model[v] {
      IdsKept(r, w.alive, r.Displaced(r.model.Keys), v);
    }
    if n :| n in r.New() && r.model[n] == k {
      ThreeWay(r, r.Displaced(r.model.Keys));
      assert n in w'.s.gui;
    }
  }

  /** Once gone, an id comes back in one step only: a tick that takes in a dispatch carrying it, or the
      reopening of a pane put by that carries it. */
  lemma ComesBackIff(w: World, e: Step, k: Uid)
    requires Sound(w) && Legal(w, e) && Gone(w, k)
    ensures Shows(Next(w, e), k) <==>
      (e.Tick? && Awaits(w, k)) || (e.GuiReopen? && Eff(w.s.ids, e.u) == k)
    ensures !Shows(Next(w, e), k) ==> Gone(Next(w, e), k)
  {
    var w' := Next(w, e);
    if e.Tick? {
      var r := Healed(w, e.at, e.windowed);
      SoundTick(w, e.at, e.windowed, e.picks);
      TickBringsIff(w, e.at, e.windowed, k);
      HealedFrom(w, e.at, e.windowed);
      TickFrom(w, e.at, e.windowed);
      assert Awaits(w, k) <==> exists n :: n in r.New() && r.model[n] == k by {
        forall n | n in r.New() && r.model[n] == k ensures n in w.s.New() && w.s.model[n] == k { }
        if n :| n in w.s.New() && w.s.model[n] == k { assert n in r.New() && r.model[n] == k; }
      }
      if !Shows(w', k) { GoneThroughTick(w, e.at, e.windowed, k); }
    } else if e.GuiReopen? {
      if Eff(w.s.ids, e.u) == k { assert e.u in w'.s.gui; }
    } else if e.GuiOpen? {
      FreshStandsApart(w, e.u);
    } else if e.GuiRebind? {
      FreshStandsApart(w, e.fresh');
      assert Eff(w.s.ids, e.u) != k;
    }
  }

  lemma GoneThroughTick(w: World, at: nat, windowed: bool, k: Uid)
    requires Sound(w) && at >= w.now && Gone(w, k) && !Shows(TickOf(w, at, windowed), k)
    ensures Gone(TickOf(w, at, windowed), k)
  {
    var r, w' := Healed(w, at, windowed), TickOf(w, at, windowed);
    TickBringsIff(w, at, windowed, k);
    HealedFrom(w, at, windowed);
    TickFrom(w, at, windowed);
  }

  /** A pane carrying the id is reopened at some point of the run. */
  ghost predicate Reopened(w: World, es: seq<Step>, k: Uid)
    decreases |es|
  {
    es != [] && ((es[0].GuiReopen? && Eff(w.s.ids, es[0].u) == k) || Reopened(Next(w, es[0]), es[1..], k))
  }

  /** The model's entry with the id is restarted before the run's first tick. */
  ghost predicate RestartedFirst(w: World, es: seq<Step>, k: Uid)
    decreases |es|
  {
    && es != [] && !es[0].Tick?
    && ((es[0].RestartPane? && es[0].u in w.s.model && w.s.model[es[0].u] == k) || RestartedFirst(Next(w, es[0]), es[1..], k))
  }

  ghost predicate Ticks(es: seq<Step>) {
    exists i :: 0 <= i < |es| && es[i].Tick?
  }

  /** At some point of the run a pane of the GUI carries the id. */
  ghost predicate Returns(w: World, es: seq<Step>, k: Uid)
    decreases |es|
  {
    Shows(w, k) || (es != [] && Returns(Next(w, es[0]), es[1..], k))
  }

  /** A dispatch awaits the next tick under the id exactly when one did already or the pane is
      restarted. */
  lemma AwaitsIff(w: World, e: Step, k: Uid)
    requires Sound(w) && Legal(w, e) && k in w.used && !e.Tick? && !Shows(w, k)
    ensures Awaits(Next(w, e), k) <==> Awaits(w, k) || (e.RestartPane? && w.s.model[e.u] == k)
  {
    var w' := Next(w, e);
    if n :| n in w.s.New() && w.s.model[n] == k {
      if e.RestartPane? && e.u == n {
        assert e.fresh' in w'.s.New();
      } else {
        assert n in w'.s.New();
      }
    }
    if e.RestartPane? && w.s.model[e.u] == k { assert e.fresh' in w'.s.New() && w'.s.model[e.fresh'] == k; }
    if n :| n in w'.s.New() && w'.s.model[n] == k {
      assert (e.RestartPane? && n == e.fresh') || n in w.s.New();
    }
  }

  /** After a tick the model names no pane by an id the GUI does not carry, and no dispatch waits. */
  lemma NoneAfterTick(w: World, at: nat, windowed: bool, k: Uid)
    requires Sound(w)
    ensures !Awaits(TickOf(w, at, windowed), k)
    ensures Settles(TickOf(w, at, windowed), k)
  {
    TickFrom(w, at, windowed);
  }

  /** The model has no entry with the id but for panes of the GUI. */
  ghost predicate Settles(w: World, k: Uid) {
    forall v :: v in w.s.model && w.s.model[v] == k ==> v in w.s.gui
  }

  lemma SettlesStays(w: World, e: Step, k: Uid)
    requires Sound(w) && Legal(w, e) && Settles(w, k) && !Shows(w, k) && k in w.used && !Awaits(w, k)
    ensures forall v :: v in w.s.model ==> w.s.model[v] != k
    ensures !e.Tick? ==> Settles(Next(w, e), k) && !Awaits(Next(w, e), k)
  {
    SoundAgrees(w);
    if !e.Tick? { AwaitsIff(w, e, k); }
  }

  /** From a settled world the id returns only by a reopening. */
  lemma {:induction false} SettledReturnsIff(w: World, es: seq<Step>, k: Uid)
    requires Sound(w) && Gone(w, k) && Settles(w, k) && !Awaits(w, k) && LegalRun(w, es) && CarefulRun(w, es)
    ensures Returns(w, es, k) <==> Reopened(w, es, k)
    decreases |es|
  {
    if es != [] {
      ComesBackIff(w, es[0], k);
      SettlesStays(w, es[0], k);
      if es[0].Tick? {
        SoundTick(w, es[0].at, es[0].windowed, es[0].picks);
        NoneAfterTick(w, es[0].at, es[0].windowed, k);
      }
      SoundIff(w, es[0]);
      hide Sound, Next, Legal, Careful;
      if !Shows(Next(w, es[0]), k) { SettledReturnsIff(Next(w, es[0]), es[1..], k); }
    }
  }

  /** From a world whose id is gone it returns, over any careful run, exactly when a pane put by that
      carries it is reopened, or when the run ticks and a dispatch carrying it was waiting or the entry
      with it is restarted before the first tick. */
  lemma {:induction false} IdReturnsIff(w: World, es: seq<Step>, k: Uid)
    requires Sound(w) && Gone(w, k) && LegalRun(w, es) && CarefulRun(w, es)
    ensures Returns(w, es, k) <==> Reopened(w, es, k) || (Ticks(es) && (Awaits(w, k) || RestartedFirst(w, es, k)))
    decreases |es|
  {
    if es != [] {
      var w' := Next(w, es[0]);
      ComesBackIff(w, es[0], k);
      SoundIff(w, es[0]);
      assert forall i :: 0 <= i < |es[1..]| ==> es[1..][i] == es[i + 1];
      assert Ticks(es) <==> es[0].Tick? || Ticks(es[1..]);
      if es[0].Tick? {
        SoundTick(w, es[0].at, es[0].windowed, es[0].picks);
        NoneAfterTick(w, es[0].at, es[0].windowed, k);
        hide Sound, Next, Careful;
        if !Shows(w', k) { SettledReturnsIff(w', es[1..], k); }
      } else {
        AwaitsIff(w, es[0], k);
        hide Sound, Next, Careful;
        if !Shows(w', k) { IdReturnsIff(w', es[1..], k); }
      }
    }
  }

  lemma ClosedIsGone(w: World, u: Uid)
    requires Sound(w) && u in w.s.gui
    ensures Gone(Next(w, GuiClose(u)), Eff(w.s.ids, u))
  {
    var k := Eff(w.s.ids, u);
    var w' := Next(w, GuiClose(u));
    assert u in Standing(w);
    forall v | v in w'.s.gui ensures Eff(w'.s.ids, v) != k {
      assert v in Standing(w);
    }
    forall v | v in w'.s.ids && v in w'.alive && w'.s.ids[v] == k ensures v in w'.parked {
      assert v in Standing(w);
    }
  }

  /** A pane never comes back once closed, but its id can: over any careful run, exactly through the
      reopening of a pane carrying it, or, at the first tick, through a restart of the model's entry
      with it since the last one. */
  lemma ClosedIdReturnsIff(w: World, u: Uid, es: seq<Step>)
    requires Sound(w) && u in w.s.gui
    requires LegalRun(Next(w, GuiClose(u)), es) && CarefulRun(Next(w, GuiClose(u)), es)
    ensures var (w', k) := (Next(w, GuiClose(u)), Eff(w.s.ids, u));
      Returns(w', es, k) <==> Reopened(w', es, k) || (Ticks(es) && (Awaits(w', k) || RestartedFirst(w', es, k)))
  {
    SoundIff(w, GuiClose(u));
    ClosedIsGone(w, u);
    IdReturnsIff(Next(w, GuiClose(u)), es, Eff(w.s.ids, u));
  }

  /** So restarting a just-closed pane through the control side before the next tick brings its id back
      on a new session. */
  lemma ClosedIdComesBack(w: World, u: Uid, n: Uid, tick: Step)
    requires Sound(w) && u in w.s.gui && u in w.s.model && n !in w.used && tick.Tick?
    requires Legal(Next(Next(w, GuiClose(u)), RestartPane(u, n)), tick)
    ensures var w' := Next(Next(Next(w, GuiClose(u)), RestartPane(u, n)), tick);
      u !in w'.s.gui && n in w'.s.gui && Eff(w'.s.ids, n) == Eff(w.s.ids, u)
  {
    var w1 := Next(w, GuiClose(u));
    var w2 := Next(w1, RestartPane(u, n));
    SoundAgrees(w);
    SoundIff(w, GuiClose(u));
    SoundIff(w1, RestartPane(u, n));
    SoundTick(w2, tick.at, tick.windowed, tick.picks);
    var r := Healed(w2, tick.at, tick.windowed);
    HealedAgrees(w2, tick.at, tick.windowed);
    HealedFrom(w2, tick.at, tick.windowed);
    assert n in w2.s.New() && w2.s.model[n] == w.s.model[u];
    hide Sound, Healed, Sides.Agree, Standing, Sides.GuiBy, Sides.IdsBy, Sides.Tree, Legal;
    TakenNotDropped(r, u, n);
    IdsKept(r, w2.alive, r.Displaced(r.model.Keys), n);
  }

  lemma TakenNotDropped(r: Sides, u: Uid, n: Uid)
    requires n in r.New() && u !in r.gui && u !in r.New()
    ensures n in r.MergedGui() && u !in r.MergedGui() && n !in r.gui
  {
  }

  /** A pane restarted from both sides between two ticks keeps the control side's session; the GUI's
      own runs on where nobody can find it, with no alias left for self-heal to go by. */
  lemma RestartedFromBothSides(w: World, u: Uid, n: Uid, m: Uid, tick: Step)
    requires Sound(w) && u in w.s.gui && u in w.s.model && u in w.s.ids && tick.Tick?
    requires n !in w.used && m !in w.used && n != m && Legal(Next(Next(w, GuiRebind(u, n)), RestartPane(u, m)), tick)
    ensures var w' := Next(Next(Next(w, GuiRebind(u, n)), RestartPane(u, m)), tick);
      && m in w'.s.gui && Eff(w'.s.ids, m) == Eff(w.s.ids, u)
      && n in w'.alive && n !in w'.s.gui && n !in w'.parked && n !in w'.s.model && n !in w'.s.ids
  {
    var w1 := Next(w, GuiRebind(u, n));
    var w2 := Next(w1, RestartPane(u, m));
    SoundAgrees(w);
    SoundIff(w, GuiRebind(u, n));
    SoundIff(w1, RestartPane(u, m));
    SoundTick(w2, tick.at, tick.windowed, tick.picks);
    var r := Healed(w2, tick.at, tick.windowed);
    HealedAgrees(w2, tick.at, tick.windowed);
    HealedFrom(w2, tick.at, tick.windowed);
    assert m in w2.s.New() && w2.s.model[m] == Eff(w2.s.ids, n) && n !in w2.s.model;
    hide Sound, Healed, Standing, Sides.Agree, Legal;
    DisplacedGoes(r, n, m, w2.alive);
  }

  lemma DisplacedGoes(r: Sides, n: Uid, m: Uid, alive: set<Uid>)
    requires r.Agree() && m in r.New() && n in r.gui && n !in r.model && r.model[m] == Eff(r.ids, n)
    ensures m in r.MergedGui() && n !in r.MergedGui() && n !in r.MergedIds(alive)
    ensures Eff(r.MergedIds(alive), m) == r.model[m]
  {
    RecordedAgrees(r, n);
    assert r.model[m] in r.NewIds(r.model.Keys);
    IdsKept(r, alive, r.Displaced(r.model.Keys), m);
  }

  // ---- two panes under one id ----

  /** The pane restarted from both sides, and the human closing the GUI's session before the tick. */
  function Contested(w: World, u: Uid, n: Uid, m: Uid): World {
    Next(Next(Next(w, GuiRebind(u, n)), RestartPane(u, m)), GuiClose(n))
  }

  ghost predicate CanContest(w: World, u: Uid, n: Uid, m: Uid) {
    && Sound(w) && u in w.s.gui && u in w.s.model && u in w.s.ids
    && n !in w.used && m !in w.used && n != m
  }

  lemma ContestedSound(w: World, u: Uid, n: Uid, m: Uid)
    requires CanContest(w, u, n, m)
    ensures Sound(Contested(w, u, n, m))
  {
    hide Sound;
    var w1 := Next(w, GuiRebind(u, n));
    var w2 := Next(w1, RestartPane(u, m));
    SoundIff(w, GuiRebind(u, n));
    SoundIff(w1, RestartPane(u, m));
    SoundIff(w2, GuiClose(n));
  }

  lemma ContestedIs(w: World, u: Uid, n: Uid, m: Uid)
    requires CanContest(w, u, n, m)
    ensures var w' := Contested(w, u, n, m);
      && n in w'.parked && n in w'.alive && m in w'.alive && n !in w'.s.gui && m in w'.s.New()
      && n in w'.s.ids && w'.s.ids[n] == w'.s.model[m] == w.s.ids[u] && n !in w'.s.model
  {
    SoundAgrees(w);
    assert MintedSides(w.s, w.used);
    assert w.s.model[u] == w.s.ids[u];
    hide Sound, Basic, Sides.Agree;
  }

  /** Then the tick is contested. */
  lemma ContestReached(w: World, u: Uid, n: Uid, m: Uid)
    requires CanContest(w, u, n, m)
    ensures var w' := Contested(w, u, n, m);
      && Sound(w') && !NoContest(w') && n in w'.parked && n in w'.alive && m in w'.alive
      && m in w'.s.New() && n in w'.s.ids && w'.s.ids[n] == w'.s.model[m] == w.s.ids[u] && n !in w'.s.model
  {
    ContestedSound(w, u, n, m);
    ContestedIs(w, u, n, m);
    var w' := Contested(w, u, n, m);
    hide Sound, Contested;
    assert n in Standing(w') && Eff(w'.s.ids, n) == w'.s.model[m];
  }

  /** Two running panes, one id. */
  ghost predicate Pair(w: World, n: Uid, m: Uid, k: Uid) {
    n != m && n in w.alive && m in w.alive && n in w.s.ids && m in w.s.ids && w.s.ids[n] == w.s.ids[m] == k
  }

  /** The contested tick leaves one of the two on the GUI and the other put by. */
  lemma ContestTaken(c: World, n: Uid, m: Uid, tick: Step)
    requires Sound(c) && tick.Tick? && Legal(c, tick)
    requires n in c.parked && n in c.alive && n in c.s.ids && n !in c.s.model && m in c.s.New() && m in c.alive
    requires c.s.ids[n] == c.s.model[m]
    ensures var w := Next(c, tick);
      && Basic(w) && Pair(w, n, m, c.s.ids[n]) && n in w.parked && n !in w.s.prev && w.s.New() == {} && w.s.shadowed == {}
      && m in w.s.gui && m in w.s.model && w.s.model[m] == c.s.ids[n]
  {
    SoundTick(c, tick.at, tick.windowed, tick.picks);
    var r, s := Healed(c, tick.at, tick.windowed), Next(c, tick).s;
    NextBasic(c, tick);
    HealedFrom(c, tick.at, tick.windowed);
    HealedAgrees(c, tick.at, tick.windowed);
    assert m in r.New() && n !in r.model && n !in r.gui;
    TickFrom(c, tick.at, tick.windowed);
    hide Sound, Basic, Healed, Legal;
    TakenUnderAlias(r, c.alive, n, m);
  }

  lemma TakenUnderAlias(r: Sides, alive: set<Uid>, n: Uid, m: Uid)
    requires r.Agree() && m in r.New() && n in alive && n in r.ids && n !in r.model && n !in r.gui
    ensures m in r.MergedGui() && n !in r.MergedGui()
    ensures m in r.MergedIds(alive) && r.MergedIds(alive)[m] == r.model[m]
    ensures n in r.MergedIds(alive) && r.MergedIds(alive)[n] == r.ids[n]
  {
    ThreeWay(r, r.Displaced(r.model.Keys));
  }

  /** And reopening the session then puts two running panes on the GUI under one id. */
  lemma TwoUnderOneId(w: World, u: Uid, n: Uid, m: Uid, tick: Step)
    requires CanContest(w, u, n, m) && tick.Tick? && Legal(Contested(w, u, n, m), tick)
    ensures var w' := Next(Next(Contested(w, u, n, m), tick), GuiReopen(n));
      && Basic(w') && Pair(w', n, m, w.s.ids[u]) && n in w'.s.gui && m in w'.s.gui
      && w'.s.New() == {} && w'.s.shadowed == {} && w.s.ids[u] in w'.s.model.Values
      && n !in w'.s.prev && m in w'.s.model
  {
    ContestReached(w, u, n, m);
    var c := Contested(w, u, n, m);
    hide Basic, Sound, NoContest, Next, Legal, Pair, Contested;
    ContestTaken(c, n, m, tick);
    ReopenedPair(Next(c, tick), n, m, w.s.ids[u]);
  }

  lemma ReopenedPair(w: World, n: Uid, m: Uid, k: Uid)
    requires Basic(w) && Pair(w, n, m, k) && n in w.parked && m in w.s.gui && m in w.s.model && w.s.model[m] == k
    requires w.s.New() == {}
    ensures var w' := Next(w, GuiReopen(n));
      && Basic(w') && Pair(w', n, m, k) && n in w'.s.gui && m in w'.s.gui && w'.s.New() == {} && k in w'.s.model.Values
      && w'.s.shadowed == w.s.shadowed && w'.s.prev == w.s.prev && w'.s.model == w.s.model
  {
    NextBasic(w, GuiReopen(n));
    hide Basic;
    assert w.s.model[m] in w.s.model.Values;
  }

  /** The next tick shows both and finds at most one of them. */
  lemma OneShadowed(w: World, n: Uid, m: Uid, k: Uid, tick: Step)
    requires Basic(w) && Pair(w, n, m, k) && n in w.s.gui && m in w.s.gui && n !in w.s.prev && m in w.s.model
    requires w.s.New() == {} && k in w.s.model.Values && tick.Tick? && Legal(w, tick)
    ensures var w' := Next(w, tick);
      && Basic(w') && Pair(w', n, m, k) && n in w'.s.gui && m in w'.s.gui && w'.s.New() == {} && k in w'.s.model.Values
      && (n in w'.s.shadowed || m in w'.s.shadowed)
  {
    var r, p, w' := Mended(w, tick.at, tick.windowed, tick.picks.back), tick.picks, Next(w, tick);
    NextBasic(w, tick);
    MendedTidy(w, tick.at, tick.windowed, p.back);
    MendedFrom(w, tick.at, tick.windowed, p.back);
    forall x | x in r.New() ensures r.model[x] != k {
      assert x in p.back;
    }
    hide Mended, Basic, Legal, DueNow, LostNow;
    assert r.CanMerge(w.alive, p.ousted, p.found);
    PairStays(r, w.alive, p.ousted, p.found, n, m, k);
  }

  lemma PairStays(r: Sides, alive: set<Uid>, ousted: set<Uid>, found: set<Uid>, n: Uid, m: Uid, k: Uid)
    requires r.Tidy() && r.CanMerge(alive, ousted, found) && n != m && n in r.gui && m in r.gui && n !in r.prev && m in r.model
    requires n in r.ids && m in r.ids && r.ids[n] == r.ids[m] == k && forall x :: x in r.New() ==> r.model[x] != k
    ensures var s := r.MergedBy(alive, ousted, found);
      && n in s.gui && m in s.gui && n in s.ids && m in s.ids && s.ids[n] == s.ids[m] == k
      && s.New() == {} && k in s.model.Values && (n in s.shadowed || m in s.shadowed)
  {
    var s := r.MergedBy(alive, ousted, found);
    assert n !in ousted && m !in ousted;
    ThreeWay(r, ousted);
    MergedFrom(r, alive, ousted, found);
    assert n in s.ids && m in s.ids;
    assert Carries(s.ids, found, Eff(s.ids, n));
    var v :| v in found && Eff(s.ids, v) == k;
    assert v in s.model && s.model[v] == k;
  }

  /** The tick after that takes the other off the GUI, running, put by nowhere and astray. */
  lemma ShadowedFallsOff(w: World, f: Uid, tick: Step)
    requires Basic(w) && f in w.s.shadowed && f in w.s.gui && f in w.alive && f in w.s.ids && w.s.ids[f] in w.s.model.Values
    requires w.s.New() == {} && tick.Tick? && Legal(w, tick)
    ensures Falls(w, tick, f) && Seen(Next(w, tick), f) && !Tracked(Next(w, tick), f)
  {
    StaysPut(w, f, tick);
    FallsIff(w, tick, f);
    SeenStays(w, tick, f);
    TrackedStaysIff(w, tick, f);
    hide Basic, Legal, Next, LostNow, DueNow, Sides.Displaced;
  }

  /** No session put back has its id, so it gives way to none. */
  lemma StaysPut(w: World, f: Uid, tick: Step)
    requires Basic(w) && f in w.s.gui && f in w.s.ids && w.s.ids[f] in w.s.model.Values && w.s.New() == {}
    requires tick.Tick? && Legal(w, tick)
    ensures f !in tick.picks.ousted && f in w.used
  {
    var r := Mended(w, tick.at, tick.windowed, tick.picks.back);
    MendedFrom(w, tick.at, tick.windowed, tick.picks.back);
    forall x | x in r.New() ensures r.model[x] != w.s.ids[f] {
      assert x !in w.s.model by { assert x in w.s.model ==> x in w.s.New(); }
      assert x in LostNow(w);
    }
    assert Eff(r.Recorded(), f) == w.s.ids[f];
  }

  /** So without any fault a session running on the GUI is dropped from it, and not put by. */
  lemma FallsUnasked(w: World, u: Uid, n: Uid, m: Uid, t1: Step, t2: Step, t3: Step) returns (f: Uid)
    requires CanContest(w, u, n, m) && t1.Tick? && t2.Tick? && t3.Tick? && Legal(Contested(w, u, n, m), t1)
    requires LegalRun(Next(Next(Contested(w, u, n, m), t1), GuiReopen(n)), [t2, t3])
    ensures var w' := Next(Next(Next(Contested(w, u, n, m), t1), GuiReopen(n)), t2);
      f in {n, m} && Falls(w', t3, f) && Seen(Next(w', t3), f) && !Tracked(Next(w', t3), f)
  {
    TwoUnderOneId(w, u, n, m, t1);
    var w1 := Next(Next(Contested(w, u, n, m), t1), GuiReopen(n));
    assert [t2, t3][1..] == [t3];
    assert LegalRun(Next(w1, t2), [t3]);
    hide Basic, Next, Legal, Contested, CanContest, Falls, Tracked, Seen;
    OneShadowed(w1, n, m, w.s.ids[u], t2);
    f := if n in Next(w1, t2).s.shadowed then n else m;
    ShadowedFallsOff(Next(w1, t2), f, t3);
  }

  /** A run without a fault takes `w` to `w'`. */
  ghost predicate Reaches(w: World, es: seq<Step>, w': World)
    decreases |es|
  {
    if es == [] then w' == w else Legal(w, es[0]) && !es[0].GuiLoses? && Reaches(Next(w, es[0]), es[1..], w')
  }

  lemma {:induction false} ReachesMore(w: World, es: seq<Step>, w': World, e: Step)
    requires Reaches(w, es, w') && Legal(w', e) && !e.GuiLoses?
    ensures Reaches(w, es + [e], Next(w', e))
    decreases |es|
  {
    hide Legal, Next;
    if es == [] {
      assert es + [e] == [e] && [e][1..] == [];
    } else {
      ReachesMore(Next(w, es[0]), es[1..], w', e);
      assert (es + [e])[1..] == es[1..] + [e];
    }
  }

  lemma TickNow(w: World) returns (tick: Step)
    ensures tick.Tick? && Legal(w, tick)
  {
    var p := TickPossible(w, w.now, true);
    tick := Tick(w.now, true, p);
  }

  lemma FirstPane()
    ensures var w := Next(EMPTY_WORLD, NewPane(1, 2));
      && Sound(w) && w.s == Sides({}, map[1 := 2], {}, {}, map[]) && w.used == {1, 2} && LostNow(w) == {} && NoContest(w)
  {
    EmptyStarts();
    SoundIff(EMPTY_WORLD, NewPane(1, 2));
  }

  lemma FirstTick(w: World, tick: Step)
    requires Sound(w) && w.s == Sides({}, map[1 := 2], {}, {}, map[]) && w.used == {1, 2} && LostNow(w) == {} && NoContest(w)
    requires tick.Tick? && Legal(w, tick)
    ensures CanContest(Next(w, tick), 1, 3, 4)
  {
    SoundIff(w, tick);
    SoundTick(w, tick.at, tick.windowed, tick.picks);
    NoneHealed(w, tick.at, tick.windowed);
    hide Sound, Healed, NoContest, LostNow, DueNow, Legal, Sides.Merged, Basic, Mended, Sides.CanMerge, PendingAfter;
    FirstTaken(w.s, w.alive);
  }

  lemma NoneHealed(w: World, at: nat, windowed: bool)
    requires LostNow(w) == {}
    ensures Healed(w, at, windowed) == w.s
  {
    assert DueNow(w, at) == {};
    assert Healed(w, at, windowed).model == w.s.model && Healed(w, at, windowed).shadowed == w.s.shadowed;
  }

  lemma FirstTaken(r: Sides, alive: set<Uid>)
    requires r == Sides({}, map[1 := 2], {}, {}, map[])
    ensures 1 in r.Merged(alive).gui && 1 in r.Merged(alive).model && 1 in r.Merged(alive).ids
  {
    ThreeWay(r, r.Displaced(r.model.Keys));
    assert 1 in r.New() && 1 !in r.Displaced(r.model.Keys);
  }

  /** A pane made through the control side is on both sides, under its alias, after the first tick. */
  lemma AliasedReached() returns (w: World, es: seq<Step>)
    ensures Reaches(EMPTY_WORLD, es, w) && CanContest(w, 1, 3, 4)
  {
    FirstPane();
    var w0 := Next(EMPTY_WORLD, NewPane(1, 2));
    var tick := TickNow(w0);
    FirstTick(w0, tick);
    ReachesMore(EMPTY_WORLD, [], EMPTY_WORLD, NewPane(1, 2));
    hide *;
    ReachesMore(EMPTY_WORLD, [] + [NewPane(1, 2)], w0, tick);
    w, es := Next(w0, tick), [] + [NewPane(1, 2)] + [tick];
  }

  /** It can happen: a run from the first launch, without a fault, leads to a tick that drops a running
      session. */
  lemma FallReachable() returns (w: World, es: seq<Step>, last: Step, f: Uid)
    ensures Reaches(EMPTY_WORLD, es, w) && Legal(w, last) && last.Tick? && Falls(w, last, f)
  {
    hide *;
    var w1;
    w1, es := AliasedReached();
    var u, n, m := 1, 3, 4;
    var c1 := Next(w1, GuiRebind(u, n));
    var c2, c := Next(c1, RestartPane(u, m)), Contested(w1, u, n, m);
    ContestReached(w1, u, n, m);
    ContestLegal(w1, u, n, m);
    var t1 := TickNow(c);
    ContestTaken(c, n, m, t1);
    var w2 := Next(c, t1);
    ReopenLegal(w2, n);
    var w3 := Next(w2, GuiReopen(n));
    var t2 := TickNow(w3);
    w := Next(w3, t2);
    last := TickNow(w);
    TwoLegal(w3, t2, last);
    f := FallsUnasked(w1, u, n, m, t1, t2, last);
    ReachesMore(EMPTY_WORLD, es, w1, GuiRebind(u, n));
    ReachesMore(EMPTY_WORLD, es + [GuiRebind(u, n)], c1, RestartPane(u, m));
    es := es + [GuiRebind(u, n)] + [RestartPane(u, m)];
    ReachesMore(EMPTY_WORLD, es, c2, GuiClose(n));
    ReachesMore(EMPTY_WORLD, es + [GuiClose(n)], c, t1);
    es := es + [GuiClose(n)] + [t1];
    ReachesMore(EMPTY_WORLD, es, w2, GuiReopen(n));
    ReachesMore(EMPTY_WORLD, es + [GuiReopen(n)], w3, t2);
    es := es + [GuiReopen(n)] + [t2];
  }

  lemma ContestLegal(w: World, u: Uid, n: Uid, m: Uid)
    requires CanContest(w, u, n, m)
    ensures var w1 := Next(w, GuiRebind(u, n));
      var w2 := Next(w1, RestartPane(u, m));
      && Legal(w, GuiRebind(u, n)) && Legal(w1, RestartPane(u, m)) && Legal(w2, GuiClose(n))
      && Next(w2, GuiClose(n)) == Contested(w, u, n, m)
  {
    hide Sound;
  }

  lemma ReopenLegal(w: World, n: Uid)
    requires n in w.parked
    ensures Legal(w, GuiReopen(n))
  {
  }

  lemma TwoLegal(w: World, t1: Step, t2: Step)
    requires Legal(w, t1) && Legal(Next(w, t1), t2)
    ensures LegalRun(w, [t1, t2])
  {
    assert [t1, t2][1..] == [t2] && [t2][1..] == [];
    assert LegalRun(Next(w, t1), [t2]);
  }

  // ---- the host ----

  /** The host's tick is the run's: from any state that a run can be in it does what a legal tick does. */
  method TickHost(h: ControlHost, ghost w: World, active: map<nat, nat>, now: nat, windowed: bool, alive: set<Uid>)
    returns (ghost picks: Picks)
    requires h.Valid() && Basic(w) && now >= w.now
    requires w.s == h.Now() && w.parked == h.parked && w.pending == h.healPending && w.alive == alive
    modifies h
    ensures h.Valid() && Legal(w, Tick(now, windowed, picks))
    ensures var w' := Next(w, Tick(now, windowed, picks));
      h.Now() == w'.s && h.parked == w'.parked && h.healPending == w'.pending
  {
    BasicTidy(w);
    ghost var back, ousted, found;
    var changed;
    changed, back, ousted, found := h.Sync(alive, active, now, windowed);
    picks := Picks(back, ousted, found);
  }
}
