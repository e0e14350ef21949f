/** Self-heal: putting back a control-spawned session that is alive but that neither the model nor the
    GUI knows, once it has stayed so for the debounce. */
module Healing {
  import opened Wrappers
  import opened Merge

  const HEAL_DEBOUNCE: nat := 2000

  /** Alive, aliased to a control-minted id, and known to nobody: not the GUI, nor the sessions it
      keeps off the layout, nor the model, which holds neither the uid nor the id. */
  predicate IsLost(s: Sides, parked: set<Uid>, alive: set<Uid>, u: Uid) {
    && u in s.ids && s.ids[u] != u && u !in s.gui && u !in parked
    && u !in s.model && u !in s.shadowed && s.ids[u] !in s.model.Values && u in alive
  }

  function Lost(s: Sides, parked: set<Uid>, alive: set<Uid>): set<Uid> {
    set u | u in s.ids && IsLost(s, parked, alive, u)
  }

  /** The lost for as long as the debounce, going by when each was first seen lost. */
  function Due(lost: set<Uid>, pending: map<Uid, nat>, now: nat): set<Uid> {
    set u | u in lost && now - (if u in pending then pending[u] else now) >= HEAL_DEBOUNCE
  }

  function PendingAfter(lost: set<Uid>, pending: map<Uid, nat>, now: nat): map<Uid, nat> {
    map u | u in lost - Due(lost, pending, now) :: if u in pending then pending[u] else now
  }

  function Aliased(ids: map<Uid, Uid>, panes: set<Uid>): map<Uid, Uid> {
    map u | u in panes * ids.Keys :: ids[u]
  }

  /** The due are put in the model, where the first of those with one id is the one found by it. */
  function Reinserted(s: Sides, due: set<Uid>, back: set<Uid>): Sides
    requires due <= s.ids.Keys
  {
    s.(model := s.model + Aliased(s.ids, due * back), shadowed := s.shadowed + (due - back))
  }

  /** The sides once the due are put back, where the model has a window to put them in. */
  function HealedBy(s: Sides, parked: set<Uid>, alive: set<Uid>, pending: map<Uid, nat>, now: nat, windowed: bool, back: set<Uid>): Sides {
    if windowed then Reinserted(s, Due(Lost(s, parked, alive), pending, now), back) else s
  }

  /** Something is put back. */
  predicate Heals(s: Sides, parked: set<Uid>, alive: set<Uid>, pending: map<Uid, nat>, now: nat, windowed: bool) {
    windowed && Due(Lost(s, parked, alive), pending, now) != {}
  }

  /** A GUI pane of the model was published, as was whatever another shadows, and what is lost was not. */
  ghost predicate Kept(s: Sides, parked: set<Uid>, alive: set<Uid>) {
    s.model.Keys * s.gui <= s.prev && s.shadowed <= s.prev && Lost(s, parked, alive) !! s.prev
  }

  /** Healing keeps every pane id in the model to one pane that is found by it. */
  lemma HealTidy(s: Sides, parked: set<Uid>, alive: set<Uid>, due: set<Uid>, back: set<Uid>)
    requires s.Tidy() && due <= Lost(s, parked, alive) && OnePerId(s.ids, due, back)
    ensures Reinserted(s, due, back).Tidy() && (s.Agree() ==> Reinserted(s, due, back).Agree())
  {
    assert forall u :: u in s.model ==> s.model[u] in s.model.Values;
    assert forall u :: u in due ==> s.ids[u] !in s.model.Values;
  }

  /** What is put back is in the GUI the same tick, under its own pane id, where the last publish did
      not hold it. */
  lemma HealedIsAdopted(s: Sides, parked: set<Uid>, alive: set<Uid>, due: set<Uid>, back: set<Uid>, ousted: set<Uid>, u: Uid)
    requires s.Tidy() && due <= Lost(s, parked, alive) && OnePerId(s.ids, due, back) && u in back && u !in s.prev
    requires ousted <= Reinserted(s, due, back).Displaced(Reinserted(s, due, back).model.Keys)
    ensures var r := Reinserted(s, due, back);
      u in r.GuiBy(ousted) && Eff(r.IdsBy(alive, ousted), u) == s.ids[u]
  {
    HealTidy(s, parked, alive, due, back);
    var r := Reinserted(s, due, back);
    ThreeWay(r, ousted);
    IdsKept(r, alive, ousted, u);
  }

  /** What a tick puts in the model is a running session that was lost two seconds ago and still is: it
      has a control-minted id that nothing in the tree carries and is neither shown, put by nor itself in
      the tree. Where there is a window each such session is put back, or another of them under its id. */
  lemma PutBackIff(s: Sides, parked: set<Uid>, alive: set<Uid>, pending: map<Uid, nat>, now: nat, windowed: bool, back: set<Uid>, u: Uid)
    requires OnePerId(s.ids, Due(Lost(s, parked, alive), pending, now), back) && s.model.Keys !! s.shadowed
    ensures var h := HealedBy(s, parked, alive, pending, now, windowed, back);
      var forgotten := u in s.ids && s.ids[u] != u && u !in s.gui + parked + s.model.Keys + s.shadowed && s.ids[u] !in s.model.Values;
      && (u in h.model.Keys + h.shadowed && u !in s.model.Keys + s.shadowed
          <==> windowed && u in alive && forgotten && u in pending && now >= pending[u] + 2000)
      && (u in h.model && u !in s.model ==> h.model[u] == s.ids[u])
      && (u in h.shadowed && u !in s.shadowed ==> exists v :: v in h.model && v !in s.model && h.model[v] == s.ids[u])
  {
    var h := HealedBy(s, parked, alive, pending, now, windowed, back);
    if u in h.shadowed && u !in s.shadowed {
      assert Carries(s.ids, back, Eff(s.ids, u));
      var v :| v in back && Eff(s.ids, v) == Eff(s.ids, u);
      assert v in h.model && v !in s.model && h.model[v] == s.ids[u];
    }
  }

  /** Healing says so exactly when it changed something. */
  lemma HealsIff(s: Sides, parked: set<Uid>, alive: set<Uid>, pending: map<Uid, nat>, now: nat, windowed: bool, back: set<Uid>)
    requires OnePerId(s.ids, Due(Lost(s, parked, alive), pending, now), back)
    ensures Heals(s, parked, alive, pending, now, windowed) <==> HealedBy(s, parked, alive, pending, now, windowed, back) != s
  {
    var h, due := HealedBy(s, parked, alive, pending, now, windowed, back), Due(Lost(s, parked, alive), pending, now);
    if due != {} {
      var u :| u in due;
      assert windowed ==> u in h.model.Keys + h.shadowed;
    } else if windowed {
      assert h.model == s.model && h.shadowed == s.shadowed;
    }
  }

  /** The clock of a lost session runs from the first tick that found it so, until it is put back or
      found. */
  lemma ClockRuns(s: Sides, parked: set<Uid>, alive: set<Uid>, pending: map<Uid, nat>, now: nat, u: Uid)
    ensures var clocks := PendingAfter(Lost(s, parked, alive), pending, now);
      var forgotten := u in s.ids && s.ids[u] != u && u !in s.gui + parked + s.model.Keys + s.shadowed && s.ids[u] !in s.model.Values;
      && (u in clocks <==> u in alive && forgotten && (u in pending ==> now < pending[u] + 2000))
      && (u in clocks ==> clocks[u] == if u in pending then pending[u] else now)
  {
  }
}
