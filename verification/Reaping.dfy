/** Reaping the windows that asked to close: the app-owned tab moves to the first survivor, and every
    session the closing windows still hold is killed. */
module Reaping {
  import opened Wrappers
  import opened Workspace
  import opened Windows

  function Survivors(ws: seq<Win>): seq<Win> {
    if ws == [] then []
    else if ws[0].closing then Survivors(ws[1..])
    else [ws[0]] + Survivors(ws[1..])
  }

  function Closing(ws: seq<Win>): seq<Win> {
    if ws == [] then []
    else if ws[0].closing then [ws[0]] + Closing(ws[1..])
    else Closing(ws[1..])
  }

  /** The survivor's state once it has taken in the app-owned tab of each closing window in turn. */
  function Rehome(home: State, closing: seq<Win>): State
    requires home.tabs != []
    ensures Rehome(home, closing).tabs != []
    decreases |closing|
  {
    if closing == [] then home
    else Rehome(match TakeSystemTab(closing[0].state) case None => home case Some(x) => AdoptSystemTab(home, x.0), closing[1..])
  }

  /** What a closing window holds once its app-owned tab is lifted out. */
  function Remainder(s: State): State {
    match TakeSystemTab(s) case None => s case Some(x) => x.1
  }

  /** The closing windows with their app-owned tabs lifted out. */
  function Lifted(closing: seq<Win>): seq<Win> {
    if closing == [] then []
    else [closing[0].(state := Remainder(closing[0].state))] + Lifted(closing[1..])
  }

  function Panes(tabs: seq<Tab>): seq<Uid> {
    if tabs == [] then [] else tabs[0].panes + Panes(tabs[1..])
  }

  /** A window's sessions, in the order they are killed: laid out, then parked. */
  function SessionUids(s: State): seq<Uid> {
    Panes(s.tabs) + s.Parked()
  }

  /** The kills of a reap: all a closing window holds, less its app-owned tab where a survivor took it. */
  function Kills(closing: seq<Win>, lifted: bool): seq<Uid> {
    if closing == [] then []
    else SessionUids(if lifted then Remainder(closing[0].state) else closing[0].state) + Kills(closing[1..], lifted)
  }

  function Reaped(ws: seq<Win>): seq<Win>
    requires forall i :: 0 <= i < |ws| ==> ws[i].state.tabs != []
  {
    var survivors := Survivors(ws);
    SurvivorsFrom(ws);
    if survivors == [] then [] else Put(survivors, 0, Rehome(survivors[0].state, Closing(ws)))
  }

  function ReapKills(ws: seq<Win>): seq<Uid> {
    Kills(Closing(ws), Survivors(ws) != [])
  }

  lemma {:induction false} SurvivorsFrom(ws: seq<Win>)
    ensures forall w :: w in Survivors(ws) ==> w in ws && !w.closing
    ensures forall w :: w in Closing(ws) ==> w in ws && w.closing
  {
    if ws != [] {
      SurvivorsFrom(ws[1..]);
      assert forall w :: w in ws[1..] ==> w in ws;
    }
  }

  lemma {:induction false} ClosingHas(ws: seq<Win>, k: nat)
    requires k < |ws| && ws[k].closing
    ensures ws[k] in Closing(ws)
  {
    if k > 0 {
      ClosingHas(ws[1..], k - 1);
      assert ws[1..][k - 1] == ws[k];
    }
  }

  lemma {:induction false} PartitionTotal(ws: seq<Win>, u: Uid)
    ensures Total(Survivors(ws), u) + Total(Closing(ws), u) == Total(ws, u)
  {
    if ws != [] {
      PartitionTotal(ws[1..], u);
      assert ([ws[0]] + Closing(ws[1..]))[1..] == Closing(ws[1..]);
      assert ([ws[0]] + Survivors(ws[1..]))[1..] == Survivors(ws[1..]);
    }
  }

  lemma {:induction false} PanesTimes(tabs: seq<Tab>, u: Uid)
    ensures Times(Panes(tabs), u) == Hosts(tabs, u)
  {
    if tabs != [] {
      PanesTimes(tabs[1..], u);
      TimesAppend(tabs[0].panes, Panes(tabs[1..]), u);
    }
  }

  lemma SessionTimes(s: State, u: Uid)
    ensures Times(SessionUids(s), u) == s.Owns(u)
  {
    PanesTimes(s.tabs, u);
    TimesAppend(Panes(s.tabs), s.Parked(), u);
  }

  lemma RemainderOwns(s: State, u: Uid)
    ensures s.Owns(u) == Remainder(s).Owns(u) + match TakeSystemTab(s) case None => 0 case Some(x) => Times(x.0.panes, u)
  {
    if TakeSystemTab(s).Some? { DetachTabOwns(s, 0, u); }
  }

  /** What the closing windows held is either in the survivor or killed. */
  lemma {:induction false} RehomeOwns(home: State, closing: seq<Win>, u: Uid)
    requires home.Valid()
    ensures Rehome(home, closing).Valid()
    ensures Rehome(home, closing).tabs[Rehome(home, closing).active] == home.tabs[home.active]
    ensures Rehome(home, closing).Owns(u) + Times(Kills(closing, true), u) == home.Owns(u) + Total(closing, u)
    decreases |closing|
  {
    if closing != [] {
      var s := closing[0].state;
      var taken := TakeSystemTab(s);
      var next := match taken case None => home case Some(x) => AdoptSystemTab(home, x.0);
      RemainderOwns(s, u);
      SessionTimes(Remainder(s), u);
      if taken.Some? {
        AdoptSystemTabOwns(home, taken.value.0, u);
        AdoptSystemTabKeeps(home, taken.value.0);
      }
      RehomeOwns(next, closing[1..], u);
      TimesAppend(SessionUids(Remainder(s)), Kills(closing[1..], true), u);
    }
  }

  lemma {:induction false} KillsAll(closing: seq<Win>, u: Uid)
    ensures Times(Kills(closing, false), u) == Total(closing, u)
  {
    if closing != [] {
      KillsAll(closing[1..], u);
      SessionTimes(closing[0].state, u);
      TimesAppend(SessionUids(closing[0].state), Kills(closing[1..], false), u);
    }
  }

  /** With the app-owned tabs lifted out, killing all that is left is what a reap kills. */
  lemma {:induction false} KillsLeft(closing: seq<Win>)
    ensures Kills(Lifted(closing), false) == Kills(closing, true)
  {
    if closing != [] {
      KillsLeft(closing[1..]);
      assert Lifted(closing)[1..] == Lifted(closing[1..]);
    }
  }

  /** A reap neither loses nor duplicates: each session the windows held is still held as often, but
      for the ones killed. */
  lemma ReapConserves(ws: seq<Win>, next: nat, u: Uid)
    requires Wellformed(ws, next)
    ensures Wellformed(Reaped(ws), next)
    ensures Total(Reaped(ws), u) + Times(ReapKills(ws), u) == Total(ws, u)
  {
    PartitionTotal(ws, u);
    var survivors, closing := Survivors(ws), Closing(ws);
    SurvivorsFrom(ws);
    if survivors == [] {
      KillsAll(closing, u);
    } else {
      RehomeOwns(survivors[0].state, closing, u);
      TotalUpdate(survivors, 0, survivors[0].(state := Rehome(survivors[0].state, closing)), u);
      SurvivorsWellformed(ws, next);
    }
  }

  lemma {:induction false} SurvivorsWellformed(ws: seq<Win>, next: nat)
    requires Wellformed(ws, next)
    ensures Wellformed(Survivors(ws), next)
  {
    hide State.Valid;
    if ws != [] {
      var rest := Survivors(ws[1..]);
      assert forall i :: 0 <= i < |ws[1..]| ==> ws[1..][i] == ws[i + 1];
      SurvivorsWellformed(ws[1..], next);
      SurvivorsFrom(ws[1..]);
      if !ws[0].closing {
        forall k | 0 <= k < |rest| ensures rest[k].id != ws[0].id {
          var j :| 0 <= j < |ws[1..]| && ws[1..][j] == rest[k];
        }
        WellformedCons(ws[0], rest, next);
      }
    }
  }

  lemma WellformedCons(w: Win, rest: seq<Win>, next: nat)
    requires Wellformed(rest, next) && w.state.Valid() && w.id < next
    requires forall k :: 0 <= k < |rest| ==> rest[k].id != w.id
    ensures Wellformed([w] + rest, next)
  {
  }

  /** The session is killed: a closing window holds it, and not merely on an app-owned tab that a
      survivor takes in. */
  ghost predicate Doomed(closing: seq<Win>, lifted: bool, u: Uid) {
    exists k :: 0 <= k < |closing| && HoldsBeyond(closing[k].state, lifted, u)
  }

  ghost predicate HoldsBeyond(s: State, lifted: bool, u: Uid) {
    s.Owns(u) > if lifted && s.tabs != [] && s.tabs[0].system then Times(s.tabs[0].panes, u) else 0
  }

  lemma {:induction false} KillsExactly(closing: seq<Win>, lifted: bool, u: Uid)
    ensures u in Kills(closing, lifted) <==> Doomed(closing, lifted, u)
  {
    if closing != [] {
      var s, rest := closing[0].state, closing[1..];
      KillsExactly(rest, lifted, u);
      RemainderOwns(s, u);
      var held := SessionUids(if lifted then Remainder(s) else s);
      SessionTimes(if lifted then Remainder(s) else s, u);
      TimesPositive(held, u);
      assert u in held <==> HoldsBeyond(s, lifted, u);
      if Doomed(rest, lifted, u) {
        var k :| 0 <= k < |rest| && HoldsBeyond(rest[k].state, lifted, u);
        assert closing[k + 1] == rest[k];
      }
      if k :| 0 <= k < |closing| && HoldsBeyond(closing[k].state, lifted, u) {
        assert k > 0 ==> closing[k] == rest[k - 1];
      }
    }
  }

  /** The panes of every closing window's app-owned tab stay together on a tab of the survivor, and
      no tab the survivor had is disturbed. */
  lemma {:induction false} RehomeShows(home: State, closing: seq<Win>, panes: seq<Uid>)
    requires home.Valid()
    requires Shows(home.tabs, panes)
      || exists k :: 0 <= k < |closing| && closing[k].state.tabs != [] && closing[k].state.tabs[0].system && closing[k].state.tabs[0].panes == panes
    ensures Shows(Rehome(home, closing).tabs, panes)
    decreases |closing|
  {
    if closing != [] {
      var taken := TakeSystemTab(closing[0].state);
      var next := match taken case None => home case Some(x) => AdoptSystemTab(home, x.0);
      if taken.Some? {
        AdoptSystemTabKeeps(home, taken.value.0);
        if Shows(home.tabs, panes) || taken.value.0.panes == panes { AdoptSystemTabShows(home, taken.value.0, panes); }
      }
      if !Shows(next.tabs, panes) {
        var k :| 0 <= k < |closing| && closing[k].state.tabs != [] && closing[k].state.tabs[0].system && closing[k].state.tabs[0].panes == panes;
        assert k > 0 && closing[1..][k - 1] == closing[k];
      }
      RehomeShows(next, closing[1..], panes);
    }
  }

  lemma HomeValid(ws: seq<Win>, next: nat)
    requires Wellformed(ws, next)
    ensures Survivors(ws) != [] ==> Survivors(ws)[0].state.Valid()
    ensures forall i :: 0 <= i < |ws| ==> ws[i].state.tabs != []
  {
    SurvivorsFrom(ws);
  }

  /** With a survivor, an app-owned tab of a closing window lives on in it, whole; the survivor keeps
      the tab it was showing; every later survivor is untouched. */
  lemma ReapRehomes(ws: seq<Win>, next: nat, k: nat)
    requires Wellformed(ws, next) && Survivors(ws) != []
    requires k < |ws| && ws[k].closing && ws[k].state.tabs[0].system
    ensures |Reaped(ws)| == |Survivors(ws)| && Reaped(ws)[1..] == Survivors(ws)[1..]
    ensures var home, home' := Survivors(ws)[0].state, Reaped(ws)[0].state;
      && Reaped(ws)[0].id == Survivors(ws)[0].id
      && home'.active < |home'.tabs| && home.active < |home.tabs| && home'.tabs[home'.active] == home.tabs[home.active]
    ensures Shows(Reaped(ws)[0].state.tabs, ws[k].state.tabs[0].panes)
  {
    hide Wellformed;
    HomeValid(ws, next);
    var home, closing := Survivors(ws)[0].state, Closing(ws);
    RehomeOwns(home, closing, 0);
    ClosingHas(ws, k);
    var m :| 0 <= m < |closing| && closing[m] == ws[k];
    RehomeShows(home, closing, ws[k].state.tabs[0].panes);
  }

  /** A reap leaves exactly the windows that did not ask to close, in their order. */
  lemma {:induction false} ReapLeavesOpen(ws: seq<Win>)
    requires forall i :: 0 <= i < |ws| ==> ws[i].state.tabs != []
    ensures |Reaped(ws)| == |Survivors(ws)|
    ensures forall k :: 0 <= k < |Reaped(ws)| ==> !Reaped(ws)[k].closing && Reaped(ws)[k].id == Survivors(ws)[k].id
  {
    SurvivorsFrom(ws);
    assert forall k :: 0 <= k < |Survivors(ws)| ==> Survivors(ws)[k] in Survivors(ws);
  }
}
