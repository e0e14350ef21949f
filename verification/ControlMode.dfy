/** The control-mode transport: what each message from the session daemon or the client does to the
    published panes and to the client's stream, the snapshot differ, and the loop that parks what
    arrives while it waits for screen mirrors.

    A uid is named by its rank in the key order of the source's ordered maps. A line is kept as
    the event it announces, keyed by uid; the reply to a client command is part of the command. */
module ControlMode {
  import opened Wrappers

  datatype Grid = Grid(cols: Option<nat>, rows: Option<nat>) {
    predicate Known() {
      cols.Some? && rows.Some?
    }
  }

  datatype Meta = Meta(uid: Uid, grid: Grid)

  datatype Line =
    | Output(uid: Uid, data: string)
    | WindowAdd(uid: Uid)
    | LayoutChange(uid: Uid, cols: nat, rows: nat)
    | WindowClose(uid: Uid)
    | Reply(text: string)
    | Exit

  datatype Msg =
    | Replay(uid: Uid, data: string, cursor: nat)
    | Data(uid: Uid, data: string, cursor: nat)
    | Screen(uid: Uid, text: string)
    | Sessions(list: seq<Meta>)
    | Exited(uid: Uid)
    | OtherDaemon
    | Command(capture: bool, reply: seq<string>, detach: bool)
    | DaemonEof
    | StdinEof

  /** The published panes by grid, the last snapshot, and each seed's cursor. */
  datatype Server = Server(panes: map<Uid, Grid>, seen: map<Uid, Grid>, cursors: map<Uid, nat>)

  /** What handling a message leaves: the server, the lines written, the panes attached to. */
  datatype Reaction = Reaction(server: Server, lines: seq<Line>, attached: seq<Uid>)

  // ---- one message ----

  function AtLeastOne(n: nat): nat {
    if n == 0 then 1 else n
  }

  /** The size a client draws a grid at. */
  function Drawn(g: Grid): (nat, nat) {
    (AtLeastOne(g.cols.UnwrapOr(80)), AtLeastOne(g.rows.UnwrapOr(24)))
  }

  function Layout(uid: Uid, g: Grid): Line {
    LayoutChange(uid, Drawn(g).0, Drawn(g).1)
  }

  function OutputLines(s: Server, uid: Uid, data: string): seq<Line> {
    if data == "" || uid !in s.panes then [] else [Output(uid, data)]
  }

  /** One entry of a snapshot: a new pane is announced and attached, a known one resized when its
      grid is known and moved. */
  function Entered(panes: map<Uid, Grid>, seen: map<Uid, Grid>, m: Meta): (map<Uid, Grid>, seq<Line>, seq<Uid>) {
    if m.uid !in panes then (panes[m.uid := m.grid], [WindowAdd(m.uid), Layout(m.uid, m.grid)], [m.uid])
    else if m.grid.Known() && (m.uid !in seen || seen[m.uid] != m.grid) && panes[m.uid] != m.grid then
      (panes[m.uid := m.grid], [Layout(m.uid, m.grid)], [])
    else (panes, [], [])
  }

  function EnteredAll(panes: map<Uid, Grid>, seen: map<Uid, Grid>, list: seq<Meta>): (map<Uid, Grid>, seq<Line>, seq<Uid>) {
    if list == [] then (panes, [], [])
    else
      var before := EnteredAll(panes, seen, list[..|list| - 1]);
      var last := Entered(before.0, seen, list[|list| - 1]);
      (last.0, before.1 + last.1, before.2 + last.2)
  }

  function SeenIn(list: seq<Meta>): map<Uid, Grid> {
    if list == [] then map[] else SeenIn(list[..|list| - 1])[list[|list| - 1].uid := list[|list| - 1].grid]
  }

  function Closed(panes: map<Uid, Grid>, uid: Uid): (map<Uid, Grid>, seq<Line>) {
    if uid in panes then (panes - {uid}, [WindowClose(uid)]) else (panes, [])
  }

  ghost predicate IsLeast(u: Uid, s: set<Uid>) {
    u in s && forall v :: v in s ==> u <= v
  }

  lemma {:induction false} LeastExists(s: set<Uid>)
    requires s != {}
    ensures exists u :: IsLeast(u, s)
    decreases |s|
  {
    var u :| u in s;
    if s != {u} {
      var rest := s - {u};
      LeastExists(rest);
      var v :| IsLeast(v, rest);
      var least := if u < v then u else v;
      assert forall w :: w in s ==> w == u || w in rest;
      assert IsLeast(least, s);
    } else {
      assert IsLeast(u, s);
    }
  }

  ghost function LeastOf(s: set<Uid>): (u: Uid)
    requires s != {}
    ensures IsLeast(u, s)
  {
    LeastExists(s);
    var u :| IsLeast(u, s);
    u
  }

  /** Closing every pane of `gone`, in key order. */
  ghost function ClosedAll(panes: map<Uid, Grid>, gone: set<Uid>): (map<Uid, Grid>, seq<Line>)
    decreases |gone|
  {
    if gone == {} then (panes, [])
    else
      var u := LeastOf(gone);
      var first := Closed(panes, u);
      var rest := ClosedAll(first.0, gone - {u});
      (rest.0, first.1 + rest.1)
  }

  /** The whole differ: announce and resize what the snapshot lists, close what it no longer does. */
  ghost function Diffed(s: Server, list: seq<Meta>): Reaction {
    var entered := EnteredAll(s.panes, s.seen, list);
    var closed := ClosedAll(entered.0, s.seen.Keys - SeenIn(list).Keys);
    Reaction(s.(panes := closed.0, seen := SeenIn(list)), entered.1 + closed.1, entered.2)
  }

  function Seeded(s: Server, uid: Uid): nat {
    if uid in s.cursors then s.cursors[uid] else 0
  }

  function Max(a: nat, b: nat): nat {
    if a < b then b else a
  }

  ghost function Handled(s: Server, m: Msg): Reaction {
    match m
    case Replay(uid, data, cursor) =>
      Reaction(s.(cursors := s.cursors[uid := Max(Seeded(s, uid), cursor)]), OutputLines(s, uid, data), [])
    case Data(uid, data, cursor) =>
      Reaction(s, if cursor != 0 && cursor <= Seeded(s, uid) then [] else OutputLines(s, uid, data), [])
    case Sessions(list) => Diffed(s, list)
    case Exited(uid) => var closed := Closed(s.panes, uid); Reaction(s.(panes := closed.0), closed.1, [])
    case Command(_, reply, _) => Reaction(s, seq(|reply|, i requires 0 <= i < |reply| => Line.Reply(reply[i])), [])
    case _ => Reaction(s, [], [])
  }

  /** Everything written while handling `msgs` one after another, and the server it leaves. */
  ghost function HandledAll(s: Server, msgs: seq<Msg>): Reaction {
    if msgs == [] then Reaction(s, [], [])
    else
      var before := HandledAll(s, msgs[..|msgs| - 1]);
      var last := Handled(before.server, msgs[|msgs| - 1]);
      Reaction(last.server, before.lines + last.lines, before.attached + last.attached)
  }

  /** The message ends the loop. */
  predicate Ends(m: Msg) {
    m.DaemonEof? || m.StdinEof? || (m.Command? && m.detach)
  }

  // ---- what the client makes of the stream ----

  /** The windows a client shows after reading `lines`. */
  function Replayed(view: map<Uid, (nat, nat)>, lines: seq<Line>): map<Uid, (nat, nat)> {
    if lines == [] then view
    else
      var v := Replayed(view, lines[..|lines| - 1]);
      match lines[|lines| - 1]
      case WindowAdd(u) => v[u := (80, 24)]
      case LayoutChange(u, c, r) => if u in v then v[u := (c, r)] else v
      case WindowClose(u) => v - {u}
      case _ => v
  }

  function Windows(panes: map<Uid, Grid>): map<Uid, (nat, nat)> {
    map u | u in panes :: Drawn(panes[u])
  }

  lemma {:induction false} ReplayedAppend(view: map<Uid, (nat, nat)>, a: seq<Line>, b: seq<Line>)
    ensures Replayed(view, a + b) == Replayed(Replayed(view, a), b)
  {
    if b == [] {
      assert a + b == a;
    } else {
      var b' := b[..|b| - 1];
      assert (a + b)[..|a + b| - 1] == a + b';
      ReplayedAppend(view, a, b');
    }
  }

  /** What the differ relies on, and keeps: a published pane is in the last snapshot, with the grid
      that snapshot gave it when it gave one. */
  ghost predicate Consistent(s: Server) {
    forall u :: u in s.panes ==> u in s.seen && (s.seen[u].Known() ==> s.panes[u] == s.seen[u])
  }

  ghost predicate Distinct(list: seq<Meta>) {
    forall i, j :: 0 <= i < j < |list| ==> list[i].uid != list[j].uid
  }

  predicate Lists(list: seq<Meta>, i: int, u: Uid, g: Grid) {
    0 <= i < |list| && list[i] == Meta(u, g)
  }

  lemma {:induction false} SeenInHas(list: seq<Meta>)
    ensures forall i :: 0 <= i < |list| ==> list[i].uid in SeenIn(list)
    ensures forall u :: u in SeenIn(list) ==> exists i :: Lists(list, i, u, SeenIn(list)[u])
    ensures Distinct(list) ==> forall i :: 0 <= i < |list| ==> SeenIn(list)[list[i].uid] == list[i].grid
  {
    if list != [] {
      var init, last := list[..|list| - 1], list[|list| - 1];
      SeenInHas(init);
      forall u | u in SeenIn(list) ensures exists i :: Lists(list, i, u, SeenIn(list)[u]) {
        if u == last.uid {
          assert Lists(list, |list| - 1, u, SeenIn(list)[u]);
        } else {
          var i :| Lists(init, i, u, SeenIn(init)[u]);
          assert Lists(list, i, u, SeenIn(list)[u]);
        }
      }
      assert forall i :: 0 <= i < |init| ==> init[i] == list[i];
    }
  }

  lemma SeenInIsUids(list: seq<Meta>)
    ensures SeenIn(list).Keys == set m | m in list :: m.uid
  {
    SeenInHas(list);
    forall u | u in SeenIn(list).Keys ensures u in set m | m in list :: m.uid {
      var i :| Lists(list, i, u, SeenIn(list)[u]);
      assert list[i] in list;
    }
  }

  // ---- the differ ----

  lemma {:induction false} EnteringAll(panes: map<Uid, Grid>, seen: map<Uid, Grid>, list: seq<Meta>)
    requires Distinct(list)
    ensures var panes' := EnteredAll(panes, seen, list).0;
      && panes'.Keys == panes.Keys + SeenIn(list).Keys
      && (forall u :: u in panes && u !in SeenIn(list) ==> panes'[u] == panes[u])
      && (forall u :: u in SeenIn(list) ==> panes'[u] == EnteredGrid(panes, seen, u, SeenIn(list)[u]))
  {
    if list != [] {
      var init := list[..|list| - 1];
      EnteringAll(panes, seen, init);
      LastIsNew(list);
    }
  }

  lemma LastIsNew(list: seq<Meta>)
    requires Distinct(list) && list != []
    ensures Distinct(list[..|list| - 1]) && list[|list| - 1].uid !in SeenIn(list[..|list| - 1])
  {
    var init, m := list[..|list| - 1], list[|list| - 1];
    SeenInHas(init);
    assert forall i :: 0 <= i < |init| ==> init[i] == list[i] && init[i].uid != m.uid;
  }

  ghost predicate NoRepeats(s: seq<Uid>) {
    forall i, j :: 0 <= i < j < |s| ==> s[i] != s[j]
  }

  lemma OneMore(s: seq<Uid>, u: Uid)
    requires NoRepeats(s) && u !in s
    ensures NoRepeats(s + [u])
    ensures forall v :: v in s + [u] <==> v in s || v == u
  {
  }

  lemma {:induction false} EnteringAttaches(panes: map<Uid, Grid>, seen: map<Uid, Grid>, list: seq<Meta>)
    requires Distinct(list)
    ensures var attached := EnteredAll(panes, seen, list).2;
      NoRepeats(attached) && forall u :: u in attached <==> u in SeenIn(list) && u !in panes
  {
    if list != [] {
      var init, m := list[..|list| - 1], list[|list| - 1];
      EnteringAttaches(panes, seen, init);
      EnteringAll(panes, seen, init);
      LastIsNew(list);
      var before := EnteredAll(panes, seen, init).2;
      assert m.uid in EnteredAll(panes, seen, init).0 <==> m.uid in panes;
      if m.uid !in panes { OneMore(before, m.uid); } else { assert before + [] == before; }
    }
  }

  lemma {:induction false} EnteringReplays(panes: map<Uid, Grid>, seen: map<Uid, Grid>, list: seq<Meta>)
    ensures var r := EnteredAll(panes, seen, list); Replayed(Windows(panes), r.1) == Windows(r.0)
  {
    if list != [] {
      hide Replayed, Windows, Entered;
      var init, m := list[..|list| - 1], list[|list| - 1];
      EnteringReplays(panes, seen, init);
      var before := EnteredAll(panes, seen, init);
      ReplayedAppend(Windows(panes), before.1, Entered(before.0, seen, m).1);
      EnteredReplays(before.0, seen, m);
    } else {
      assert Replayed(Windows(panes), []) == Windows(panes);
    }
  }

  /** The grid a listed pane ends with. */
  function EnteredGrid(panes: map<Uid, Grid>, seen: map<Uid, Grid>, u: Uid, g: Grid): Grid {
    if u !in panes || (g.Known() && (u !in seen || seen[u] != g)) then g else panes[u]
  }

  lemma EnteredReplays(panes: map<Uid, Grid>, seen: map<Uid, Grid>, m: Meta)
    ensures Replayed(Windows(panes), Entered(panes, seen, m).1) == Windows(Entered(panes, seen, m).0)
  {
    var (panes', lines, _) := Entered(panes, seen, m);
    var view := Windows(panes);
    assert Windows(panes[m.uid := m.grid]) == view[m.uid := Drawn(m.grid)];
    if m.uid !in panes {
      assert lines == [WindowAdd(m.uid), Layout(m.uid, m.grid)];
      assert lines[..1] == [WindowAdd(m.uid)] && lines[..1][..0] == [];
      var shown: map<Uid, (nat, nat)> := view[m.uid := (80, 24)];
      assert Replayed(view, lines[..1]) == shown;
      assert Replayed(view, lines) == shown[m.uid := Drawn(m.grid)] == view[m.uid := Drawn(m.grid)];
    } else if lines != [] {
      assert lines == [Layout(m.uid, m.grid)] && lines[..0] == [];
      assert Replayed(view, lines) == view[m.uid := Drawn(m.grid)];
    }
  }

  lemma ClosedReplays(panes: map<Uid, Grid>, uid: Uid)
    ensures Replayed(Windows(panes), Closed(panes, uid).1) == Windows(Closed(panes, uid).0)
  {
    if uid in panes { assert [WindowClose(uid)][..0] == []; }
  }

  lemma {:induction false} ClosingAll(panes: map<Uid, Grid>, gone: set<Uid>)
    ensures ClosedAll(panes, gone).0 == panes - gone
    ensures panes.Keys !! gone ==> ClosedAll(panes, gone).1 == []
    ensures Replayed(Windows(panes), ClosedAll(panes, gone).1) == Windows(ClosedAll(panes, gone).0)
    decreases |gone|
  {
    if gone != {} {
      hide Replayed, Windows;
      var u := LeastOf(gone);
      var first := Closed(panes, u);
      ClosingAll(first.0, gone - {u});
      ClosedReplays(panes, u);
      ReplayedAppend(Windows(panes), first.1, ClosedAll(first.0, gone - {u}).1);
      assert first.0 - (gone - {u}) == panes - gone;
    } else {
      assert panes - gone == panes;
    }
  }

  /** A snapshot brings the published panes, and the record of it, to exactly what it lists; every
      pane that is new is attached once; and a client that reads the notifications shows exactly
      the published panes at their sizes. */
  lemma DiffFollowsSnapshot(s: Server, list: seq<Meta>)
    requires Consistent(s) && Distinct(list)
    ensures var r := Diffed(s, list);
      && r.server.panes.Keys == r.server.seen.Keys == (set m | m in list :: m.uid)
      && Consistent(r.server) && r.server.cursors == s.cursors
      && (forall m :: m in list && (m.grid.Known() || m.uid !in s.panes) ==> r.server.panes[m.uid] == m.grid)
      && (forall m :: m in list && !m.grid.Known() && m.uid in s.panes ==> r.server.panes[m.uid] == s.panes[m.uid])
      && NoRepeats(r.attached) && (forall u :: u in r.attached <==> u in r.server.panes && u !in s.panes)
      && Replayed(Windows(s.panes), r.lines) == Windows(r.server.panes)
  {
    hide Replayed, Windows, EnteredAll, ClosedAll;
    DiffSettles(s, list);
    DiffReplays(s, list);
    EnteringAttaches(s.panes, s.seen, list);
    SeenInIsUids(list);
    SeenInHas(list);
    forall m | m in list
      ensures var g := Diffed(s, list).server.panes[m.uid];
        g == if m.grid.Known() || m.uid !in s.panes then m.grid else s.panes[m.uid]
    {
      var i :| 0 <= i < |list| && list[i] == m;
      assert SeenIn(list)[list[i].uid] == list[i].grid;
    }
  }

  lemma DiffReplays(s: Server, list: seq<Meta>)
    ensures Replayed(Windows(s.panes), Diffed(s, list).lines) == Windows(Diffed(s, list).server.panes)
  {
    hide Replayed, Windows, EnteredAll, ClosedAll;
    var entered, gone := EnteredAll(s.panes, s.seen, list), s.seen.Keys - SeenIn(list).Keys;
    EnteringReplays(s.panes, s.seen, list);
    ClosingAll(entered.0, gone);
    ReplayedAppend(Windows(s.panes), entered.1, ClosedAll(entered.0, gone).1);
  }

  lemma DiffSettles(s: Server, list: seq<Meta>)
    requires Consistent(s) && Distinct(list)
    ensures var s' := Diffed(s, list).server;
      && s'.panes.Keys == s'.seen.Keys && s'.seen == SeenIn(list)
      && (forall u :: u in SeenIn(list) ==> s'.panes[u] == EnteredGrid(s.panes, s.seen, u, SeenIn(list)[u]))
      && Consistent(s')
  {
    hide Replayed, Windows, EnteredAll, ClosedAll;
    var entered, gone := EnteredAll(s.panes, s.seen, list), s.seen.Keys - SeenIn(list).Keys;
    EnteringAll(s.panes, s.seen, list);
    ClosingAll(entered.0, gone);
    assert (entered.0 - gone).Keys == SeenIn(list).Keys;
  }

  /** The view shows a pane at its columns by its rows, at 80 by 24 where the daemon has not said, and
      never at less than one. */
  ghost predicate ShownAt(view: map<Uid, (nat, nat)>, u: Uid, g: Grid) {
    && u in view
    && view[u].0 == (match g.cols case None => 80 case Some(c) => if c > 0 then c else 1)
    && view[u].1 == (match g.rows case None => 24 case Some(r) => if r > 0 then r else 1)
  }

  /** After any messages a client shows each published pane at its own size. */
  lemma SizesShown(s: Server, msgs: seq<Msg>, u: Uid)
    requires Consistent(s) && AllDistinct(msgs) && u in HandledAll(s, msgs).server.panes
    ensures var r := HandledAll(s, msgs);
      ShownAt(Replayed(Windows(s.panes), r.lines), u, r.server.panes[u])
  {
    ClientInStep(s, msgs);
  }

  /** A client that reads a snapshot's notifications shows a pane whose grid it gives at just that many
      columns by rows, and a new pane of unknown grid at 80 by 24. */
  lemma SnapshotSizes(s: Server, list: seq<Meta>, m: Meta)
    requires Consistent(s) && Distinct(list) && m in list
    ensures var view := Replayed(Windows(s.panes), Diffed(s, list).lines);
      && m.uid in view
      && (m.grid.Known() && m.grid.cols.value > 0 && m.grid.rows.value > 0 ==> view[m.uid] == (m.grid.cols.value, m.grid.rows.value))
      && (m.grid == Grid(None, None) && m.uid !in s.panes ==> view[m.uid] == (80, 24))
      && (m.grid.Known() || m.uid !in s.panes ==> ShownAt(view, m.uid, m.grid))
  {
    DiffFollowsSnapshot(s, list);
    hide Diffed, Replayed, NoRepeats, Consistent, Distinct;
  }

  /** A new pane is announced and its size said before anything else is said of it, columns first. */
  lemma NewPaneAnnounced(panes: map<Uid, Grid>, seen: map<Uid, Grid>, u: Uid, c: nat, r: nat)
    requires u !in panes && c > 0 && r > 0
    ensures Entered(panes, seen, Meta(u, Grid(Some(c), Some(r)))).1 == [WindowAdd(u), LayoutChange(u, c, r)]
    ensures Entered(panes, seen, Meta(u, Grid(None, None))).1 == [WindowAdd(u), LayoutChange(u, 80, 24)]
  {
  }

  /** The same snapshot again changes nothing and says nothing. */
  lemma DiffAgainIsSilent(s: Server, list: seq<Meta>)
    requires Consistent(s) && Distinct(list)
    ensures var s' := Diffed(s, list).server; Diffed(s', list) == Reaction(s', [], [])
  {
    DiffFollowsSnapshot(s, list);
    var s' := Diffed(s, list).server;
    SeenInHas(list);
    EnteredSilently(s'.panes, s'.seen, list);
    assert s'.seen == SeenIn(list);
    ClosingAll(s'.panes, {});
    assert s'.seen.Keys - SeenIn(list).Keys == {};
  }

  lemma {:induction false} EnteredSilently(panes: map<Uid, Grid>, seen: map<Uid, Grid>, list: seq<Meta>)
    requires forall i :: 0 <= i < |list| ==> list[i].uid in panes && list[i].uid in seen && seen[list[i].uid] == list[i].grid
    ensures EnteredAll(panes, seen, list) == (panes, [], [])
  {
    if list != [] {
      var init, m := list[..|list| - 1], list[|list| - 1];
      assert forall i :: 0 <= i < |init| ==> init[i] == list[i];
      EnteredSilently(panes, seen, init);
      assert Entered(panes, seen, m) == (panes, [], []);
      var nothing: (seq<Line>, seq<Uid>) := ([], []);
      assert nothing.0 + nothing.0 == [] && nothing.1 + nothing.1 == [];
    }
  }

  // ---- the client follows every run ----

  ghost predicate AllDistinct(msgs: seq<Msg>) {
    forall i :: 0 <= i < |msgs| && msgs[i].Sessions? ==> Distinct(msgs[i].list)
  }

  lemma HandledFollows(s: Server, m: Msg)
    requires Consistent(s) && (m.Sessions? ==> Distinct(m.list))
    ensures Consistent(Handled(s, m).server)
    ensures Replayed(Windows(s.panes), Handled(s, m).lines) == Windows(Handled(s, m).server.panes)
  {
    match m
    case Sessions(list) => DiffFollowsSnapshot(s, list);
    case Exited(uid) => ClosedReplays(s.panes, uid);
    case Command(_, reply, _) => QuietLines(Windows(s.panes), Handled(s, m).lines);
    case _ => QuietLines(Windows(s.panes), Handled(s, m).lines);
  }

  lemma {:induction false} QuietLines(view: map<Uid, (nat, nat)>, lines: seq<Line>)
    requires forall i :: 0 <= i < |lines| ==> lines[i].Output? || lines[i].Reply?
    ensures Replayed(view, lines) == view
  {
    if lines != [] { QuietLines(view, lines[..|lines| - 1]); }
  }

  /** After any messages at all, a client that has read the stream shows exactly the published
      panes at their sizes, and the published panes are among those of the last snapshot. */
  lemma {:induction false} ClientInStep(s: Server, msgs: seq<Msg>)
    requires Consistent(s) && AllDistinct(msgs)
    ensures Consistent(HandledAll(s, msgs).server)
    ensures Replayed(Windows(s.panes), HandledAll(s, msgs).lines) == Windows(HandledAll(s, msgs).server.panes)
  {
    if msgs != [] {
      hide Handled, Replayed, Windows, Consistent;
      var init := msgs[..|msgs| - 1];
      ClientInStep(s, init);
      var before := HandledAll(s, init);
      HandledFollows(before.server, msgs[|msgs| - 1]);
      ReplayedAppend(Windows(s.panes), before.lines, Handled(before.server, msgs[|msgs| - 1]).lines);
    } else {
      assert Replayed(Windows(s.panes), []) == Windows(s.panes);
    }
  }

  // ---- answers to client commands ----

  /** The replies in a stream, and those the commands among `msgs` are to be given. */
  function Replies(lines: seq<Line>): seq<string> {
    if lines == [] then []
    else
      var l := lines[|lines| - 1];
      Replies(lines[..|lines| - 1]) + if l.Reply? then [l.text] else []
  }

  function Answers(msgs: seq<Msg>): seq<string> {
    if msgs == [] then []
    else
      var m := msgs[|msgs| - 1];
      Answers(msgs[..|msgs| - 1]) + if m.Command? then m.reply else []
  }

  lemma {:induction false} RepliesAppend(a: seq<Line>, b: seq<Line>)
    ensures Replies(a + b) == Replies(a) + Replies(b)
  {
    if b == [] {
      assert a + b == a;
    } else {
      assert (a + b)[..|a + b| - 1] == a + b[..|b| - 1];
      RepliesAppend(a, b[..|b| - 1]);
    }
  }

  lemma {:induction false} OnlyReplies(lines: seq<Line>, texts: seq<string>)
    requires |lines| == |texts| && forall i :: 0 <= i < |lines| ==> lines[i] == Line.Reply(texts[i])
    ensures Replies(lines) == texts
  {
    if lines != [] {
      OnlyReplies(lines[..|lines| - 1], texts[..|texts| - 1]);
      assert texts == texts[..|texts| - 1] + [texts[|texts| - 1]];
    }
  }

  lemma {:induction false} NoReplies(lines: seq<Line>)
    requires forall i :: 0 <= i < |lines| ==> !lines[i].Reply?
    ensures Replies(lines) == []
  {
    if lines != [] { NoReplies(lines[..|lines| - 1]); }
  }

  lemma OneAnswered(s: Server, m: Msg)
    ensures Replies(Handled(s, m).lines) == if m.Command? then m.reply else []
    ensures m.Command? ==> Handled(s, m).server == s && Handled(s, m).attached == []
  {
    if m.Command? {
      OnlyReplies(Handled(s, m).lines, m.reply);
    } else {
      if m.Sessions? {
        var entered := EnteredAll(s.panes, s.seen, m.list);
        EnteredSaysNoOutput(s.panes, s.seen, m.list);
        ClosedSaysNoOutput(entered.0, s.seen.Keys - SeenIn(m.list).Keys);
      }
      NoReplies(Handled(s, m).lines);
    }
  }

  /** Every command is answered, in order and in full, and nothing else is. */
  lemma {:induction false} CommandsAnswered(s: Server, msgs: seq<Msg>)
    ensures Replies(HandledAll(s, msgs).lines) == Answers(msgs)
  {
    if msgs != [] {
      var init, m := msgs[..|msgs| - 1], msgs[|msgs| - 1];
      CommandsAnswered(s, init);
      hide Handled;
      var before := HandledAll(s, init);
      RepliesAppend(before.lines, Handled(before.server, m).lines);
      OneAnswered(before.server, m);
    }
  }

  // ---- exactly-once output ----

  /** A pane's output as the daemon keeps it: chunks, none empty, counted from `base`. A daemon that
      predates cursors reports zero for every one of them. */
  datatype Log = Log(uid: Uid, base: nat, chunks: seq<string>, counted: bool) {
    ghost predicate Valid() {
      forall i :: 0 <= i < |chunks| ==> chunks[i] != ""
    }

    /** The count after the first `i` chunks. */
    function Count(i: nat): nat
      requires i <= |chunks|
    {
      if i == 0 then base else Count(i - 1) + |chunks[i - 1]|
    }

    function Cursor(i: nat): nat
      requires i <= |chunks|
    {
      if counted then Count(i) else 0
    }

    /** Chunks `from..to` as they are sent live. */
    function Live(from: nat, to: nat): seq<Msg>
      requires from <= to <= |chunks|
    {
      if from == to then [] else Live(from, to - 1) + [Data(uid, chunks[to - 1], Cursor(to))]
    }

    /** A seed taken after `at` chunks. */
    function Seed(text: string, at: nat): Msg
      requires at <= |chunks|
    {
      Replay(uid, text, Cursor(at))
    }

    /** Where live output is first let through, once seeded after `at` chunks. */
    function Opens(at: nat, from: nat): nat {
      if counted then Max(at, from) else from
    }

    lemma {:induction false} CountGrows(i: nat, j: nat)
      requires Valid() && i < j <= |chunks|
      ensures Count(i) < Count(j)
    {
      if i < j - 1 { CountGrows(i, j - 1); }
    }
  }

  predicate Concerns(m: Msg, uid: Uid) {
    (m.Replay? || m.Data?) && m.uid == uid
  }

  /** The seeds and live chunks of one pane among all that arrives. */
  function Wire(msgs: seq<Msg>, uid: Uid): seq<Msg> {
    if msgs == [] then []
    else Wire(msgs[..|msgs| - 1], uid) + if Concerns(msgs[|msgs| - 1], uid) then [msgs[|msgs| - 1]] else []
  }

  /** The output written for one pane. */
  function Written(lines: seq<Line>, uid: Uid): seq<string> {
    if lines == [] then []
    else
      var l := lines[|lines| - 1];
      Written(lines[..|lines| - 1], uid) + if l.Output? && l.uid == uid then [l.data] else []
  }

  lemma {:induction false} WrittenAppend(a: seq<Line>, b: seq<Line>, uid: Uid)
    ensures Written(a + b, uid) == Written(a, uid) + Written(b, uid)
  {
    if b == [] {
      assert a + b == a;
    } else {
      assert (a + b)[..|a + b| - 1] == a + b[..|b| - 1];
      WrittenAppend(a, b[..|b| - 1], uid);
    }
  }

  lemma {:induction false} NothingWritten(lines: seq<Line>, uid: Uid)
    requires forall i :: 0 <= i < |lines| ==> !(lines[i].Output? && lines[i].uid == uid)
    ensures Written(lines, uid) == []
  {
    if lines != [] { NothingWritten(lines[..|lines| - 1], uid); }
  }

  /** Whether one message leaves a pane published. */
  predicate ShownAfter(before: bool, m: Msg, uid: Uid) {
    match m
    case Sessions(list) => exists i :: 0 <= i < |list| && list[i].uid == uid
    case Exited(u) => u != uid && before
    case _ => before
  }

  /** Whether a pane is published once `msgs` are handled, going by whether it was before. */
  predicate Shown(before: bool, msgs: seq<Msg>, uid: Uid) {
    if msgs == [] then before else ShownAfter(Shown(before, msgs[..|msgs| - 1], uid), msgs[|msgs| - 1], uid)
  }

  /** Every seed and chunk of the pane arrives while it is published. */
  predicate AllShown(before: bool, msgs: seq<Msg>, uid: Uid) {
    msgs == [] || (
      var init := msgs[..|msgs| - 1];
      AllShown(before, init, uid) && (Concerns(msgs[|msgs| - 1], uid) ==> Shown(before, init, uid)))
  }

  ghost predicate Heard(s: Server, msgs: seq<Msg>, uid: Uid) {
    Consistent(s) && AllDistinct(msgs) && AllShown(uid in s.panes, msgs, uid)
  }

  lemma {:induction false} EnteredSaysNoOutput(panes: map<Uid, Grid>, seen: map<Uid, Grid>, list: seq<Meta>)
    ensures forall i :: 0 <= i < |EnteredAll(panes, seen, list).1| ==>
      !EnteredAll(panes, seen, list).1[i].Output? && !EnteredAll(panes, seen, list).1[i].Reply?
  {
    if list != [] { EnteredSaysNoOutput(panes, seen, list[..|list| - 1]); }
  }

  lemma {:induction false} ClosedSaysNoOutput(panes: map<Uid, Grid>, gone: set<Uid>)
    ensures forall i :: 0 <= i < |ClosedAll(panes, gone).1| ==>
      !ClosedAll(panes, gone).1[i].Output? && !ClosedAll(panes, gone).1[i].Reply?
    decreases |gone|
  {
    if gone != {} {
      var u := LeastOf(gone);
      ClosedSaysNoOutput(Closed(panes, u).0, gone - {u});
    }
  }

  /** Messages about anything else write nothing for the pane and leave its splice point alone. */
  lemma OthersStayOut(s: Server, m: Msg, uid: Uid)
    requires !Concerns(m, uid)
    ensures Seeded(Handled(s, m).server, uid) == Seeded(s, uid) && Written(Handled(s, m).lines, uid) == []
  {
    if m.Sessions? {
      var entered, gone := EnteredAll(s.panes, s.seen, m.list), s.seen.Keys - SeenIn(m.list).Keys;
      EnteredSaysNoOutput(s.panes, s.seen, m.list);
      ClosedSaysNoOutput(entered.0, gone);
    }
    NothingWritten(Handled(s, m).lines, uid);
  }

  /** Nor does anything about a pane that is not published. */
  lemma UnshownStaysOut(s: Server, m: Msg, uid: Uid)
    requires Concerns(m, uid) && uid !in s.panes
    ensures Written(Handled(s, m).lines, uid) == []
  {
  }

  lemma ShownOne(s: Server, m: Msg, uid: Uid)
    requires Consistent(s) && (m.Sessions? ==> Distinct(m.list))
    ensures uid in Handled(s, m).server.panes <==> ShownAfter(uid in s.panes, m, uid)
  {
    if m.Sessions? {
      DiffFollowsSnapshot(s, m.list);
      hide Diffed, Replayed, Windows, NoRepeats, Consistent, Distinct;
    }
  }

  /** What is published follows the snapshots and the exits. */
  lemma {:induction false} ShownIs(s: Server, msgs: seq<Msg>, uid: Uid)
    requires Consistent(s) && AllDistinct(msgs)
    ensures var s' := HandledAll(s, msgs).server;
      Consistent(s') && (uid in s'.panes <==> Shown(uid in s.panes, msgs, uid))
  {
    if msgs != [] {
      var init, m := msgs[..|msgs| - 1], msgs[|msgs| - 1];
      ShownIs(s, init, uid);
      hide Handled, Consistent, Distinct, ShownAfter, Replayed, Windows;
      HandledFollows(HandledAll(s, init).server, m);
      ShownOne(HandledAll(s, init).server, m, uid);
    }
  }

  function SeedText(text: string): seq<string> {
    if text == "" then [] else [text]
  }

  lemma OneOutput(s: Server, uid: Uid, data: string)
    requires uid in s.panes
    ensures Written(OutputLines(s, uid, data), uid) == SeedText(data)
  {
    if data != "" { assert [Output(uid, data)][..0] == []; }
  }

  /** The last message's share of what the others leave. */
  lemma LastMessage(s: Server, msgs: seq<Msg>, uid: Uid)
    requires msgs != [] && Consistent(s) && AllDistinct(msgs)
    ensures var init, m := msgs[..|msgs| - 1], msgs[|msgs| - 1];
      var before := HandledAll(s, init).server;
      && AllDistinct(init) && (uid in before.panes <==> Shown(uid in s.panes, init, uid))
      && HandledAll(s, msgs).server == Handled(before, m).server
      && Written(HandledAll(s, msgs).lines, uid) == Written(HandledAll(s, init).lines, uid) + Written(Handled(before, m).lines, uid)
      && Wire(msgs, uid) == Wire(init, uid) + if Concerns(m, uid) then [m] else []
  {
    hide Handled, Shown, Written;
    var init, m := msgs[..|msgs| - 1], msgs[|msgs| - 1];
    ShownIs(s, init, uid);
    WrittenAppend(HandledAll(s, init).lines, Handled(HandledAll(s, init).server, m).lines, uid);
  }

  lemma LastHeard(s: Server, msgs: seq<Msg>, uid: Uid)
    requires msgs != [] && Heard(s, msgs, uid)
    ensures Consistent(s) && AllDistinct(msgs) && Heard(s, msgs[..|msgs| - 1], uid)
    ensures Concerns(msgs[|msgs| - 1], uid) ==> Shown(uid in s.panes, msgs[..|msgs| - 1], uid)
  {
  }

  lemma SplitLast(a: seq<Msg>, m: Msg, b: seq<Msg>, n: Msg)
    requires a + [m] == b + [n]
    ensures a == b && m == n
  {
    assert (a + [m])[..|a + [m]| - 1] == a && (b + [n])[..|b + [n]| - 1] == b;
    assert (a + [m])[|a|] == m && (b + [n])[|b|] == n;
  }

  lemma OneMoreChunk(chunks: seq<string>, from: nat, to: nat)
    requires from < to <= |chunks|
    ensures chunks[from..to] == chunks[from..to - 1] + [chunks[to - 1]]
  {
  }

  lemma LiveEnds(log: Log, from: nat, to: nat, before: seq<Msg>, m: Msg)
    requires from <= to <= |log.chunks| && log.Live(from, to) == before + [m]
    ensures from < to && before == log.Live(from, to - 1) && m == Data(log.uid, log.chunks[to - 1], log.Cursor(to))
  {
    if from < to { SplitLast(before, m, log.Live(from, to - 1), Data(log.uid, log.chunks[to - 1], log.Cursor(to))); }
  }

  /** Before any seed, live chunks go straight through. */
  lemma {:induction false} LiveBeforeSeed(s: Server, msgs: seq<Msg>, log: Log, from: nat, to: nat)
    requires log.Valid() && from <= to <= |log.chunks| && Heard(s, msgs, log.uid)
    requires Seeded(s, log.uid) == 0 && Wire(msgs, log.uid) == log.Live(from, to)
    ensures var r := HandledAll(s, msgs);
      && Seeded(r.server, log.uid) == 0
      && Written(r.lines, log.uid) == log.chunks[from..to]
    decreases |msgs|
  {
    var uid := log.uid;
    if msgs == [] {
      assert log.chunks[from..to] == [];
    } else {
      LastHeard(s, msgs, uid);
      LastMessage(s, msgs, uid);
      hide Handled, Shown, AllShown, Written, HandledAll, Wire, Seeded, Heard, Consistent, AllDistinct, Log.Valid, Log.Live, Concerns,
        Log.Count, Log.Cursor;
      var init, m := msgs[..|msgs| - 1], msgs[|msgs| - 1];
      if Concerns(m, uid) {
        LiveEnds(log, from, to, Wire(init, uid), m);
        LiveBeforeSeed(s, init, log, from, to - 1);
        LiveHandled(HandledAll(s, init).server, log, to, 0);
        log.CountGrows(to - 1, to);
        OneMoreChunk(log.chunks, from, to);
      } else {
        assert Wire(init, uid) == Wire(msgs, uid);
        LiveBeforeSeed(s, init, log, from, to);
        OthersStayOut(HandledAll(s, init).server, m, uid);
      }
    }
  }

  /** One live chunk: held back exactly when its cursor is reported and not past the splice. */
  lemma LiveHandled(s: Server, log: Log, to: nat, splice: nat)
    requires log.Valid() && 0 < to <= |log.chunks| && log.uid in s.panes && Seeded(s, log.uid) == splice
    ensures var m, uid := Data(log.uid, log.chunks[to - 1], log.Cursor(to)), log.uid;
      && Handled(s, m).server == s
      && Written(Handled(s, m).lines, uid) == if log.counted && log.Count(to) <= splice then [] else [log.chunks[to - 1]]
  {
    OneOutput(s, log.uid, log.chunks[to - 1]);
    log.CountGrows(to - 1, to);
  }

  /** What is written for a pane whose one seed, taken after `at` chunks, arrives between live chunks
      `from..mid` and `mid..to`: the early chunks, the seed, and the later chunks past the splice. */
  lemma {:induction false} Spliced(s: Server, msgs: seq<Msg>, log: Log, text: string, at: nat, from: nat, mid: nat, to: nat)
    requires log.Valid() && from <= mid <= to <= |log.chunks| && at <= |log.chunks|
    requires Heard(s, msgs, log.uid) && Seeded(s, log.uid) == 0
    requires Wire(msgs, log.uid) == log.Live(from, mid) + [log.Seed(text, at)] + log.Live(mid, to)
    ensures var r, open := HandledAll(s, msgs), log.Opens(at, mid);
      && Seeded(r.server, log.uid) == log.Cursor(at)
      && Written(r.lines, log.uid) == log.chunks[from..mid] + SeedText(text) + log.chunks[open..Max(open, to)]
    decreases |msgs|
  {
    hide Handled, Shown, Written, HandledAll, Wire, Seeded, Heard, Consistent;
    var uid := log.uid;
    if msgs == [] {
      WireNonEmpty(msgs, uid);
    }
    var init, m := msgs[..|msgs| - 1], msgs[|msgs| - 1];
    LastHeard(s, msgs, uid);
    LastMessage(s, msgs, uid);
    if !Concerns(m, uid) {
      assert Wire(init, uid) == Wire(msgs, uid);
      Spliced(s, init, log, text, at, from, mid, to);
      OthersStayOut(HandledAll(s, init).server, m, uid);
    } else if mid == to {
      assert log.Live(from, mid) + [log.Seed(text, at)] + log.Live(mid, to) == log.Live(from, mid) + [log.Seed(text, at)];
      SplitLast(Wire(init, uid), m, log.Live(from, mid), log.Seed(text, at));
      LiveBeforeSeed(s, init, log, from, mid);
      SeedHandled(HandledAll(s, init).server, log, text, at);
      SeedOpens(log, text, at, from, mid);
    } else {
      var last := Data(uid, log.chunks[to - 1], log.Cursor(to));
      assert log.Live(from, mid) + [log.Seed(text, at)] + log.Live(mid, to)
          == (log.Live(from, mid) + [log.Seed(text, at)] + log.Live(mid, to - 1)) + [last];
      SplitLast(Wire(init, uid), m, log.Live(from, mid) + [log.Seed(text, at)] + log.Live(mid, to - 1), last);
      Spliced(s, init, log, text, at, from, mid, to - 1);
      LiveHandled(HandledAll(s, init).server, log, to, log.Cursor(at));
      LaterChunks(log, at, mid, to);
    }
  }

  lemma WireNonEmpty(msgs: seq<Msg>, uid: Uid)
    ensures msgs == [] ==> Wire(msgs, uid) == []
  {
  }

  lemma SeedOpens(log: Log, text: string, at: nat, from: nat, mid: nat)
    requires at <= |log.chunks| && from <= mid <= |log.chunks|
    ensures var open := log.Opens(at, mid);
      log.chunks[from..mid] + SeedText(text) + log.chunks[open..Max(open, mid)] == log.chunks[from..mid] + SeedText(text)
  {
    assert log.chunks[log.Opens(at, mid)..log.Opens(at, mid)] == [];
  }

  lemma SeedHandled(s: Server, log: Log, text: string, at: nat)
    requires at <= |log.chunks| && log.uid in s.panes && Seeded(s, log.uid) == 0
    ensures var r := Handled(s, log.Seed(text, at));
      && r.server.panes == s.panes && Seeded(r.server, log.uid) == log.Cursor(at)
      && Written(r.lines, log.uid) == SeedText(text)
  {
    OneOutput(s, log.uid, text);
  }

  lemma LaterChunks(log: Log, at: nat, mid: nat, to: nat)
    requires log.Valid() && mid < to <= |log.chunks| && at <= |log.chunks|
    ensures var open := log.Opens(at, mid);
      log.chunks[open..Max(open, to)] == log.chunks[open..Max(open, to - 1)]
        + if log.counted && log.Count(to) <= log.Cursor(at) then [] else [log.chunks[to - 1]]
  {
    var open := log.Opens(at, mid);
    if to < at { log.CountGrows(to, at); }
    if at < to { log.CountGrows(at, to); }
    if open < to { OneMoreChunk(log.chunks, open, to); }
  }

  /** The bytes a pane's client should see: the seed, then the log from where the seed was taken. */
  function Owed(log: Log, text: string, at: nat, to: nat): seq<string>
    requires at <= |log.chunks| && to <= |log.chunks|
  {
    SeedText(text) + log.chunks[at..Max(at, to)]
  }

  /** Exactly once: whatever else arrives in between, a pane seeded once before its live chunks,
      some of which the seed already holds, is written its seed and then precisely the log after
      the seed, in order. */
  lemma ExactlyOnce(s: Server, msgs: seq<Msg>, log: Log, text: string, at: nat, from: nat, to: nat)
    requires log.Valid() && log.counted && from <= at <= |log.chunks| && from <= to <= |log.chunks|
    requires Heard(s, msgs, log.uid) && Seeded(s, log.uid) == 0
    requires Wire(msgs, log.uid) == [log.Seed(text, at)] + log.Live(from, to)
    ensures Written(HandledAll(s, msgs).lines, log.uid) == Owed(log, text, at, to)
  {
    hide HandledAll, Wire, Written, Heard, Seeded;
    assert log.Live(from, from) == [];
    assert [] + [log.Seed(text, at)] == [log.Seed(text, at)];
    Spliced(s, msgs, log, text, at, from, from, to);
    assert log.chunks[from..from] == [];
  }

  // ---- part of a stream ----

  /** The seeds and chunks of the pane that arrive while it is published. */
  function ShownWire(before: bool, msgs: seq<Msg>, uid: Uid): seq<Msg> {
    if msgs == [] then []
    else
      var init, m := msgs[..|msgs| - 1], msgs[|msgs| - 1];
      ShownWire(before, init, uid) + if Concerns(m, uid) && Shown(before, init, uid) then [m] else []
  }

  /** The pane's seeds and chunks arrive while it is published, until it is so no more. */
  predicate ShownFirst(before: bool, msgs: seq<Msg>, uid: Uid) {
    msgs == [] || (
      var init := msgs[..|msgs| - 1];
      && ShownFirst(before, init, uid)
      && (Concerns(msgs[|msgs| - 1], uid) && Shown(before, init, uid) ==> AllShown(before, init, uid)))
  }

  lemma {:induction false} AllShownWire(before: bool, msgs: seq<Msg>, uid: Uid)
    requires AllShown(before, msgs, uid)
    ensures ShownWire(before, msgs, uid) == Wire(msgs, uid) && ShownFirst(before, msgs, uid)
  {
    if msgs != [] { AllShownWire(before, msgs[..|msgs| - 1], uid); }
  }

  /** The first `n` messages of a seed and the chunks after it. */
  lemma StreamPart(log: Log, text: string, at: nat, from: nat, to: nat, n: nat)
    requires at <= |log.chunks| && from <= to <= |log.chunks| && n <= to - from
    ensures |log.Live(from, to)| == to - from
    ensures ([log.Seed(text, at)] + log.Live(from, to))[..n + 1] == [log.Seed(text, at)] + log.Live(from, from + n)
  {
    if from < to {
      StreamPart(log, text, at, from, to - 1, if n == to - from then n - 1 else n);
      var last := Data(log.uid, log.chunks[to - 1], log.Cursor(to));
      assert [log.Seed(text, at)] + log.Live(from, to) == ([log.Seed(text, at)] + log.Live(from, to - 1)) + [last];
    }
  }

  /** A beginning of the stream is the seed and the chunks up to one of them. */
  lemma StreamTaken(log: Log, text: string, at: nat, from: nat, to: nat, wire: seq<Msg>)
    requires at <= |log.chunks| && from <= to <= |log.chunks| && wire != [] && wire <= [log.Seed(text, at)] + log.Live(from, to)
    ensures var k := from + |wire| - 1; k <= to && wire == [log.Seed(text, at)] + log.Live(from, k)
  {
    StreamPart(log, text, at, from, to, 0);
    StreamPart(log, text, at, from, to, |wire| - 1);
  }

  /** What came of the stream: nothing, or the seed and the chunks up to `end`. */
  ghost predicate Reached(log: Log, text: string, at: nat, from: nat, to: nat, end: Option<nat>, wire: seq<Msg>)
    requires at <= |log.chunks| && from <= to <= |log.chunks|
  {
    match end
    case None => wire == []
    case Some(k) => from <= k <= to && wire == [log.Seed(text, at)] + log.Live(from, k)
  }

  function OwedUpTo(log: Log, text: string, at: nat, end: Option<nat>): seq<string>
    requires at <= |log.chunks|
  {
    match end
    case None => []
    case Some(k) => if k <= |log.chunks| then Owed(log, text, at, k) else []
  }

  /** However much of the stream has come, and whenever the pane was first published or closed: what was
      written for it is its seed and precisely the log after the seed, as far as that came while it was
      published. */
  lemma {:induction false} ExactlyOnceSoFar(s: Server, msgs: seq<Msg>, log: Log, text: string, at: nat, from: nat, to: nat)
    returns (end: Option<nat>)
    requires log.Valid() && log.counted && from <= at <= |log.chunks| && from <= to <= |log.chunks|
    requires Consistent(s) && AllDistinct(msgs) && ShownFirst(log.uid in s.panes, msgs, log.uid) && Seeded(s, log.uid) == 0
    requires Wire(msgs, log.uid) <= [log.Seed(text, at)] + log.Live(from, to)
    ensures Reached(log, text, at, from, to, end, ShownWire(log.uid in s.panes, msgs, log.uid))
    ensures Written(HandledAll(s, msgs).lines, log.uid) == OwedUpTo(log, text, at, end)
    decreases |msgs|
  {
    var uid := log.uid;
    end := None;
    if msgs != [] {
      LastMessage(s, msgs, uid);
      LastShown(uid in s.panes, msgs, uid);
      hide Handled, Shown, Written, HandledAll, Wire, ShownWire, ShownFirst, Seeded, Consistent, AllShown, AllDistinct, Reached;
      var init, m := msgs[..|msgs| - 1], msgs[|msgs| - 1];
      if Concerns(m, uid) && Shown(uid in s.panes, init, uid) {
        end := HeardSoFar(s, msgs, log, text, at, from, to);
      } else {
        end := ExactlyOnceSoFar(s, init, log, text, at, from, to);
        var before := HandledAll(s, init).server;
        if Concerns(m, uid) { UnshownStaysOut(before, m, uid); } else { OthersStayOut(before, m, uid); }
      }
    }
  }

  lemma LastShown(before: bool, msgs: seq<Msg>, uid: Uid)
    requires msgs != [] && ShownFirst(before, msgs, uid)
    ensures var init, m := msgs[..|msgs| - 1], msgs[|msgs| - 1];
      && ShownFirst(before, init, uid)
      && if Concerns(m, uid) && Shown(before, init, uid) then AllShown(before, msgs, uid)
         else ShownWire(before, msgs, uid) == ShownWire(before, init, uid)
  {
  }

  /** A stream heard throughout, as far as it has come. */
  lemma HeardSoFar(s: Server, msgs: seq<Msg>, log: Log, text: string, at: nat, from: nat, to: nat) returns (end: Option<nat>)
    requires log.Valid() && log.counted && from <= at <= |log.chunks| && from <= to <= |log.chunks|
    requires Consistent(s) && AllDistinct(msgs) && AllShown(log.uid in s.panes, msgs, log.uid) && Seeded(s, log.uid) == 0
    requires Wire(msgs, log.uid) != [] && Wire(msgs, log.uid) <= [log.Seed(text, at)] + log.Live(from, to)
    ensures Reached(log, text, at, from, to, end, ShownWire(log.uid in s.panes, msgs, log.uid))
    ensures Written(HandledAll(s, msgs).lines, log.uid) == OwedUpTo(log, text, at, end)
  {
    AllShownWire(log.uid in s.panes, msgs, log.uid);
    assert Heard(s, msgs, log.uid);
    hide Written, HandledAll, Wire, ShownWire, Seeded, Consistent, AllShown, Heard, Owed, Log.Valid, Log.Live, Log.Cursor, Log.Seed;
    var n := |Wire(msgs, log.uid)| - 1;
    StreamTaken(log, text, at, from, to, Wire(msgs, log.uid));
    ExactlyOnce(s, msgs, log, text, at, from, from + n);
    end := Some(from + n);
  }

  /** A daemon that starts the stream inside the seed writes some chunk twice exactly when a live
      chunk overtakes the seed. */
  lemma OnceIffSeedFirst(s: Server, msgs: seq<Msg>, log: Log, text: string, at: nat, from: nat, mid: nat, to: nat)
    requires log.Valid() && log.counted && from < at <= |log.chunks| && from <= mid <= to <= |log.chunks|
    requires Heard(s, msgs, log.uid) && Seeded(s, log.uid) == 0
    requires Wire(msgs, log.uid) == log.Live(from, mid) + [log.Seed(text, at)] + log.Live(mid, to)
    ensures Written(HandledAll(s, msgs).lines, log.uid) == Owed(log, text, at, to) <==> mid == from
  {
    hide HandledAll, Wire, Written, Heard, Seeded;
    Spliced(s, msgs, log, text, at, from, mid, to);
    var w := Written(HandledAll(s, msgs).lines, log.uid);
    if mid > from {
      assert |w| > |Owed(log, text, at, to)|;
    } else {
      assert log.chunks[from..mid] == [];
    }
  }

  /** With a daemon that reports no cursors the filter is off: output is owed exactly when the
      stream starts where the seed ended. */
  lemma UncountedOnceIffNoOverlap(s: Server, msgs: seq<Msg>, log: Log, text: string, at: nat, from: nat, to: nat)
    requires log.Valid() && !log.counted && from <= at <= to <= |log.chunks|
    requires Heard(s, msgs, log.uid) && Seeded(s, log.uid) == 0
    requires Wire(msgs, log.uid) == [log.Seed(text, at)] + log.Live(from, to)
    ensures Written(HandledAll(s, msgs).lines, log.uid) == Owed(log, text, at, to) <==> from == at
  {
    hide HandledAll, Wire, Written, Heard, Seeded;
    assert log.Live(from, from) == [];
    assert [] + [log.Seed(text, at)] == [log.Seed(text, at)];
    Spliced(s, msgs, log, text, at, from, from, to);
    assert log.chunks[from..from] == [];
    var w := Written(HandledAll(s, msgs).lines, log.uid);
    assert w == SeedText(text) + log.chunks[from..to];
    if from < at { assert |w| > |Owed(log, text, at, to)|; }
  }
}
