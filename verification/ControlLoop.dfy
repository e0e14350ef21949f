/** The control-mode event loop: one queue of arrivals, a wait inside `capture-pane` that takes the
    screen mirrors it asked for and parks everything else, and the differ as the loop runs it. */
module ControlLoop {
  import opened Wrappers
  import opened ControlMode

  /** One receive from the channel: a message, or the interval passing without one, after which the
      loop's poll is sent or cannot be. An exhausted channel is disconnected. */
  datatype Arrival = Got(msg: Msg) | Quiet(polled: bool)

  function Arrived(rx: seq<Arrival>): seq<Msg> {
    if rx == [] then [] else (if rx[0].Got? then [rx[0].msg] else []) + Arrived(rx[1..])
  }

  // ---- order kept, screens apart ----

  /** `kept` is `full` with nothing missing but some screen mirrors, in the same order. */
  ghost predicate Erases(full: seq<Msg>, kept: seq<Msg>)
    decreases |full|
  {
    if full == [] then kept == []
    else
      var last := full[|full| - 1];
      || (kept != [] && kept[|kept| - 1] == last && Erases(full[..|full| - 1], kept[..|kept| - 1]))
      || (last.Screen? && Erases(full[..|full| - 1], kept))
  }

  lemma {:induction false} ErasesSelf(s: seq<Msg>)
    ensures Erases(s, s)
  {
    if s != [] { ErasesSelf(s[..|s| - 1]); }
  }

  lemma {:induction false} ErasesConcat(a: seq<Msg>, a': seq<Msg>, b: seq<Msg>, b': seq<Msg>)
    requires Erases(a, a') && Erases(b, b')
    ensures Erases(a + b, a' + b')
    decreases |b|
  {
    if b == [] {
      assert a + b == a && a' + b' == a';
    } else {
      var last := b[|b| - 1];
      assert (a + b)[..|a + b| - 1] == a + b[..|b| - 1];
      if b' != [] && b'[|b'| - 1] == last && Erases(b[..|b| - 1], b'[..|b'| - 1]) {
        ErasesConcat(a, a', b[..|b| - 1], b'[..|b'| - 1]);
        assert (a' + b')[..|a' + b'| - 1] == a' + b'[..|b'| - 1];
      } else {
        ErasesConcat(a, a', b[..|b| - 1], b');
      }
    }
  }

  lemma {:induction false} ErasesTwice(a: seq<Msg>, b: seq<Msg>, c: seq<Msg>)
    requires Erases(a, b) && Erases(b, c)
    ensures Erases(a, c)
    decreases |a|
  {
    if a != [] {
      var a', last := a[..|a| - 1], a[|a| - 1];
      if b != [] && b[|b| - 1] == last && Erases(a', b[..|b| - 1]) {
        if c != [] && c[|c| - 1] == last && Erases(b[..|b| - 1], c[..|c| - 1]) {
          ErasesTwice(a', b[..|b| - 1], c[..|c| - 1]);
        } else {
          ErasesTwice(a', b[..|b| - 1], c);
        }
      } else {
        ErasesTwice(a', b, c);
      }
    }
  }

  /** Parking what a wait met, and dropping the screens it took, keeps the backlog in order. */
  lemma ErasesBehind(full: seq<Msg>, front: seq<Msg>, back: seq<Msg>, back': seq<Msg>)
    requires Erases(full, front + back) && Erases(back, back')
    ensures Erases(full, front + back')
  {
    ErasesSelf(front);
    ErasesConcat(front, front, back, back');
    ErasesTwice(full, front + back, front + back');
  }

  lemma ErasesNext(full: seq<Msg>, front: seq<Msg>, m: Msg, back: seq<Msg>, back': seq<Msg>)
    requires Erases(full, front + ([m] + back)) && Erases(back, back')
    ensures Erases(full, front + [m] + back')
  {
    assert front + ([m] + back) == front + [m] + back;
    ErasesBehind(full, front + [m], back, back');
  }

  lemma ErasesFront(m: Msg, rest: seq<Msg>)
    requires m.Screen?
    ensures Erases([m] + rest, rest)
  {
    assert [m][..0] == [];
    assert Erases([m], []);
    ErasesSelf(rest);
    ErasesConcat([m], [], rest, rest);
    assert [] + rest == rest;
  }

  /** Erasing screens loses nothing of any pane's stream, nor of when the pane is published, nor any
      command. */
  lemma {:induction false} ErasesKeepsWire(full: seq<Msg>, kept: seq<Msg>, before: bool, uid: Uid)
    requires Erases(full, kept)
    ensures Wire(full, uid) == Wire(kept, uid) && ShownWire(before, full, uid) == ShownWire(before, kept, uid)
    ensures Shown(before, full, uid) == Shown(before, kept, uid) && AllShown(before, full, uid) == AllShown(before, kept, uid)
    ensures ShownFirst(before, full, uid) == ShownFirst(before, kept, uid) && Answers(full) == Answers(kept)
    decreases |full|
  {
    if full != [] {
      var init, last := full[..|full| - 1], full[|full| - 1];
      if kept != [] && kept[|kept| - 1] == last && Erases(init, kept[..|kept| - 1]) {
        ErasesKeepsWire(init, kept[..|kept| - 1], before, uid);
      } else {
        ErasesKeepsWire(init, kept, before, uid);
      }
    }
  }

  /** What is asked of a whole stream is so of every beginning of it. */
  lemma {:induction false} SoFar(a: seq<Msg>, b: seq<Msg>, before: bool, uid: Uid)
    ensures Wire(a, uid) <= Wire(a + b, uid)
    ensures ShownFirst(before, a + b, uid) ==> ShownFirst(before, a, uid)
    ensures AllShown(before, a + b, uid) ==> AllShown(before, a, uid)
    decreases |b|
  {
    if b == [] {
      assert a + b == a;
    } else {
      assert (a + b)[..|a + b| - 1] == a + b[..|b| - 1];
      SoFar(a, b[..|b| - 1], before, uid);
    }
  }

  lemma HandledNone(s: Server)
    ensures HandledAll(s, []) == Reaction(s, [], [])
  {
  }

  lemma HandledMore(s: Server, msgs: seq<Msg>, m: Msg)
    ensures var before, last := HandledAll(s, msgs), Handled(HandledAll(s, msgs).server, m);
      HandledAll(s, msgs + [m]) == Reaction(last.server, before.lines + last.lines, before.attached + last.attached)
  {
    assert (msgs + [m])[..|msgs + [m]| - 1] == msgs;
  }

  // ---- the loop ----

  datatype Taken = Message(msg: Msg) | Poll | PollFailed | Disconnected

  /** Every poll goes out. */
  ghost predicate Polls(rx: seq<Arrival>) {
    forall i :: 0 <= i < |rx| && rx[i].Quiet? ==> rx[i].polled
  }

  // ---- a stdout that may fail ----

  /** How many more lines the client's end takes, if it is ever to stop taking them. */
  type Room = Option<nat>

  predicate Fits(lines: seq<Line>, room: Room) {
    room.Some? ==> |lines| <= room.value
  }

  /** The lines that get out. */
  function Cut(lines: seq<Line>, room: Room): seq<Line> {
    if Fits(lines, room) then lines else lines[..room.value]
  }

  function Left(lines: seq<Line>, room: Room): Room {
    match room
    case None => None
    case Some(n) => Some(if |lines| <= n then n - |lines| else 0)
  }

  lemma CutAppend(a: seq<Line>, b: seq<Line>, room: Room)
    requires Fits(a, room)
    ensures Fits(a + b, room) <==> Fits(b, Left(a, room))
    ensures Cut(a + b, room) == a + Cut(b, Left(a, room)) && Left(a + b, room) == Left(b, Left(a, room))
  {
  }

  lemma CutEarlier(a: seq<Line>, b: seq<Line>, room: Room)
    requires !Fits(a, room)
    ensures Cut(a + b, room) == Cut(a, room) && !Fits(a + b, room)
  {
  }

  lemma CutWrites(lines: seq<Line>, room: Room, uid: Uid)
    ensures Written(Cut(lines, room), uid) <= Written(lines, uid)
  {
    if !Fits(lines, room) {
      assert lines == lines[..room.value] + lines[room.value..];
      WrittenAppend(lines[..room.value], lines[room.value..], uid);
    }
  }

  /** What the loop takes next: a parked message, else the next arrival. */
  function NextTaken(pending: seq<Msg>, rx: seq<Arrival>): Taken {
    if pending != [] then Message(pending[0])
    else if rx == [] then Disconnected
    else match rx[0] case Got(m) => Message(m) case Quiet(polled) => if polled then Poll else PollFailed
  }

  // ---- what a wait takes ----

  /** What arrives in a wait for `want` screens: everything up to the last screen asked for, or to the
      moment the time is up, or to the end of the channel. */
  function InWait(rx: seq<Arrival>, want: nat): seq<Arrival> {
    if want == 0 || rx == [] then []
    else if rx[0].Quiet? then [rx[0]]
    else [rx[0]] + InWait(rx[1..], if rx[0].msg.Screen? then want - 1 else want)
  }

  function ScreensIn(rx: seq<Arrival>): nat {
    if rx == [] then 0 else (if rx[0].Got? && rx[0].msg.Screen? then 1 else 0) + ScreensIn(rx[1..])
  }

  /** The messages of a wait that are no screens, which are parked. */
  function Parked(rx: seq<Arrival>): seq<Msg> {
    if rx == [] then []
    else (if rx[0].Got? && !rx[0].msg.Screen? then [rx[0].msg] else []) + Parked(rx[1..])
  }

  /** The mirrors with those of a wait set, the last of each pane standing. */
  function Mirrored(screens: map<Uid, string>, rx: seq<Arrival>): map<Uid, string> {
    if rx == [] then screens
    else
      var before, last := Mirrored(screens, rx[..|rx| - 1]), rx[|rx| - 1];
      if last.Got? && last.msg.Screen? then before[last.msg.uid := last.msg.text] else before
  }

  /** A wait is over when it has the screens it asked for, when the time is up, or when nothing more can
      come, and not before. */
  lemma {:induction false} WaitIs(rx: seq<Arrival>, want: nat)
    ensures var got := InWait(rx, want);
      && got <= rx && ScreensIn(got) <= want
      && (got == rx || ScreensIn(got) == want || (got != [] && got[|got| - 1].Quiet?))
      && (forall i :: 0 <= i < |got| && got[i].Quiet? ==> i == |got| - 1)
      && (got != [] && ScreensIn(got) == want ==> !got[|got| - 1].Quiet? && got[|got| - 1].msg.Screen?)
  {
    if want != 0 && rx != [] && rx[0].Got? {
      var less := if rx[0].msg.Screen? then want - 1 else want;
      WaitIs(rx[1..], less);
      var got, tail := InWait(rx, want), InWait(rx[1..], less);
      assert got[1..] == tail;
      if tail == [] { assert ScreensIn(tail) == 0; }
    } else if want != 0 && rx != [] {
      assert [rx[0]][1..] == [] && [rx[0]] <= rx;
    }
  }

  /** After a wait a pane's mirror is the last that came for it, or else as it was. */
  lemma {:induction false} MirroredIs(screens: map<Uid, string>, rx: seq<Arrival>, u: Uid)
    ensures var now := Mirrored(screens, rx);
      || ((forall i :: 0 <= i < |rx| ==> !MirrorOf(rx[i], u)) && (u in now <==> u in screens) && (u in now ==> now[u] == screens[u]))
      || (u in now && exists i :: 0 <= i < |rx| && rx[i] == Got(Screen(u, now[u])) && forall k :: i < k < |rx| ==> !MirrorOf(rx[k], u))
  {
    if rx != [] {
      var init := rx[..|rx| - 1];
      MirroredIs(screens, init, u);
      var was, now := Mirrored(screens, init), Mirrored(screens, rx);
      if MirrorOf(rx[|rx| - 1], u) {
        assert rx[|rx| - 1] == Got(Screen(u, now[u]));
      } else if i :| 0 <= i < |init| && u in was && init[i] == Got(Screen(u, was[u])) && forall k :: i < k < |init| ==> !MirrorOf(init[k], u) {
        assert rx[i] == Got(Screen(u, now[u]));
      }
    }
  }

  predicate MirrorOf(a: Arrival, u: Uid) {
    a.Got? && a.msg.Screen? && a.msg.uid == u
  }

  /** A wait that has taken `got` and still wants `want` screens. */
  ghost predicate Waiting(rx0: seq<Arrival>, pending0: seq<Msg>, screens0: map<Uid, string>, asked: nat, got: seq<Arrival>,
                          rx: seq<Arrival>, pending: seq<Msg>, screens: map<Uid, string>, want: nat) {
    && rx0 == got + rx && InWait(rx0, asked) == got + InWait(rx, want)
    && pending == pending0 + Parked(got) && screens == Mirrored(screens0, got)
  }

  /** And one that is over. */
  ghost predicate Waited(rx0: seq<Arrival>, pending0: seq<Msg>, screens0: map<Uid, string>, asked: nat,
                         rx: seq<Arrival>, pending: seq<Msg>, screens: map<Uid, string>) {
    var got := InWait(rx0, asked);
    rx0 == got + rx && pending == pending0 + Parked(got) && screens == Mirrored(screens0, got)
  }

  lemma WaitStart(rx: seq<Arrival>, pending: seq<Msg>, screens: map<Uid, string>, asked: nat)
    ensures Waiting(rx, pending, screens, asked, [], rx, pending, screens, asked)
  {
    assert [] + rx == rx && [] + InWait(rx, asked) == InWait(rx, asked) && pending + [] == pending;
  }

  lemma WaitOver(rx0: seq<Arrival>, pending0: seq<Msg>, screens0: map<Uid, string>, asked: nat, got: seq<Arrival>,
                 rx: seq<Arrival>, pending: seq<Msg>, screens: map<Uid, string>, want: nat)
    requires Waiting(rx0, pending0, screens0, asked, got, rx, pending, screens, want) && (want == 0 || rx == [])
    ensures Waited(rx0, pending0, screens0, asked, rx, pending, screens)
  {
    assert got + [] == got;
  }

  /** One arrival more. */
  lemma WaitStep(rx0: seq<Arrival>, pending0: seq<Msg>, screens0: map<Uid, string>, asked: nat, got: seq<Arrival>,
                 rx: seq<Arrival>, pending: seq<Msg>, screens: map<Uid, string>, want: nat)
    requires Waiting(rx0, pending0, screens0, asked, got, rx, pending, screens, want) && want > 0 && rx != []
    ensures match rx[0]
      case Quiet(_) => Waited(rx0, pending0, screens0, asked, rx[1..], pending, screens)
      case Got(m) =>
        if m.Screen? then Waiting(rx0, pending0, screens0, asked, got + [rx[0]], rx[1..], pending, screens[m.uid := m.text], want - 1)
        else Waiting(rx0, pending0, screens0, asked, got + [rx[0]], rx[1..], pending + [m], screens, want)
  {
    var got' := got + [rx[0]];
    ParkedAppend(got, rx[0]);
    assert got'[..|got|] == got && rx0 == got' + rx[1..];
    match rx[0]
    case Quiet(_) => assert pending0 + (Parked(got) + []) == pending;
    case Got(m) =>
      var want' := if m.Screen? then want - 1 else want;
      assert got + ([rx[0]] + InWait(rx[1..], want')) == got' + InWait(rx[1..], want');
      if m.Screen? { assert pending0 + (Parked(got) + []) == pending; } else { assert pending0 + (Parked(got) + [m]) == pending + [m]; }
  }

  lemma {:induction false} ParkedAppend(a: seq<Arrival>, x: Arrival)
    ensures Parked(a + [x]) == Parked(a) + if x.Got? && !x.msg.Screen? then [x.msg] else []
  {
    if a == [] {
      assert a + [x] == [x] && [x][1..] == [];
    } else {
      assert (a + [x])[1..] == a[1..] + [x];
      ParkedAppend(a[1..], x);
    }
  }

  /** Polls that cannot be sent. */
  function FailedPolls(rx: seq<Arrival>): nat {
    if rx == [] then 0 else (if rx[0].Quiet? && !rx[0].polled then 1 else 0) + FailedPolls(rx[1..])
  }

  /** The commands among the messages that make the loop wait. */
  function Waits(msgs: seq<Msg>): nat {
    if msgs == [] then 0
    else Waits(msgs[..|msgs| - 1]) + if msgs[|msgs| - 1].Command? && msgs[|msgs| - 1].capture then 1 else 0
  }

  lemma {:induction false} FailedAppend(a: seq<Arrival>, b: seq<Arrival>)
    ensures FailedPolls(a + b) == FailedPolls(a) + FailedPolls(b)
  {
    if a == [] {
      assert a + b == b;
    } else {
      assert (a + b)[1..] == a[1..] + b;
      FailedAppend(a[1..], b);
    }
  }

  lemma {:induction false} OneFailsAtMost(rx: seq<Arrival>, want: nat)
    ensures FailedPolls(InWait(rx, want)) <= 1
  {
    if want != 0 && rx != [] {
      if rx[0].Quiet? {
        assert [rx[0]][1..] == [];
      } else {
        OneFailsAtMost(rx[1..], if rx[0].msg.Screen? then want - 1 else want);
        assert InWait(rx, want)[1..] == InWait(rx[1..], if rx[0].msg.Screen? then want - 1 else want);
      }
    }
  }

  class Transport {
    var panes: map<Uid, Grid>
    var seen: map<Uid, Grid>
    var cursors: map<Uid, nat>
    var screens: map<Uid, string>
    /** What arrived during a wait, to be handled before anything newer. */
    var pending: seq<Msg>
    var rx: seq<Arrival>
    var out: seq<Line>
    var attached: seq<Uid>
    var room: Room
    ghost var handled: seq<Msg>

    function Published(): Server
      reads `panes, `seen, `cursors
    {
      Server(panes, seen, cursors)
    }

    /** The loop as it starts, after the greeting and the first attaches: every session of the first
        list is published and recorded as seen. */
    constructor (list: seq<Meta>, rx: seq<Arrival>, room: Room)
      requires Distinct(list)
      ensures Published() == Server(SeenIn(list), SeenIn(list), map[]) && Consistent(Published())
      ensures pending == [] && handled == [] && out == [] && attached == [] && this.rx == rx && this.room == room
    {
      panes, seen, cursors, screens := SeenIn(list), SeenIn(list), map[], map[];
      pending, out, attached, handled := [], [], [], [];
      this.rx, this.room := rx, room;
    }

    /** Writes the lines, or as many of them as get out. */
    method Emit(lines: seq<Line>) returns (ok: bool)
      modifies `out, `room
      ensures ok == Fits(lines, old(room)) && out == old(out) + Cut(lines, old(room)) && room == Left(lines, old(room))
    {
      match room {
        case None =>
          out := out + lines;
          ok := true;
        case Some(n) =>
          ok := |lines| <= n;
          out := out + if ok then lines else lines[..n];
          room := Some(if ok then n - |lines| else 0);
      }
    }

    method Least(s: set<Uid>) returns (u: Uid)
      requires s != {}
      ensures u == LeastOf(s)
    {
      u :| u in s;
      var left := s - {u};
      while left != {}
        invariant u in s && left <= s
        invariant forall v :: v in s && v !in left ==> u <= v
        decreases left
      {
        var v :| v in left;
        if v < u { u := v; }
        left := left - {v};
      }
      assert IsLeast(u, s);
    }

    /** The snapshot differ, run in place: what it lists is entered, what it no longer does closed. */
    method DiffSessions(list: seq<Meta>) returns (lines: seq<Line>)
      modifies `panes, `seen, `attached
      ensures var r := Diffed(old(Published()), list);
        Published() == r.server && lines == r.lines && attached == old(attached) + r.attached
    {
      hide EnteredAll, ClosedAll;
      var now, entered := EnterListed(list);
      var closed := CloseGone(seen.Keys - now.Keys);
      seen := now;
      lines := entered + closed;
    }

    method EnterListed(list: seq<Meta>) returns (now: map<Uid, Grid>, lines: seq<Line>)
      modifies `panes, `attached
      ensures now == SeenIn(list)
      ensures (panes, lines) == (EnteredAll(old(panes), seen, list).0, EnteredAll(old(panes), seen, list).1)
      ensures attached == old(attached) + EnteredAll(old(panes), seen, list).2
    {
      lines, now := [], map[];
      ghost var asks := [];
      for i := 0 to |list|
        invariant attached == old(attached) + asks && now == SeenIn(list[..i])
        invariant (panes, lines, asks) == EnteredAll(old(panes), seen, list[..i])
      {
        var m := list[i];
        assert list[..i + 1][..i] == list[..i] && list[..i + 1][i] == m;
        ghost var step, said := Entered(panes, seen, m), lines;
        now := now[m.uid := m.grid];
        if m.uid !in panes {
          panes := panes[m.uid := m.grid];
          lines := lines + [WindowAdd(m.uid), Layout(m.uid, m.grid)];
          attached := attached + [m.uid];
        } else if m.grid.Known() && (m.uid !in seen || seen[m.uid] != m.grid) && panes[m.uid] != m.grid {
          panes := panes[m.uid := m.grid];
          lines := lines + [Layout(m.uid, m.grid)];
        }
        assert panes == step.0 && lines == said + step.1;
        asks := asks + step.2;
      }
      assert list[..|list|] == list;
    }

    method CloseGone(all: set<Uid>) returns (lines: seq<Line>)
      modifies `panes
      ensures (panes, lines) == ClosedAll(old(panes), all)
    {
      lines := [];
      var gone := all;
      assert [] + ClosedAll(panes, all).1 == ClosedAll(panes, all).1;
      while gone != {}
        invariant ClosedAll(old(panes), all) == (ClosedAll(panes, gone).0, lines + ClosedAll(panes, gone).1)
        decreases gone
      {
        var u := Least(gone);
        ghost var rest := ClosedAll(Closed(panes, u).0, gone - {u}).1;
        assert lines + (Closed(panes, u).1 + rest) == (lines + Closed(panes, u).1) + rest;
        if u in panes {
          panes := panes - {u};
          lines := lines + [WindowClose(u)];
        } else {
          assert lines + [] == lines;
        }
        gone := gone - {u};
      }
      assert lines + [] == lines;
    }

    /** What has arrived and is not yet handled, in the order it will be. */
    ghost function Backlog(): seq<Msg>
      reads `pending, `rx
    {
      pending + Arrived(rx)
    }

    /** The next message: a parked one first, else one receive from the channel. */
    method Take() returns (r: Taken)
      modifies `pending, `rx
      ensures r == NextTaken(old(pending), old(rx))
      ensures pending == (if old(pending) == [] then [] else old(pending)[1..])
      ensures rx == if old(pending) != [] || old(rx) == [] then old(rx) else old(rx)[1..]
      ensures r.Message? ==> old(Backlog()) == [r.msg] + Backlog() && |pending| + |rx| < old(|pending| + |rx|)
      ensures r.Poll? || r.PollFailed? ==> old(Backlog()) == Backlog() && |pending| + |rx| < old(|pending| + |rx|)
      ensures Polls(old(rx)) ==> Polls(rx) && !r.PollFailed?
      ensures r.Disconnected? ==> old(Backlog()) == Backlog() == []
    {
      if pending != [] {
        r := Message(pending[0]);
        assert pending + Arrived(rx) == [pending[0]] + (pending[1..] + Arrived(rx));
        pending := pending[1..];
      } else if rx == [] {
        r := Disconnected;
      } else {
        r := if rx[0].Got? then Message(rx[0].msg) else if rx[0].polled then Poll else PollFailed;
        assert [] + Arrived(rx[1..]) == Arrived(rx[1..]);
        rx := rx[1..];
      }
    }

    /** Waits for the screen mirrors that were asked for, or until the wait times out. Other messages
        are parked, so nothing but screens leaves the backlog and its order stays. */
    method RefreshScreens(asked: nat)
      modifies `screens, `pending, `rx
      ensures Waited(old(rx), old(pending), old(screens), asked, rx, pending, screens)
      ensures Erases(old(Backlog()), Backlog()) && |pending| + |rx| <= old(|pending| + |rx|)
      ensures Polls(old(rx)) ==> Polls(rx)
    {
      var want := asked;
      ghost var got: seq<Arrival> := [];
      WaitStart(rx, pending, screens, asked);
      ErasesSelf(Backlog());
      hide Erases, Waiting, Mirrored, InWait, Parked;
      while want > 0
        invariant Erases(old(Backlog()), Backlog()) && |pending| + |rx| <= old(|pending| + |rx|)
        invariant Polls(old(rx)) ==> Polls(rx)
        invariant Waiting(old(rx), old(pending), old(screens), asked, got, rx, pending, screens, want)
        decreases |rx|
      {
        if rx == [] { break; }
        ghost var later := Arrived(rx[1..]);
        var arrival := rx[0];
        WaitStep(old(rx), old(pending), old(screens), asked, got, rx, pending, screens, want);
        rx := rx[1..];
        got := got + [arrival];
        if arrival.Quiet? {
          assert [] + later == later;
          return;
        }
        var m := arrival.msg;
        if m.Screen? {
          screens := screens[m.uid := m.text];
          want := want - 1;
          ErasesFront(m, later);
          ErasesBehind(old(Backlog()), pending, [m] + later, later);
        } else {
          assert pending + ([m] + later) == (pending + [m]) + later;
          pending := pending + [m];
        }
      }
      WaitOver(old(rx), old(pending), old(screens), asked, got, rx, pending, screens, want);
    }

    /** Waits for the mirrors, of which the client asks for one a pane as far as the socket takes the
        requests, when the message is a command that needs them. */
    method TopUp(m: Msg, ghost rx0: seq<Arrival>, ghost handled: seq<Msg>)
      requires Counted(rx0, rx, handled)
      modifies `screens, `pending, `rx
      ensures Erases(old(Backlog()), Backlog()) && |pending| + |rx| <= old(|pending| + |rx|)
      ensures Polls(old(rx)) ==> Polls(rx)
      ensures if m.Command? && m.capture then exists asked :: 0 <= asked <= |panes| && Waited(old(rx), old(pending), old(screens), asked, rx, pending, screens)
              else rx == old(rx) && pending == old(pending) && screens == old(screens)
      ensures Counted(rx0, rx, handled + [m]) && FailedPolls(rx0) <= FailedPolls(rx) + Waits(handled + [m])
    {
      hide Erases, Polls, Arrived, Waited, Counted, Waits, FailedPolls;
      CountMessage(rx0, rx, handled, m);
      ErasesSelf(Backlog());
      if m.Command? && m.capture {
        var asked :| 0 <= asked <= |panes|;
        RefreshScreens(asked);
        CountWait(rx0, old(rx), old(pending), old(screens), asked, rx, pending, screens, handled, m);
      }
    }

    /** Handles one message and writes its lines; false if they do not get out. */
    method Handle(m: Msg) returns (ok: bool)
      modifies `panes, `seen, `cursors, `screens, `out, `attached, `room
      ensures var r := Handled(old(Published()), m);
        && Published() == r.server && attached == old(attached) + r.attached
        && ok == Fits(r.lines, old(room)) && out == old(out) + Cut(r.lines, old(room)) && room == Left(r.lines, old(room))
    {
      var lines: seq<Line> := [];
      match m {
      case Replay(uid, data, cursor) =>
        cursors := cursors[uid := Max(Seeded(Published(), uid), cursor)];
        lines := OutputLines(Published(), uid, data);
      case Data(uid, data, cursor) =>
        if !(cursor != 0 && cursor <= Seeded(Published(), uid)) { lines := OutputLines(Published(), uid, data); }
      case Screen(uid, text) => screens := screens[uid := text];
      case Sessions(list) => lines := DiffSessions(list);
      case Exited(uid) =>
        if uid in panes {
          panes := panes - {uid};
          lines := [WindowClose(uid)];
        }
      case Command(_, reply, _) => lines := seq(|reply|, i requires 0 <= i < |reply| => Reply(reply[i]));
      case _ =>
      }
      hide Cut, Fits, Left;
      ok := Emit(lines);
    }

    /** What is handled is what is published and written, since `start` and after `told`. */
    ghost predicate Ledger(start: Server, told: seq<Line>, room0: Room)
      reads `panes, `seen, `cursors, `out, `room, `handled
    {
      var so := HandledAll(start, handled);
      Published() == so.server && out == told + so.lines && Fits(so.lines, room0) && room == Left(so.lines, room0)
    }

    /** One message more on the ledger. */
    method HandleNext(m: Msg, ghost start: Server, ghost told: seq<Line>, ghost room0: Room) returns (ok: bool)
      requires Ledger(start, told, room0)
      modifies `panes, `seen, `cursors, `screens, `out, `attached, `room, `handled
      ensures handled == old(handled) + [m] && Published() == HandledAll(start, handled).server
      ensures ok ==> Ledger(start, told, room0)
      ensures !ok ==> !Fits(HandledAll(start, handled).lines, room0) && out == told + Cut(HandledAll(start, handled).lines + [Exit], room0)
    {
      hide Handled, HandledAll, Cut, Fits, Left;
      HandledMore(start, handled, m);
      ghost var lines, more := HandledAll(start, handled).lines, Handled(HandledAll(start, handled).server, m).lines;
      CutAppend(lines, more, room0);
      ok := Handle(m);
      handled := handled + [m];
      assert told + lines + Cut(more, Left(lines, room0)) == told + Cut(lines + more, room0);
      if ok { CutAll(lines + more, room0); } else { CutEarlier(lines + more, [Exit], room0); }
    }

    /** The loop's last write. */
    method Goodbye(ghost start: Server, ghost told: seq<Line>, ghost room0: Room)
      requires Ledger(start, told, room0)
      modifies `out, `room
      ensures out == told + Cut(HandledAll(start, handled).lines + [Exit], room0)
    {
      CutAppend(HandledAll(start, handled).lines, [Exit], room0);
      hide Cut, Fits, Left, HandledAll;
      var _ := Emit([Exit]);
    }

    /** The whole loop, over everything that ever arrives. Apart from screen mirrors taken inside a
        wait, the messages are handled in the order they arrived, each once and none left out,
        until one ends the loop, a poll cannot be sent, a line does not get out or the channel ends; and
        not beyond. A failed poll passes unnoticed only in a wait, where none is sent. */
    method Run() returns (ghost backlog: seq<Msg>, ghost how: How)
      requires pending == [] && handled == []
      modifies this
      ensures Erases(old(Arrived(rx)), handled + backlog)
      ensures var lines := HandledAll(old(Published()), handled).lines + [Exit];
        out == old(out) + if old(room).Some? && old(room).value < |lines| then lines[..old(room).value] else lines
      ensures EndsSo(how, old(Published()), handled, backlog, old(room))
      ensures how.ByPoll? ==> !Polls(old(rx))
      ensures FailedPolls(old(rx)) <= FailedPolls(rx) + Waits(handled) + (if how.ByPoll? then 1 else 0)
      ensures how.ByPoll? ==> FailedPolls(old(rx)) > FailedPolls(rx)
      ensures Published() == HandledAll(old(Published()), handled).server
    {
      ghost var start, all, told, rx0, room0 := Published(), Backlog(), out, rx, room;
      HandledNone(start);
      NoneCut(room);
      ErasesSelf(all);
      CountedNone(rx);
      GoesOnAtFirst(start, room);
      assert told + [] == told;
      BacklogIs();
      assert InLoop(start, told, room0, rx0, all);
      hide *;
      var over := false;
      how, backlog := ByChannel, [];
      while !over
        invariant if over then Over(how, backlog, start, told, room0, rx0, all) else InLoop(start, told, room0, rx0, all)
        decreases |pending| + |rx|, !over
      {
        over, how, backlog := Turn(start, told, room0, rx0, all);
      }
      OverIs(how, backlog, start, told, room0, rx0, all);
    }

    /** One turn of the loop: takes what is next and handles it, or ends. */
    method Turn(ghost start: Server, ghost told: seq<Line>, ghost room0: Room, ghost rx0: seq<Arrival>, ghost all: seq<Msg>)
      returns (over: bool, ghost how: How, ghost backlog: seq<Msg>)
      requires InLoop(start, told, room0, rx0, all)
      modifies this
      ensures if over then Over(how, backlog, start, told, room0, rx0, all) else InLoop(start, told, room0, rx0, all)
      ensures |pending| + |rx| <= old(|pending| + |rx|) && (!over ==> |pending| + |rx| < old(|pending| + |rx|))
    {
      over, how, backlog := false, ByChannel, [];
      hide Handled, HandledAll, Erases, Polls, Arrived, Ends, Cut, Fits, Left, EndsSo, Waits, FailedPolls, Waited, GoesOn, Counted,
        NextTaken, Backlog, Published, Ledger;
      TakeCounts(rx0, pending, rx, handled);
      var taken := Take();
      LedgerIs(start, told, room0);
      if taken.Poll? { return; }
      if !taken.Message? {
        over, backlog, how := true, Backlog(), if taken.PollFailed? then ByPoll else ByChannel;
        StopsHere(how, start, handled, backlog, room0);
        Goodbye(start, told, room0);
        return;
      }
      var m := taken.msg;
      ghost var before, had := Backlog(), handled;
      TopUp(m, rx0, handled);
      ErasesNext(all, had, m, before, Backlog());
      var ok := HandleNext(m, start, told, room0);
      LedgerFits(start, told, room0);
      if !ok || Ends(m) {
        over, backlog, how := true, Backlog(), if ok then ByMessage else ByWrite;
        StopsAt(how, start, had, m, backlog, room0);
        if ok { Goodbye(start, told, room0); }
        return;
      }
      GoesOnWith(start, had, m, room0);
    }

    /** The loop under way: nothing missing, nothing ended. */
    ghost predicate InLoop(start: Server, told: seq<Line>, room0: Room, rx0: seq<Arrival>, all: seq<Msg>)
      reads this
    {
      && Erases(all, handled + Backlog()) && Ledger(start, told, room0)
      && (Polls(rx0) ==> Polls(rx)) && GoesOn(start, handled, room0) && Counted(rx0, rx, handled)
    }

    /** The loop ended, for that reason and with that left. */
    ghost predicate Over(how: How, backlog: seq<Msg>, start: Server, told: seq<Line>, room0: Room, rx0: seq<Arrival>, all: seq<Msg>)
      reads this
    {
      && Erases(all, handled + backlog) && out == told + Cut(HandledAll(start, handled).lines + [Exit], room0)
      && EndsSo(how, start, handled, backlog, room0) && (how.ByPoll? ==> !Polls(rx0))
      && FailedPolls(rx0) <= FailedPolls(rx) + Waits(handled) + (if how.ByPoll? then 1 else 0)
      && (how.ByPoll? ==> FailedPolls(rx0) > FailedPolls(rx))
      && Published() == HandledAll(start, handled).server
    }

    lemma OverIs(how: How, backlog: seq<Msg>, start: Server, told: seq<Line>, room0: Room, rx0: seq<Arrival>, all: seq<Msg>)
      requires Over(how, backlog, start, told, room0, rx0, all)
      ensures Erases(all, handled + backlog) && out == told + Cut(HandledAll(start, handled).lines + [Exit], room0)
      ensures EndsSo(how, start, handled, backlog, room0) && (how.ByPoll? ==> !Polls(rx0))
      ensures FailedPolls(rx0) <= FailedPolls(rx) + Waits(handled) + (if how.ByPoll? then 1 else 0)
      ensures how.ByPoll? ==> FailedPolls(rx0) > FailedPolls(rx)
      ensures Published() == HandledAll(start, handled).server
    {
    }

    lemma BacklogIs()
      requires pending == [] && handled == []
      ensures Backlog() == Arrived(rx) && handled + Backlog() == Backlog()
    {
    }

    lemma LedgerIs(start: Server, told: seq<Line>, room0: Room)
      requires Ledger(start, told, room0)
      ensures Published() == HandledAll(start, handled).server
    {
    }

    lemma LedgerFits(start: Server, told: seq<Line>, room0: Room)
      ensures Ledger(start, told, room0) ==> Fits(HandledAll(start, handled).lines, room0)
    {
    }
  }

  // ---- how the loop ends ----

  datatype How = ByMessage | ByPoll | ByWrite | ByChannel

  /** So far nothing has ended the loop: neither the daemon nor the client has gone, no command asked to
      detach, and every line got out. */
  ghost predicate GoesOn(start: Server, handled: seq<Msg>, room: Room) {
    && (forall i :: 0 <= i < |handled| ==> handled[i] != DaemonEof && handled[i] != StdinEof && (handled[i].Command? ==> !handled[i].detach))
    && (room == None || |HandledAll(start, handled).lines| <= room.value)
  }

  /** The loop ended here and for that reason, and until the last message handled for none. */
  ghost predicate EndsSo(how: How, start: Server, handled: seq<Msg>, backlog: seq<Msg>, room: Room) {
    match how
    case ByChannel => GoesOn(start, handled, room) && backlog == []
    case ByPoll => GoesOn(start, handled, room)
    case ByMessage =>
      && handled != [] && GoesOn(start, handled[..|handled| - 1], room)
      && (var m := handled[|handled| - 1]; m == DaemonEof || m == StdinEof || (m.Command? && m.detach))
      && (room == None || |HandledAll(start, handled).lines| <= room.value)
    case ByWrite =>
      && handled != [] && GoesOn(start, handled[..|handled| - 1], room)
      && room != None && |HandledAll(start, handled).lines| > room.value
  }

  lemma StopsHere(how: How, start: Server, handled: seq<Msg>, backlog: seq<Msg>, room: Room)
    requires GoesOn(start, handled, room) && (how.ByPoll? || (how.ByChannel? && backlog == []))
    ensures EndsSo(how, start, handled, backlog, room)
  {
  }

  lemma StopsAt(how: How, start: Server, handled: seq<Msg>, m: Msg, backlog: seq<Msg>, room: Room)
    requires GoesOn(start, handled, room)
    requires var fits := Fits(HandledAll(start, handled + [m]).lines, room);
      (how.ByWrite? && !fits) || (how.ByMessage? && fits && Ends(m))
    ensures EndsSo(how, start, handled + [m], backlog, room)
  {
    assert (handled + [m])[..|handled|] == handled;
  }

  lemma GoesOnWith(start: Server, handled: seq<Msg>, m: Msg, room: Room)
    requires GoesOn(start, handled, room) && !Ends(m) && Fits(HandledAll(start, handled + [m]).lines, room)
    ensures GoesOn(start, handled + [m], room)
  {
  }

  lemma GoesOnAtFirst(start: Server, room: Room)
    ensures GoesOn(start, [], room)
  {
  }

  lemma GoesFits(start: Server, handled: seq<Msg>, room: Room)
    requires GoesOn(start, handled, room)
    ensures Fits(HandledAll(start, handled).lines, room)
  {
  }

  /** No more failed polls are gone than waits could take. */
  ghost predicate Counted(rx0: seq<Arrival>, rx: seq<Arrival>, handled: seq<Msg>) {
    FailedPolls(rx) <= FailedPolls(rx0) <= FailedPolls(rx) + Waits(handled)
  }

  lemma CountedNone(rx: seq<Arrival>)
    ensures Counted(rx, rx, [])
  {
  }

  lemma WaitsMore(msgs: seq<Msg>, m: Msg)
    ensures Waits(msgs + [m]) == Waits(msgs) + if m.Command? && m.capture then 1 else 0
  {
    assert (msgs + [m])[..|msgs|] == msgs;
  }

  /** Taking what is next takes a failed poll only to say so. */
  lemma TakeCounts(rx0: seq<Arrival>, pending: seq<Msg>, rx: seq<Arrival>, handled: seq<Msg>)
    requires Counted(rx0, rx, handled)
    ensures var rx', taken := if pending != [] || rx == [] then rx else rx[1..], NextTaken(pending, rx);
      if taken.PollFailed? then FailedPolls(rx0) <= FailedPolls(rx') + Waits(handled) + 1 && FailedPolls(rx0) > FailedPolls(rx')
      else Counted(rx0, rx', handled) && FailedPolls(rx0) <= FailedPolls(rx') + Waits(handled)
  {
  }

  lemma CountMessage(rx0: seq<Arrival>, rx: seq<Arrival>, handled: seq<Msg>, m: Msg)
    requires Counted(rx0, rx, handled)
    ensures Counted(rx0, rx, handled + [m]) && FailedPolls(rx0) <= FailedPolls(rx) + Waits(handled + [m])
  {
    WaitsMore(handled, m);
  }

  lemma CountWait(rx0: seq<Arrival>, rx: seq<Arrival>, pending: seq<Msg>, screens: map<Uid, string>, asked: nat,
                  rx': seq<Arrival>, pending': seq<Msg>, screens': map<Uid, string>, handled: seq<Msg>, m: Msg)
    requires Counted(rx0, rx, handled) && m.Command? && m.capture && Waited(rx, pending, screens, asked, rx', pending', screens')
    ensures Counted(rx0, rx', handled + [m]) && FailedPolls(rx0) <= FailedPolls(rx') + Waits(handled + [m])
  {
    WaitsMore(handled, m);
    OneFailsAtMost(rx, asked);
    FailedAppend(InWait(rx, asked), rx');
  }

  lemma NoneCut(room: Room)
    ensures Fits([], room) && Left([], room) == room
  {
  }

  lemma CutIs(lines: seq<Line>, room: Room)
    ensures Cut(lines, room) == if room.Some? && room.value < |lines| then lines[..room.value] else lines
  {
  }

  lemma CutAll(lines: seq<Line>, room: Room)
    requires Fits(lines, room)
    ensures Cut(lines, room) == lines
  {
  }

  /** Exactly once, through the loop and however it ends: with a pane seeded once ahead of its live
      chunks, and heard of only while it is published, whenever that begins and ends, the loop writes the
      seed and precisely the log after it, up to the chunk `end` that was the last to be handled so; or
      nothing; or, where the client's end stops taking lines, a beginning of that. */
  method RunWritesOnce(t: Transport, log: Log, text: string, at: nat, from: nat, to: nat) returns (ghost end: Option<nat>)
    requires t.pending == [] && t.handled == [] && t.out == [] && Consistent(t.Published()) && AllDistinct(Arrived(t.rx))
    requires log.Valid() && log.counted && from <= at <= |log.chunks| && from <= to <= |log.chunks|
    requires Seeded(t.Published(), log.uid) == 0 && ShownFirst(log.uid in t.panes, Arrived(t.rx), log.uid)
    requires Wire(Arrived(t.rx), log.uid) == [log.Seed(text, at)] + log.Live(from, to)
    modifies t
    ensures Reached(log, text, at, from, to, end, ShownWire(old(log.uid in t.panes), t.handled, log.uid))
    ensures Written(t.out, log.uid) <= OwedUpTo(log, text, at, end)
    ensures old(t.room).None? ==> Written(t.out, log.uid) == OwedUpTo(log, text, at, end)
    ensures old(t.room).None? && old(Polls(t.rx) && RunsOn(Arrived(t.rx)) && AllShown(log.uid in t.panes, Arrived(t.rx), log.uid)) ==>
      Written(t.out, log.uid) == Owed(log, text, at, to)
  {
    hide Erases, Wire, HandledAll, Written, Shown, Consistent, Cut, ShownFirst, AllShown, ShownWire, Polls, Ends, Owed, EndsSo, RunsOn,
      FailedPolls, Waits, Reached;
    ghost var start, all, before, room, rx := t.Published(), Arrived(t.rx), log.uid in t.panes, t.room, t.rx;
    ghost var backlog, how;
    backlog, how := t.Run();
    ghost var full := HandledAll(start, t.handled).lines;
    ErasesFrom(all, t.handled + backlog);
    KeptDistinct(all, t.handled, backlog);
    ErasesKeepsWire(all, t.handled + backlog, before, log.uid);
    SoFar(t.handled, backlog, before, log.uid);
    end := ExactlyOnceSoFar(start, t.handled, log, text, at, from, to);
    ExitWritesNothing(full, log.uid);
    CutWrites(full + [Exit], room, log.uid);
    CutIs(full + [Exit], room);
    assert [] + Cut(full + [Exit], room) == Cut(full + [Exit], room);
    if room.None? {
      if Polls(rx) && RunsOn(all) && AllShown(before, all, log.uid) {
        RunsToTheEnd(how, start, t.handled, backlog, all);
        AllShownWire(before, t.handled, log.uid);
        ReachedAll(log, text, at, from, to, end);
      }
    }
  }

  /** Nothing that arrives ends the loop. */
  ghost predicate RunsOn(msgs: seq<Msg>) {
    forall i :: 0 <= i < |msgs| ==> msgs[i] != DaemonEof && msgs[i] != StdinEof && (msgs[i].Command? ==> !msgs[i].detach)
  }

  lemma RunsToTheEnd(how: How, start: Server, handled: seq<Msg>, backlog: seq<Msg>, all: seq<Msg>)
    requires EndsSo(how, start, handled, backlog, None) && !how.ByPoll? && RunsOn(all)
    requires forall i :: 0 <= i < |handled + backlog| ==> (handled + backlog)[i] in all
    ensures backlog == [] && handled + backlog == handled
  {
    if handled != [] {
      assert (handled + backlog)[|handled| - 1] in all;
      var k :| 0 <= k < |all| && all[k] == handled[|handled| - 1];
    }
  }

  lemma ReachedAll(log: Log, text: string, at: nat, from: nat, to: nat, end: Option<nat>)
    requires at <= |log.chunks| && from <= to <= |log.chunks|
    requires Reached(log, text, at, from, to, end, [log.Seed(text, at)] + log.Live(from, to))
    ensures end == Some(to)
  {
    StreamPart(log, text, at, from, to, to - from);
    StreamPart(log, text, at, from, end.value, end.value - from);
  }

  lemma KeptDistinct(all: seq<Msg>, handled: seq<Msg>, backlog: seq<Msg>)
    requires AllDistinct(all) && forall i :: 0 <= i < |handled + backlog| ==> (handled + backlog)[i] in all
    ensures AllDistinct(handled)
  {
    forall i | 0 <= i < |handled| && handled[i].Sessions? ensures Distinct(handled[i].list) {
      assert (handled + backlog)[i] in all;
      var k :| 0 <= k < |all| && all[k] == handled[i];
    }
  }

  lemma ExitWritesNothing(lines: seq<Line>, uid: Uid)
    ensures Written(lines + [Exit], uid) == Written(lines, uid)
  {
    assert (lines + [Exit])[..|lines|] == lines;
  }

  /** Every kept message is one of the arrivals. */
  lemma {:induction false} ErasesFrom(full: seq<Msg>, kept: seq<Msg>)
    requires Erases(full, kept)
    ensures forall i :: 0 <= i < |kept| ==> kept[i] in full
    decreases |full|
  {
    if full != [] {
      var init, last := full[..|full| - 1], full[|full| - 1];
      if kept != [] && kept[|kept| - 1] == last && Erases(init, kept[..|kept| - 1]) {
        ErasesFrom(init, kept[..|kept| - 1]);
      } else {
        ErasesFrom(init, kept);
      }
    }
  }
}
