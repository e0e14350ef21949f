/** The queue of tab and preference edits that control routes leave for the UI thread, and the
    tick that applies them, holding back the ones that would move what the human is working in. */
module UiOps {
  import opened Wrappers

  const MAX_PENDING := 256

  // ---- which operations wait ----

  /** The operations by what decides whether they wait. */
  datatype Op =
    | FocusTab(tab: TabId)
    | MoveTab(tab: TabId)
    | SetTabLayout(tab: TabId)
    | MovePane(uid: Uid, tab: TabId)
    | MovePaneToNewTab(uid: Uid)
    | Immediate(name: string)

  datatype TabId = TabId(window: int, index: nat)

  datatype Window = Window(id: int, active: nat, tabs: seq<seq<Uid>>)

  function WindowById(windows: seq<Window>, id: int): (r: Option<Window>)
    ensures r.Some? ==> r.value in windows && r.value.id == id
    ensures r.None? ==> forall w :: w in windows ==> w.id != id
  {
    if windows == [] then None
    else if windows[0].id == id then Some(windows[0])
    else WindowById(windows[1..], id)
  }

  /** The tab a positional id names, if it still names one, is the one its window shows. */
  predicate NamesActiveTab(windows: seq<Window>, tab: TabId) {
    match WindowById(windows, tab.window)
    case Some(w) => tab.index < |w.tabs| && tab.index == w.active
    case None => false
  }

  predicate InActiveTab(windows: seq<Window>, uid: Uid) {
    exists i :: 0 <= i < |windows| && windows[i].active < |windows[i].tabs| && uid in windows[i].tabs[windows[i].active]
  }

  /** Whether an operation must wait: only while the human is active, always when it would move the
      focus, and otherwise only when it touches the tab being worked in. */
  predicate Held(op: Op, windows: seq<Window>, humanActive: bool) {
    humanActive &&
    match op
    case FocusTab(_) => true
    case MoveTab(tab) => NamesActiveTab(windows, tab)
    case SetTabLayout(tab) => NamesActiveTab(windows, tab)
    case MovePane(uid, tab) => NamesActiveTab(windows, tab) || InActiveTab(windows, uid)
    case MovePaneToNewTab(uid) => InActiveTab(windows, uid)
    case Immediate(_) => false
  }

  // ---- the queue and its ticks ----

  /** An operation as accepted from a route; `serial` numbers the requests as they are accepted and
      so tells equal ones apart. */
  datatype Request = Request(serial: nat, op: Op)

  /** What one tick meets: for each drained request whether it was held when its turn came, and the
      operations that routes push after the drain and before the held ones go back. */
  datatype Tick = Tick(held: seq<bool>, meanwhile: seq<Op>)

  /** Operations numbered on from `serial`. */
  function Numbered(ops: seq<Op>, serial: nat): (r: seq<Request>)
    ensures |r| == |ops| && forall i :: 0 <= i < |r| ==> r[i] == Request(serial + i, ops[i])
  {
    seq(|ops|, i requires 0 <= i < |ops| => Request(serial + i, ops[i]))
  }

  /** The elements of `s` whose mark is `keep`, in order. */
  function Marked(s: seq<Request>, marks: seq<bool>, keep: bool): seq<Request>
    requires |marks| == |s|
  {
    if s == [] then []
    else Marked(s[..|s| - 1], marks[..|s| - 1], keep) + if marks[|s| - 1] == keep then [s[|s| - 1]] else []
  }

  lemma MarkedLast(s: seq<Request>, marks: seq<bool>, keep: bool)
    requires |marks| == |s| && s != []
    ensures var init := Marked(s[..|s| - 1], marks[..|s| - 1], keep);
      Marked(s, marks, keep) == if marks[|s| - 1] == keep then init + [s[|s| - 1]] else init
  {
  }

  lemma {:induction false} MarkedSplits(s: seq<Request>, marks: seq<bool>)
    requires |marks| == |s|
    ensures multiset(s) == multiset(Marked(s, marks, true)) + multiset(Marked(s, marks, false))
    ensures |s| == |Marked(s, marks, true)| + |Marked(s, marks, false)|
  {
    if s != [] {
      MarkedSplits(s[..|s| - 1], marks[..|s| - 1]);
      MarkedLast(s, marks, true);
      MarkedLast(s, marks, false);
      hide Marked;
      assert s == s[..|s| - 1] + [s[|s| - 1]];
    }
  }

  lemma {:induction false} MarkedAll(s: seq<Request>, marks: seq<bool>, keep: bool)
    requires |marks| == |s| && forall i :: 0 <= i < |s| ==> marks[i] == keep
    ensures Marked(s, marks, keep) == s && Marked(s, marks, !keep) == []
  {
    if s != [] {
      MarkedAll(s[..|s| - 1], marks[..|s| - 1], keep);
      assert s == s[..|s| - 1] + [s[|s| - 1]];
    }
  }

  /** `a` comes before `b` in `s`. */
  ghost predicate Precedes(s: seq<Request>, a: Request, b: Request) {
    exists i, j :: 0 <= i < j < |s| && s[i] == a && s[j] == b
  }

  lemma {:induction false} MarkedKeepsOrder(s: seq<Request>, marks: seq<bool>, keep: bool, a: Request, b: Request)
    requires |marks| == |s| && Precedes(Marked(s, marks, keep), a, b)
    ensures Precedes(s, a, b)
  {
    var init, m := s[..|s| - 1], Marked(s[..|s| - 1], marks[..|s| - 1], keep);
    var i, j :| 0 <= i < j < |Marked(s, marks, keep)| && Marked(s, marks, keep)[i] == a && Marked(s, marks, keep)[j] == b;
    if j < |m| {
      assert m[i] == a && m[j] == b;
      MarkedKeepsOrder(init, marks[..|s| - 1], keep, a, b);
      var k, l :| 0 <= k < l < |init| && init[k] == a && init[l] == b;
      assert s[k] == a && s[l] == b;
    } else {
      assert m[i] == a && s[|s| - 1] == b;
      MarkedFrom(init, marks[..|s| - 1], keep, a);
      var k :| 0 <= k < |init| && init[k] == a;
      assert s[k] == a && s[|s| - 1] == b;
    }
  }

  lemma {:induction false} MarkedFrom(s: seq<Request>, marks: seq<bool>, keep: bool, a: Request)
    requires |marks| == |s| && a in Marked(s, marks, keep)
    ensures a in s
  {
    var m := Marked(s[..|s| - 1], marks[..|s| - 1], keep);
    if a in m { MarkedFrom(s[..|s| - 1], marks[..|s| - 1], keep, a); }
  }

  /** What one tick leaves in the queue, applies and drops. */
  datatype Outcome = Outcome(pending: seq<Request>, applied: seq<Request>, dropped: seq<Request>)

  function Ticked(pending: seq<Request>, held: seq<bool>, came: seq<Request>): Outcome
    requires |held| == |pending| && |came| <= MAX_PENDING
  {
    var waiting := Marked(pending, held, true);
    var room := MAX_PENDING - |came|;
    var back := if |waiting| <= room then |waiting| else room;
    Outcome(came + waiting[..back], Marked(pending, held, false), waiting[back..])
  }

  /** The queue between the routes and the UI thread, with the history of what became of everything
      ever accepted. */
  class OpQueue {
    var pending: seq<Request>
    var serial: nat
    ghost var accepted: seq<Request>
    ghost var applied: seq<Request>
    ghost var dropped: seq<Request>

    /** Every accepted request is waiting, applied or dropped, and is so once; no two are the same. */
    ghost predicate Valid()
      reads this
    {
      && |pending| <= MAX_PENDING && |accepted| == serial
      && (forall i :: 0 <= i < |accepted| ==> accepted[i].serial == i)
      && multiset(accepted) == multiset(pending) + multiset(applied) + multiset(dropped)
    }

    constructor ()
      ensures Valid() && pending == [] && accepted == [] && applied == [] && dropped == []
    {
      pending, serial, accepted, applied, dropped := [], 0, [], [], [];
    }

    /** Queues a request at the back, or refuses it when the queue is full. */
    method Push(r: Request) returns (ok: bool)
      modifies `pending
      ensures ok <==> |old(pending)| < 256
      ensures pending == if ok then old(pending) + [r] else old(pending)
    {
      if |pending| >= MAX_PENDING { return false; }
      pending := pending + [r];
      ok := true;
    }

    method Drain() returns (ops: seq<Request>)
      modifies `pending
      ensures pending == [] && ops == old(pending)
    {
      ops := pending;
      pending := [];
    }

    /** So no two requests waiting are the same, whatever has happened. */
    lemma WaitingApart()
      requires Valid()
      ensures NoRepeats(pending)
    {
      PendingNoRepeats(accepted, pending, applied, dropped);
    }

    /** A route hands in an operation. */
    method Accept(op: Op) returns (ok: bool)
      requires Valid()
      modifies this
      ensures Valid() && applied == old(applied) && dropped == old(dropped)
      ensures ok <==> |old(pending)| < MAX_PENDING
      ensures accepted == if ok then old(accepted) + [Request(old(serial), op)] else old(accepted)
      ensures pending == if ok then old(pending) + [Request(old(serial), op)] else old(pending)
    {
      var r := Request(serial, op);
      ok := Push(r);
      if ok {
        serial := serial + 1;
        accepted := accepted + [r];
      }
    }

    /** Pushes as many of `rs` as fit, in order, and says how many. */
    method PushAll(rs: seq<Request>) returns (n: nat)
      requires |pending| <= MAX_PENDING
      modifies `pending
      ensures n == if |rs| <= MAX_PENDING - |old(pending)| then |rs| else MAX_PENDING - |old(pending)|
      ensures pending == old(pending) + rs[..n]
    {
      n := 0;
      var fits := true;
      for i := 0 to |rs|
        invariant n <= i && n <= MAX_PENDING - |old(pending)|
        invariant pending == old(pending) + rs[..n]
        invariant fits ==> n == i
        invariant !fits ==> |pending| == MAX_PENDING
      {
        var ok := Push(rs[i]);
        if ok {
          assert rs[..i + 1] == rs[..i] + [rs[i]];
          n := n + 1;
        } else {
          fits := false;
        }
      }
    }

    /** One tick. The requests whose turn finds them free are applied in queue order; the held ones
        go back behind whatever came in meanwhile, and are dropped where the queue is full. */
    method ApplyUiOps(tick: Tick) returns (ghost came: seq<Request>)
      requires Valid() && |tick.held| == |pending|
      modifies this
      ensures Valid()
      ensures came <= Numbered(tick.meanwhile, old(serial)) && |came| <= MAX_PENDING
      ensures |came| < MAX_PENDING ==> |came| == |tick.meanwhile|
      ensures accepted == old(accepted) + came
      ensures var o := Ticked(old(pending), tick.held, came);
        && pending == o.pending && applied == old(applied) + o.applied && dropped == old(dropped) + o.dropped
        && forall i :: 0 <= i < |old(pending)| ==> Fares(o, old(pending)[i], tick.held[i])
    {
      WaitingApart();
      PendingNumbered(accepted, pending, applied, dropped);
      came := Requeue(tick);
      assert forall a :: a in came ==> a.serial >= old(serial);
      hide Marked, Ticked, Numbered;
      ghost var ops, o := old(pending), Ticked(old(pending), tick.held, came);
      HeldNotDroppedIff(ops, tick.held, came);
      FateIsOwn(ops, tick.held, came);
      hide Fares, Precedes, NoRepeats;
      Conserved(old(accepted), ops, old(applied), old(dropped), came, o);
      NumberedOn(old(accepted), tick.meanwhile, came);
      accepted := accepted + came;
      applied := applied + o.applied;
      dropped := dropped + o.dropped;
    }

    /** The queue's side of a tick. */
    method Requeue(tick: Tick) returns (ghost came: seq<Request>)
      requires |tick.held| == |pending| <= MAX_PENDING
      modifies `pending, `serial
      ensures came <= Numbered(tick.meanwhile, old(serial)) && |came| <= MAX_PENDING
      ensures |came| < MAX_PENDING ==> |came| == |tick.meanwhile|
      ensures serial == old(serial) + |came|
      ensures pending == Ticked(old(pending), tick.held, came).pending && |pending| <= MAX_PENDING
    {
      hide Marked, Ticked;
      var ops := Drain();
      var held := StillHeld(ops, tick.held);
      var meanwhile := Numbered(tick.meanwhile, serial);
      var n := PushAll(meanwhile);
      came := meanwhile[..n];
      serial := serial + n;
      assert pending == came;
      var back := PushAll(held);
      HeldGoesBehind(ops, tick.held, came, back);
    }

    /** The drained requests that must wait; the others are applied on the way. */
    method StillHeld(ops: seq<Request>, marks: seq<bool>) returns (held: seq<Request>)
      requires |marks| == |ops|
      ensures held == Marked(ops, marks, true)
    {
      held := [];
      for i := 0 to |ops|
        invariant held == Marked(ops[..i], marks[..i], true)
      {
        assert ops[..i + 1][..i] == ops[..i] && marks[..i + 1][..i] == marks[..i];
        if marks[i] { held := held + [ops[i]]; }
      }
      assert ops[..|ops|] == ops && marks[..|ops|] == marks;
    }
  }

  lemma NumberedOn(accepted: seq<Request>, ops: seq<Op>, came: seq<Request>)
    requires forall i :: 0 <= i < |accepted| ==> accepted[i].serial == i
    requires came <= Numbered(ops, |accepted|)
    ensures forall i :: 0 <= i < |accepted + came| ==> (accepted + came)[i].serial == i
  {
  }

  lemma HeldGoesBehind(pending: seq<Request>, held: seq<bool>, came: seq<Request>, back: nat)
    requires |held| == |pending| && |came| <= MAX_PENDING
    requires var waiting := Marked(pending, held, true);
      back == if |waiting| <= MAX_PENDING - |came| then |waiting| else MAX_PENDING - |came|
    ensures Ticked(pending, held, came).pending == came + Marked(pending, held, true)[..back]
  {
  }

  lemma Conserved(accepted: seq<Request>, pending: seq<Request>, applied: seq<Request>, dropped: seq<Request>,
                  came: seq<Request>, o: Outcome)
    requires multiset(accepted) == multiset(pending) + multiset(applied) + multiset(dropped)
    requires multiset(pending) + multiset(came) == multiset(o.pending) + multiset(o.applied) + multiset(o.dropped)
    ensures multiset(accepted + came) == multiset(o.pending) + multiset(applied + o.applied) + multiset(dropped + o.dropped)
  {
    assert multiset(applied + o.applied) == multiset(applied) + multiset(o.applied);
    assert multiset(dropped + o.dropped) == multiset(dropped) + multiset(o.dropped);
    var a, p, d, r := multiset(accepted), multiset(pending), multiset(applied), multiset(dropped);
    var c, p', d', r' := multiset(came), multiset(o.pending), multiset(o.applied), multiset(o.dropped);
    forall x ensures (a + c)[x] == (p' + (d + d') + (r + r'))[x] {
      assert a[x] == p[x] + d[x] + r[x] && p[x] + c[x] == p'[x] + d'[x] + r'[x] by {
        assert a[x] == (p + d + r)[x] && (p + c)[x] == (p' + d' + r')[x];
      }
    }
    assert multiset(accepted + came) == a + c;
  }

  // ---- what a tick means for the requests ----

  /** A tick drops nothing exactly when what came in meanwhile leaves room for what is held; then
      each drained request is applied or waits on, and requests held together keep their order. */
  lemma HeldNotDroppedIff(pending: seq<Request>, held: seq<bool>, came: seq<Request>)
    requires |held| == |pending| && |came| <= MAX_PENDING
    ensures var o := Ticked(pending, held, came);
      && (o.dropped == [] <==> |came| + |Marked(pending, held, true)| <= 256) && |o.pending| <= 256
      && multiset(pending) + multiset(came) == multiset(o.pending) + multiset(o.applied) + multiset(o.dropped)
  {
    hide Marked;
    var waiting := Marked(pending, held, true);
    var o := Ticked(pending, held, came);
    MarkedSplits(pending, held);
    var back := |waiting| - |o.dropped|;
    assert waiting == waiting[..back] + waiting[back..];
  }

  /** One tick puts two requests that wait through it in no new order. */
  lemma TickKeepsOrder(pending: seq<Request>, held: seq<bool>, came: seq<Request>, a: Request, b: Request)
    requires |held| == |pending| && |came| <= MAX_PENDING
    requires a !in came && b !in came && Precedes(Ticked(pending, held, came).pending, a, b)
    ensures Precedes(pending, a, b)
  {
    var o, waiting := Ticked(pending, held, came), Marked(pending, held, true);
    var i, j :| 0 <= i < j < |o.pending| && o.pending[i] == a && o.pending[j] == b;
    assert forall k :: 0 <= k < |came| ==> o.pending[k] in came;
    assert waiting[i - |came|] == a && waiting[j - |came|] == b;
    MarkedKeepsOrder(pending, held, true, a, b);
  }

  lemma TickKeeps(pending: seq<Request>, held: seq<bool>, came: seq<Request>, a: Request)
    requires |held| == |pending| && |came| <= MAX_PENDING
    requires a !in came && a in Ticked(pending, held, came).pending
    ensures a in pending
  {
    MarkedFrom(pending, held, true, a);
  }

  /** Which drained requests one of several ticks holds back, and what came in during it. */
  datatype Round = Round(held: seq<bool>, came: seq<Request>)

  ghost predicate Fits(pending: seq<Request>, rounds: seq<Round>)
    decreases |rounds|
  {
    rounds == [] ||
    (&& |rounds[0].held| == |pending| && |rounds[0].came| <= MAX_PENDING
     && Fits(Ticked(pending, rounds[0].held, rounds[0].came).pending, rounds[1..]))
  }

  /** The queue after several ticks. */
  ghost function AfterRounds(pending: seq<Request>, rounds: seq<Round>): seq<Request>
    requires Fits(pending, rounds)
    decreases |rounds|
  {
    if rounds == [] then pending
    else AfterRounds(Ticked(pending, rounds[0].held, rounds[0].came).pending, rounds[1..])
  }

  ghost predicate ComesIn(rounds: seq<Round>, a: Request) {
    exists i :: 0 <= i < |rounds| && a in rounds[i].came
  }

  lemma {:induction false} WaitsThrough(pending: seq<Request>, rounds: seq<Round>, a: Request)
    requires Fits(pending, rounds) && !ComesIn(rounds, a) && a in AfterRounds(pending, rounds)
    ensures a in pending
    decreases |rounds|
  {
    if rounds != [] {
      assert forall i :: 0 <= i < |rounds[1..]| ==> rounds[1..][i] == rounds[i + 1];
      WaitsThrough(Ticked(pending, rounds[0].held, rounds[0].came).pending, rounds[1..], a);
      TickKeeps(pending, rounds[0].held, rounds[0].came, a);
    }
  }

  /** Over any number of ticks two requests that were waiting together before, and still are after,
      stand in the order they stood in. */
  lemma {:induction false} HeldTogetherKeepOrder(pending: seq<Request>, rounds: seq<Round>, a: Request, b: Request)
    requires Fits(pending, rounds) && NoRepeats(pending) && !ComesIn(rounds, a) && !ComesIn(rounds, b) && a != b
    requires a in AfterRounds(pending, rounds) && b in AfterRounds(pending, rounds)
    ensures Precedes(pending, a, b) <==> Precedes(AfterRounds(pending, rounds), a, b)
  {
    BackThrough(pending, rounds, a, b);
    BackThrough(pending, rounds, b, a);
    Either(AfterRounds(pending, rounds), a, b);
  }

  lemma {:induction false} BackThrough(pending: seq<Request>, rounds: seq<Round>, a: Request, b: Request)
    requires Fits(pending, rounds) && !ComesIn(rounds, a) && !ComesIn(rounds, b)
    ensures Precedes(AfterRounds(pending, rounds), a, b) ==> Precedes(pending, a, b)
    decreases |rounds|
  {
    if rounds != [] && Precedes(AfterRounds(pending, rounds), a, b) {
      assert forall i :: 0 <= i < |rounds[1..]| ==> rounds[1..][i] == rounds[i + 1];
      BackThrough(Ticked(pending, rounds[0].held, rounds[0].came).pending, rounds[1..], a, b);
      TickKeepsOrder(pending, rounds[0].held, rounds[0].came, a, b);
    }
  }

  lemma Either(s: seq<Request>, a: Request, b: Request)
    requires a in s && b in s && a != b
    ensures Precedes(s, a, b) || Precedes(s, b, a)
  {
    var i :| 0 <= i < |s| && s[i] == a;
    var j :| 0 <= j < |s| && s[j] == b;
  }

  ghost predicate NoRepeats(s: seq<Request>) {
    forall i, j :: 0 <= i < j < |s| ==> s[i] != s[j]
  }

  /** In a queue of numbered requests none waits twice. */
  lemma PendingNoRepeats(accepted: seq<Request>, pending: seq<Request>, applied: seq<Request>, dropped: seq<Request>)
    requires forall i :: 0 <= i < |accepted| ==> accepted[i].serial == i
    requires multiset(accepted) == multiset(pending) + multiset(applied) + multiset(dropped)
    ensures NoRepeats(pending)
  {
    forall i, j | 0 <= i < j < |pending| ensures pending[i] != pending[j] {
      if pending[i] == pending[j] {
        var x := pending[i];
        CountedTwice(pending, i, j);
        assert multiset(pending)[x] <= (multiset(pending) + multiset(applied) + multiset(dropped))[x];
        CountedOnce(accepted, x);
      }
    }
  }

  lemma PendingNumbered(accepted: seq<Request>, pending: seq<Request>, applied: seq<Request>, dropped: seq<Request>)
    requires forall i :: 0 <= i < |accepted| ==> accepted[i].serial == i
    requires multiset(accepted) == multiset(pending) + multiset(applied) + multiset(dropped)
    ensures forall a :: a in pending ==> a.serial < |accepted|
  {
    forall a | a in pending ensures a.serial < |accepted| {
      assert multiset(pending)[a] <= multiset(accepted)[a];
      CountedOnce(accepted, a);
    }
  }

  lemma CountedTwice(s: seq<Request>, i: nat, j: nat)
    requires i < j < |s| && s[i] == s[j]
    ensures multiset(s)[s[i]] >= 2
  {
    assert s == s[..i] + [s[i]] + s[i + 1..j] + [s[j]] + s[j + 1..];
  }

  lemma {:induction false} CountedOnce(accepted: seq<Request>, x: Request)
    requires forall i :: 0 <= i < |accepted| ==> accepted[i].serial == i
    ensures multiset(accepted)[x] <= 1
    ensures x.serial >= |accepted| ==> multiset(accepted)[x] == 0
  {
    if accepted != [] {
      var init := accepted[..|accepted| - 1];
      CountedOnce(init, x);
      assert accepted == init + [accepted[|accepted| - 1]];
    }
  }

  /** But a request that comes in while another is held goes before it, whenever that was accepted. */
  lemma NewcomersOvertake(pending: seq<Request>, held: seq<bool>, came: seq<Request>, a: Request, b: Request)
    requires |held| == |pending| && |came| <= MAX_PENDING
    requires a in Ticked(pending, held, came).pending && a !in came && b in came
    ensures Precedes(Ticked(pending, held, came).pending, b, a)
  {
    var o := Ticked(pending, held, came);
    var i :| 0 <= i < |came| && came[i] == b;
    var j :| 0 <= j < |o.pending| && o.pending[j] == a;
    assert forall k :: 0 <= k < |came| ==> o.pending[k] == came[k];
  }

  /** A request's own mark decides what becomes of it, whatever the others' are. */
  lemma {:induction false} MarkedIff(s: seq<Request>, marks: seq<bool>, keep: bool)
    requires |marks| == |s| && NoRepeats(s)
    ensures forall i :: 0 <= i < |s| ==> (s[i] in Marked(s, marks, keep) <==> marks[i] == keep)
    ensures forall a :: a in Marked(s, marks, keep) ==> a in s
  {
    if s != [] {
      var init, m := s[..|s| - 1], marks[..|s| - 1];
      MarkedIff(init, m, keep);
      assert forall i :: 0 <= i < |init| ==> init[i] == s[i] && m[i] == marks[i];
      var last := if marks[|s| - 1] == keep then [s[|s| - 1]] else [];
      forall i | 0 <= i < |s| ensures s[i] in Marked(s, marks, keep) <==> marks[i] == keep {
        assert s[i] in Marked(s, marks, keep) <==> s[i] in Marked(init, m, keep) || s[i] in last;
        if i < |init| { assert init[i] == s[i]; }
      }
    }
  }

  lemma {:induction false} MarkedInOrder(s: seq<Request>, marks: seq<bool>, keep: bool, i: nat, j: nat)
    requires |marks| == |s| && i < j < |s| && marks[i] == keep && marks[j] == keep
    ensures Precedes(Marked(s, marks, keep), s[i], s[j])
  {
    var init, m := s[..|s| - 1], marks[..|s| - 1];
    var kept := Marked(init, m, keep);
    if j < |init| {
      MarkedInOrder(init, m, keep, i, j);
      var k, l :| 0 <= k < l < |kept| && kept[k] == init[i] && kept[l] == init[j];
      assert Marked(s, marks, keep)[k] == s[i] && Marked(s, marks, keep)[l] == s[j];
    } else {
      MarkedKeeps(init, m, keep, i);
      var k :| 0 <= k < |kept| && kept[k] == s[i];
      assert Marked(s, marks, keep) == kept + [s[j]];
      assert Marked(s, marks, keep)[k] == s[i] && Marked(s, marks, keep)[|kept|] == s[j];
    }
  }

  lemma {:induction false} MarkedKeeps(s: seq<Request>, marks: seq<bool>, keep: bool, i: nat)
    requires |marks| == |s| && i < |s| && marks[i] == keep
    ensures s[i] in Marked(s, marks, keep)
  {
    if i < |s| - 1 { MarkedKeeps(s[..|s| - 1], marks[..|s| - 1], keep, i); }
  }

  /** The request is in `o` where it belongs: applied when free, else waiting on or dropped. */
  ghost predicate Fares(o: Outcome, a: Request, held: bool) {
    (a in o.applied <==> !held) && (a in o.pending || a in o.dropped <==> held)
  }

  /** So each drained request is applied exactly when it was free when its turn came, and waits on or is
      dropped exactly when it was held; what is applied, and what waits, keeps the queue's order. */
  lemma FateIsOwn(pending: seq<Request>, held: seq<bool>, came: seq<Request>)
    requires |held| == |pending| && |came| <= MAX_PENDING && NoRepeats(pending) && forall a :: a in came ==> a !in pending
    ensures var o := Ticked(pending, held, came);
      && (forall i :: 0 <= i < |pending| ==> Fares(o, pending[i], held[i]))
      && (forall a :: a in came ==> a in o.pending && a !in o.applied && a !in o.dropped)
      && (forall i, j :: 0 <= i < j < |pending| && !held[i] && !held[j] ==> Precedes(o.applied, pending[i], pending[j]))
      && (forall i, j :: 0 <= i < j < |pending| && held[i] && held[j] ==> Precedes(o.pending + o.dropped, pending[i], pending[j]))
  {
    var o, waiting := Ticked(pending, held, came), Marked(pending, held, true);
    MarkedIff(pending, held, true);
    MarkedIff(pending, held, false);
    var back := |waiting| - |o.dropped|;
    assert waiting == waiting[..back] + waiting[back..];
    forall i | 0 <= i < |pending| ensures Fares(o, pending[i], held[i]) {
      assert pending[i] in waiting <==> pending[i] in waiting[..back] || pending[i] in waiting[back..];
    }
    forall a | a in came ensures a in o.pending && a !in o.applied && a !in o.dropped {
      assert a in waiting[back..] ==> a in waiting;
    }
    forall i, j | 0 <= i < j < |pending| && !held[i] && !held[j] ensures Precedes(o.applied, pending[i], pending[j]) {
      MarkedInOrder(pending, held, false, i, j);
    }
    forall i, j | 0 <= i < j < |pending| && held[i] && held[j] ensures Precedes(o.pending + o.dropped, pending[i], pending[j]) {
      MarkedInOrder(pending, held, true, i, j);
      var k, l :| 0 <= k < l < |waiting| && waiting[k] == pending[i] && waiting[l] == pending[j];
      assert o.pending + o.dropped == came + waiting;
      assert (o.pending + o.dropped)[|came| + k] == pending[i] && (o.pending + o.dropped)[|came| + l] == pending[j];
    }
  }

  /** While the human is active a drained operation is applied exactly when it neither moves the focus
      nor touches a tab some window shows. */
  lemma BusyTick(pending: seq<Request>, held: seq<bool>, came: seq<Request>, windows: seq<seq<Window>>, i: nat)
    requires |held| == |pending| == |windows| && |came| <= MAX_PENDING && NoRepeats(pending) && forall a :: a in came ==> a !in pending
    requires i < |pending| && held[i] == Held(pending[i].op, windows[i], true)
    requires forall k, l :: 0 <= k < l < |windows[i]| ==> windows[i][k].id != windows[i][l].id
    ensures var o, op := Ticked(pending, held, came), pending[i].op;
      pending[i] in o.applied <==> !op.FocusTab? && forall w :: w in windows[i] ==> !Touches(op, w)
  {
    FateIsOwn(pending, held, came);
    assert Fares(Ticked(pending, held, came), pending[i], held[i]);
    OtherTabsCarryOn(pending[i].op, windows[i], true);
  }

  /** While the human is idle nothing waits: the tick applies everything it drained, in order, and
      only what came in meanwhile is left. */
  lemma IdleTickEmpties(pending: seq<Request>, held: seq<bool>, came: seq<Request>, windows: seq<seq<Window>>)
    requires |held| == |pending| == |windows| && |came| <= MAX_PENDING
    requires forall i :: 0 <= i < |pending| ==> held[i] == Held(pending[i].op, windows[i], false)
    ensures Ticked(pending, held, came) == Outcome(came, pending, [])
  {
    MarkedAll(pending, held, false);
    assert came + [] == came;
  }

  /** An operation waits exactly when the human is active and it would move the focus or touch the tab
      some window shows; operations on other tabs carry on. */
  lemma OtherTabsCarryOn(op: Op, windows: seq<Window>, humanActive: bool)
    requires forall i, j :: 0 <= i < j < |windows| ==> windows[i].id != windows[j].id
    ensures Held(op, windows, humanActive) <==>
      humanActive && (op.FocusTab? || exists w :: w in windows && Touches(op, w))
  {
    if Held(op, windows, humanActive) && !op.FocusTab? {
      if (op.MoveTab? || op.SetTabLayout? || op.MovePane?) && NamesActiveTab(windows, op.tab) {
        var w := WindowById(windows, op.tab.window).value;
        assert w in windows && Touches(op, w);
      } else {
        var i :| 0 <= i < |windows| && windows[i].active < |windows[i].tabs| && op.uid in windows[i].tabs[windows[i].active];
        assert Touches(op, windows[i]);
      }
    }
    if humanActive && !op.FocusTab? {
      if w :| w in windows && Touches(op, w) {
        OneById(windows, w);
        var i :| 0 <= i < |windows| && windows[i] == w;
      }
    }
  }

  lemma OneById(windows: seq<Window>, w: Window)
    requires forall i, j :: 0 <= i < j < |windows| ==> windows[i].id != windows[j].id
    requires w in windows
    ensures WindowById(windows, w.id) == Some(w)
  {
    var r := WindowById(windows, w.id);
    var i :| 0 <= i < |windows| && windows[i] == w;
    var j :| 0 <= j < |windows| && windows[j] == r.value;
  }

  /** The operation would change the tab that `w` shows. */
  predicate Touches(op: Op, w: Window) {
    && w.active < |w.tabs|
    && match op
       case FocusTab(tab) => tab.window == w.id
       case MoveTab(tab) => tab == TabId(w.id, w.active)
       case SetTabLayout(tab) => tab == TabId(w.id, w.active)
       case MovePane(uid, tab) => tab == TabId(w.id, w.active) || uid in w.tabs[w.active]
       case MovePaneToNewTab(uid) => uid in w.tabs[w.active]
       case Immediate(_) => false
  }
}
