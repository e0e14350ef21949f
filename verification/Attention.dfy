/** The per-pane attention flag: lit when the AI in a pane stops unseen, cleared when the human has
    watched the pane for two unbroken seconds, touched it, or the manager cleared it. Clocks are
    naturals handed in with each frame; `now` is the monotonic one. */
module Attention {
  import opened Wrappers

  const SEEN_AFTER := 2000
  const CHECKED_GRACE := 2000
  const BUSY := 1
  const AWAITING := 2
  const ERROR := 4

  datatype Checked = Checked(who: string, atMs: nat)

  datatype Tick = Tick(enabled: bool, ai: bool, errorsOnly: bool, hasHook: bool, watching: bool,
                       turnEndMs: Option<nat>, liveness: int, lastOutputMs: Option<nat>,
                       quietMs: nat, nowMs: nat, now: nat)

  /** The state of one pane's flag. */
  datatype Glow = Glow(needs: bool, checked: Option<Checked>, stops: nat, seenSince: Option<nat>,
                       bornMs: Option<nat>, turnEndMs: Option<nat>, hooked: bool,
                       lastLiveness: int, worked: bool, quietMark: Option<nat>)
  {
    /** What a surface draws. */
    function Shown(): (bool, Option<Checked>) {
      (needs, checked)
    }
  }

  function Restored(unseen: bool): Glow {
    Glow(unseen, None, 0, None, None, None, false, 0, false, None)
  }

  // ---- what one frame means ----

  function Born(g: Glow, t: Tick): nat {
    g.bornMs.UnwrapOr(t.nowMs)
  }

  /** The stop hook reports a turn end newer than every one before it, or than the pane itself. */
  predicate HookStop(g: Glow, t: Tick) {
    t.turnEndMs.Some? && t.turnEndMs.value > g.turnEndMs.UnwrapOr(Born(g, t))
  }

  predicate LivenessStop(g: Glow, t: Tick) {
    t.liveness != g.lastLiveness && (t.liveness == ERROR || (t.liveness == AWAITING && !t.errorsOnly))
  }

  predicate StartsWork(g: Glow, t: Tick) {
    t.liveness != g.lastLiveness && t.liveness == BUSY
  }

  predicate Hooked(g: Glow, t: Tick) {
    g.hooked || t.hasHook || t.turnEndMs.Some?
  }

  predicate Worked(g: Glow, t: Tick) {
    g.worked || StartsWork(g, t)
  }

  /** The quiet timer stands in only for a pane with no hook, and has output to time. */
  predicate TimerRuns(g: Glow, t: Tick) {
    !t.errorsOnly && !Hooked(g, t) && t.lastOutputMs.Some?
  }

  predicate QuietFor(t: Tick, out: nat) {
    (if out <= t.nowMs then t.nowMs - out else 0) >= t.quietMs
  }

  predicate QuietStop(g: Glow, t: Tick) {
    && TimerRuns(g, t) && Worked(g, t) && QuietFor(t, t.lastOutputMs.value)
    && (g.quietMark.None? || t.lastOutputMs.value > g.quietMark.value)
  }

  predicate Stops(g: Glow, t: Tick) {
    if t.errorsOnly then (HookStop(g, t) || LivenessStop(g, t)) && t.liveness == ERROR
    else HookStop(g, t) || LivenessStop(g, t) || QuietStop(g, t)
  }

  predicate Lights(g: Glow, t: Tick) {
    t.enabled && t.ai && Stops(g, t) && !t.watching && !g.needs
  }

  function MaxEnd(t: Tick, seen: Option<nat>): Option<nat> {
    match t.turnEndMs
    case None => seen
    case Some(end) => if seen.Some? && seen.value > end then seen else Some(end)
  }

  /** The note goes when the pane works again: it turned busy, or printed well after the clear. */
  function NoteAfterWork(g: Glow, t: Tick): Option<Checked> {
    if StartsWork(g, t) then None
    else
      match (g.checked, t.lastOutputMs)
      case (Some(c), Some(out)) => if out > c.atMs + CHECKED_GRACE then None else g.checked
      case _ => g.checked
  }

  function SeenSince(g: Glow, t: Tick): Option<nat> {
    if t.enabled && t.watching then Some(g.seenSince.UnwrapOr(t.now)) else None
  }

  predicate LookedLongEnough(g: Glow, t: Tick) {
    var since := g.seenSince.UnwrapOr(t.now);
    t.watching && since + SEEN_AFTER <= t.now
  }

  /** Everything a frame records apart from the flag and the looking. */
  function Observed(g: Glow, t: Tick): Glow {
    g.(checked := NoteAfterWork(g, t),
       bornMs := Some(Born(g, t)),
       turnEndMs := MaxEnd(t, g.turnEndMs),
       hooked := Hooked(g, t),
       lastLiveness := t.liveness,
       worked := Worked(g, t) || (TimerRuns(g, t) && QuietFor(t, t.lastOutputMs.value)),
       quietMark := if TimerRuns(g, t) && (!Worked(g, t) || QuietStop(g, t)) then t.lastOutputMs else g.quietMark)
  }

  function Stepped(g: Glow, t: Tick): Glow {
    var lit := t.enabled && (g.needs || Lights(g, t));
    Observed(g, t).(
      needs := lit && !LookedLongEnough(g, t),
      checked := if t.enabled && t.ai && Stops(g, t) then None else NoteAfterWork(g, t),
      stops := if Lights(g, t) then g.stops + 1 else g.stops,
      seenSince := SeenSince(g, t))
  }

  function Touched(g: Glow): Glow {
    g.(needs := false, worked := true)
  }

  function ManagerCleared(g: Glow, who: string, atMs: nat): Glow {
    if g.needs then g.(needs := false, checked := Some(Checked(who, atMs))) else g
  }

  // ---- the flag itself ----

  class Attention {
    var needs: bool
    var checked: Option<Checked>
    var stops: nat
    var seenSince: Option<nat>
    var bornMs: Option<nat>
    var turnEndMs: Option<nat>
    var hooked: bool
    var lastLiveness: int
    var worked: bool
    var quietMark: Option<nat>

    function View(): Glow
      reads this
    {
      Glow(needs, checked, stops, seenSince, bornMs, turnEndMs, hooked, lastLiveness, worked, quietMark)
    }

    constructor (unseen: bool)
      ensures View() == Restored(unseen)
    {
      needs, checked, stops, seenSince := unseen, None, 0, None;
      bornMs, turnEndMs, hooked, lastLiveness := None, None, false, 0;
      worked, quietMark := false, None;
    }

    /** The hook's part of a frame. */
    method ObserveHook(t: Tick) returns (stopped: bool)
      modifies this
      ensures stopped == HookStop(old(View()), t)
      ensures View() == old(View()).(
        bornMs := Some(Born(old(View()), t)), hooked := Hooked(old(View()), t), turnEndMs := MaxEnd(t, old(View()).turnEndMs))
    {
      if bornMs.None? { bornMs := Some(t.nowMs); }
      stopped := false;
      hooked := hooked || t.hasHook;
      if t.turnEndMs.Some? {
        var end := t.turnEndMs.value;
        hooked := true;
        if end > turnEndMs.UnwrapOr(bornMs.value) { stopped := true; }
        turnEndMs := Some(if turnEndMs.UnwrapOr(0) > end then turnEndMs.value else end);
      }
    }

    /** The liveness code's part of a frame. */
    method ObserveLiveness(t: Tick) returns (stopped: bool)
      modifies this
      ensures stopped == LivenessStop(old(View()), t)
      ensures View() == old(View()).(
        worked := Worked(old(View()), t), lastLiveness := t.liveness,
        checked := if StartsWork(old(View()), t) then None else old(checked))
    {
      stopped := false;
      if t.liveness != lastLiveness {
        if t.liveness == ERROR || (t.liveness == AWAITING && !t.errorsOnly) { stopped := true; }
        if t.liveness == BUSY {
          worked := true;
          checked := None;
        }
        lastLiveness := t.liveness;
      }
    }

    /** The quiet timer's part, for a pane that no hook speaks for. */
    method ObserveQuiet(out: nat, t: Tick) returns (stopped: bool)
      modifies this
      ensures stopped == (old(worked) && QuietFor(t, out) && (old(quietMark).None? || out > old(quietMark).value))
      ensures View() == old(View()).(
        worked := old(worked) || QuietFor(t, out),
        quietMark := if !old(worked) || stopped then Some(out) else old(quietMark))
    {
      stopped := false;
      var unseenOutput := quietMark.None? || out > quietMark.value;
      if !worked {
        quietMark := Some(out);
        if QuietFor(t, out) { worked := true; }
      } else if unseenOutput && QuietFor(t, out) {
        stopped := true;
        quietMark := Some(out);
      }
    }

    /** Folds one frame's observations in, up to but not including the flag: whether the AI stopped,
        and what the frame leaves of the note. */
    method Observe(t: Tick) returns (stopped: bool)
      modifies this
      ensures stopped == Stops(old(View()), t)
      ensures View() == Observed(old(View()), t)
    {
      stopped := ObserveHook(t);
      var live := ObserveLiveness(t);
      stopped := stopped || live;
      if t.errorsOnly {
        stopped := stopped && t.liveness == ERROR;
      } else if !hooked && t.lastOutputMs.Some? {
        var quiet := ObserveQuiet(t.lastOutputMs.value, t);
        stopped := stopped || quiet;
      }
      if checked.Some? && t.lastOutputMs.Some? && t.lastOutputMs.value > checked.value.atMs + CHECKED_GRACE {
        checked := None;
      }
    }

    /** One frame. Says whether anything a surface draws has changed. */
    method Step(t: Tick) returns (changed: bool)
      modifies this
      ensures View() == Stepped(old(View()), t)
      ensures changed <==> View().Shown() != old(View().Shown())
    {
      hide Stops;
      var before := (needs, checked);
      var stopped := Observe(t);
      if !t.enabled {
        needs := false;
        seenSince := None;
        return before != (needs, checked);
      }
      if stopped && t.ai {
        checked := None;
        if !t.watching && !needs {
          needs := true;
          stops := stops + 1;
        }
      }
      if t.watching {
        if seenSince.None? { seenSince := Some(t.now); }
        if needs && seenSince.value + SEEN_AFTER <= t.now { needs := false; }
      } else {
        seenSince := None;
      }
      changed := before != (needs, checked);
    }

    method Touch()
      modifies this
      ensures View() == Touched(old(View()))
    {
      needs := false;
      worked := true;
    }

    method ManagerClear(who: string, atMs: nat) returns (was: bool)
      modifies this
      ensures View() == ManagerCleared(old(View()), who, atMs) && was == old(needs)
    {
      if !needs { return false; }
      needs := false;
      checked := Some(Checked(who, atMs));
      was := true;
    }
  }

  // ---- whole runs ----

  datatype Event = Frame(t: Tick) | Touch | Clear(who: string, atMs: nat)

  function After(g: Glow, e: Event): Glow {
    match e
    case Frame(t) => Stepped(g, t)
    case Touch => Touched(g)
    case Clear(who, atMs) => ManagerCleared(g, who, atMs)
  }

  /** `run` is the pane's history from its restoration: any events, on a clock that never goes
      back. */
  ghost predicate IsRun(run: seq<Glow>, events: seq<Event>) {
    && |run| == |events| + 1
    && (exists unseen :: run[0] == Restored(unseen))
    && (forall i :: 0 <= i < |events| ==> run[i + 1] == After(run[i], events[i]))
    && (forall i, j :: 0 <= i < j < |events| && events[i].Frame? && events[j].Frame? ==> events[i].t.now <= events[j].t.now)
  }

  /** The human could see the pane in every frame from `from` up to `to`, with the setting on. */
  ghost predicate Watched(events: seq<Event>, from: int, to: int)
    requires 0 <= from <= to <= |events|
  {
    forall k :: from <= k < to && events[k].Frame? ==> events[k].t.watching && events[k].t.enabled
  }

  /** The stretch that `seenSince` records: it began with a watched frame, was not broken since, and
      a flag still lit now was lit before it began. */
  lemma {:induction false} Stretch(run: seq<Glow>, events: seq<Event>, n: nat) returns (j: nat)
    requires IsRun(run, events) && n <= |events| && run[n].seenSince.Some?
    ensures j < n && events[j].Frame? && events[j].t.now == run[n].seenSince.value
    ensures Watched(events, j, n)
    ensures run[n].needs ==> forall k :: j <= k <= n ==> run[k].needs
  {
    var e := events[n - 1];
    assert run[n] == After(run[n - 1], e);
    if e.Frame? && run[n - 1].seenSince.None? {
      j := n - 1;
    } else {
      j := Stretch(run, events, n - 1);
    }
  }

  /** Two unbroken seconds of looking that began with the flag already lit end in frame `i`. */
  ghost predicate SeenThrough(run: seq<Glow>, events: seq<Event>, j: int, i: int)
    requires |run| == |events| + 1
  {
    && 0 <= j < i < |events| && events[i].Frame? && events[j].Frame?
    && Watched(events, j, i + 1)
    && events[j].t.now + 2000 <= events[i].t.now
    && forall k :: j <= k <= i ==> run[k].needs
  }

  /** A glow ends in four ways only: a touch, the manager, the setting switched off, or two unbroken
      seconds of looking that began after the stop that lit it. */
  lemma GlowEndsOnlySeen(run: seq<Glow>, events: seq<Event>, i: nat)
    requires IsRun(run, events) && i < |events| && run[i].needs && !run[i + 1].needs
    ensures events[i].Frame? && events[i].t.enabled ==> exists j :: SeenThrough(run, events, j, i)
  {
    assert run[i + 1] == After(run[i], events[i]);
    if events[i].Frame? && events[i].t.enabled {
      assert run[i].seenSince.Some?;
      var j := Stretch(run, events, i);
      assert SeenThrough(run, events, j, i);
    }
  }

  /** And two unbroken seconds always end it. */
  lemma LookingEndsGlow(run: seq<Glow>, events: seq<Event>, j: nat, i: nat)
    requires IsRun(run, events) && j <= i < |events| && events[j].Frame? && events[i].Frame?
    requires Watched(events, j, i + 1) && events[j].t.now + 2000 <= events[i].t.now
    ensures !run[i + 1].needs
  {
    SeenSinceHolds(run, events, j, i);
    assert run[i + 1] == After(run[i], events[i]);
  }

  lemma {:induction false} SeenSinceHolds(run: seq<Glow>, events: seq<Event>, j: nat, i: nat)
    requires IsRun(run, events) && j < i < |events| && events[j].Frame?
    requires Watched(events, j, i)
    ensures run[i].seenSince.Some? && run[i].seenSince.value <= events[j].t.now
  {
    assert run[i] == After(run[i - 1], events[i - 1]);
    if j < i - 1 {
      SeenSinceHolds(run, events, j, i - 1);
    } else if run[j].seenSince.Some? {
      var first := Stretch(run, events, j);
    }
  }

  // ---- counting stops ----

  function Rises(run: seq<Glow>, n: nat): nat
    requires n < |run|
  {
    if n == 0 then 0 else Rises(run, n - 1) + if !run[n - 1].needs && run[n].needs then 1 else 0
  }

  /** `stops` counts the rises of the flag, and only frames raise it. */
  lemma {:induction false} StopsCountsRises(run: seq<Glow>, events: seq<Event>, n: nat)
    requires IsRun(run, events) && n <= |events|
    ensures run[n].stops == Rises(run, n)
    ensures forall i :: 0 <= i < n && !run[i].needs && run[i + 1].needs ==> events[i].Frame? && Lights(run[i], events[i].t)
  {
    if n > 0 {
      StopsCountsRises(run, events, n - 1);
      assert run[n] == After(run[n - 1], events[n - 1]);
    }
  }

  predicate Reports(events: seq<Event>, i: int, end: nat) {
    0 <= i < |events| && events[i].Frame? && events[i].t.turnEndMs == Some(end)
  }

  /** What the flag remembers of the hook: the newest end reported so far, and its own birth. */
  lemma {:induction false} RemembersNewestEnd(run: seq<Glow>, events: seq<Event>, n: nat)
    requires IsRun(run, events) && n <= |events|
    ensures forall i, end: nat :: i < n && Reports(events, i, end) ==> run[n].turnEndMs.Some? && end <= run[n].turnEndMs.value
    ensures run[n].turnEndMs.Some? ==> exists i :: i < n && Reports(events, i, run[n].turnEndMs.value)
    ensures run[n].bornMs.Some? <==> exists i :: 0 <= i < n && events[i].Frame?
  {
    if n > 0 {
      RemembersNewestEnd(run, events, n - 1);
      assert run[n] == After(run[n - 1], events[n - 1]);
      if events[n - 1].Frame? {
        var t := events[n - 1].t;
        if t.turnEndMs.Some? { assert Reports(events, n - 1, t.turnEndMs.value); }
      }
    }
  }

  lemma {:induction false} BirthStays(run: seq<Glow>, events: seq<Event>, i: nat, n: nat)
    requires IsRun(run, events) && i <= n <= |events| && run[i].bornMs.Some?
    ensures run[n].bornMs == run[i].bornMs
  {
    if i < n {
      BirthStays(run, events, i, n - 1);
      assert run[n] == After(run[n - 1], events[n - 1]);
    }
  }

  /** A reported turn end is a stop exactly when it is newer than every end reported before it, and,
      when it is the first, newer than the pane. So each strict rise counts once. */
  lemma HookStopIsNewEnd(run: seq<Glow>, events: seq<Event>, i: nat, end: nat)
    requires IsRun(run, events) && Reports(events, i, end)
    ensures HookStop(run[i], events[i].t) <==>
      && (forall k, earlier: nat :: k < i && Reports(events, k, earlier) ==> earlier < end)
      && ((exists k, earlier: nat :: k < i && Reports(events, k, earlier)) || end > Born(run[i], events[i].t))
  {
    RemembersNewestEnd(run, events, i);
    if run[i].turnEndMs.Some? {
      var k :| k < i && Reports(events, k, run[i].turnEndMs.value);
    }
  }

  /** Stops from before the pane was known are meant not to count; one does exactly when an even
      older one had been reported first. */
  lemma OldStopCountsExactly(run: seq<Glow>, events: seq<Event>, i: nat, end: nat)
    requires IsRun(run, events) && Reports(events, i, end) && end <= Born(run[i], events[i].t)
    ensures HookStop(run[i], events[i].t) <==>
      && (exists k, earlier: nat :: k < i && Reports(events, k, earlier))
      && (forall k, earlier: nat :: k < i && Reports(events, k, earlier) ==> earlier < end)
  {
    HookStopIsNewEnd(run, events, i, end);
  }

  /** A pane known since 100 lights up for a turn that ended at 20, because one at 10 came first. */
  lemma OldStopCanLight() returns (run: seq<Glow>, events: seq<Event>)
    ensures IsRun(run, events) && |events| == 2
    ensures Reports(events, 1, 20) && Born(run[1], events[1].t) == 100
    ensures !run[1].needs && run[2].needs
  {
    var t := Tick(true, true, false, true, false, Some(10), 0, None, 5000, 100, 0);
    events := [Frame(t), Frame(t.(turnEndMs := Some(20), nowMs := 200, now := 100))];
    var g1 := After(Restored(false), events[0]);
    run := [Restored(false), g1, After(g1, events[1])];
  }

  /** Once a pane has a hook the quiet timer never stops it again. */
  lemma {:induction false} HookedForGood(run: seq<Glow>, events: seq<Event>, i: nat, n: nat)
    requires IsRun(run, events) && i <= n <= |events| && run[i].hooked
    ensures run[n].hooked
    ensures n < |events| && events[n].Frame? ==> !QuietStop(run[n], events[n].t)
  {
    if i < n {
      HookedForGood(run, events, i, n - 1);
      assert run[n] == After(run[n - 1], events[n - 1]);
    }
  }

  /** The timer counts each burst of output once: successive quiet stops are for later and later
      output, each quiet for the full period. */
  lemma QuietStopsAdvance(run: seq<Glow>, events: seq<Event>, i: nat, n: nat)
    requires IsRun(run, events) && i < n < |events| && events[i].Frame? && events[n].Frame?
    requires QuietStop(run[i], events[i].t) && QuietStop(run[n], events[n].t)
    ensures events[i].t.lastOutputMs.value < events[n].t.lastOutputMs.value
    ensures events[n].t.lastOutputMs.value + events[n].t.quietMs <= events[n].t.nowMs || events[n].t.quietMs == 0
  {
    QuietMarkStays(run, events, i, n);
  }

  lemma {:induction false} QuietMarkStays(run: seq<Glow>, events: seq<Event>, i: nat, n: nat)
    requires IsRun(run, events) && i < n <= |events| && events[i].Frame? && QuietStop(run[i], events[i].t)
    ensures run[n].worked && run[n].quietMark.Some? && run[n].quietMark.value >= events[i].t.lastOutputMs.value
  {
    assert run[n] == After(run[n - 1], events[n - 1]);
    if i < n - 1 { QuietMarkStays(run, events, i, n - 1); }
  }

  /** What arms the quiet timer: input, the pane turning busy, or its first burst gone quiet. */
  predicate Arms(g: Glow, e: Event) {
    || e.Touch?
    || (e.Frame? && (StartsWork(g, e.t) || (TimerRuns(g, e.t) && QuietFor(e.t, e.t.lastOutputMs.value))))
  }

  /** The timer only ever stops a pane that something armed; the burst that arms it is not a stop. */
  lemma QuietStopWasArmed(run: seq<Glow>, events: seq<Event>, n: nat)
    requires IsRun(run, events) && n < |events| && events[n].Frame? && QuietStop(run[n], events[n].t)
    ensures StartsWork(run[n], events[n].t) || exists j :: 0 <= j < n && Arms(run[j], events[j])
  {
    if run[n].worked { var j := ArmedBy(run, events, n); }
  }

  lemma {:induction false} ArmedBy(run: seq<Glow>, events: seq<Event>, n: nat) returns (j: nat)
    requires IsRun(run, events) && n <= |events| && run[n].worked
    ensures j < n && Arms(run[j], events[j])
  {
    assert run[n] == After(run[n - 1], events[n - 1]);
    if Arms(run[n - 1], events[n - 1]) {
      j := n - 1;
    } else {
      j := ArmedBy(run, events, n - 1);
    }
  }

  /** A helper pane lights only in a frame that reports an error. */
  lemma HelperLightsOnError(run: seq<Glow>, events: seq<Event>, i: nat)
    requires IsRun(run, events) && i < |events| && !run[i].needs && run[i + 1].needs
    requires events[i].Frame? && events[i].t.errorsOnly
    ensures events[i].t.liveness == ERROR && events[i].t.ai
  {
    assert run[i + 1] == After(run[i], events[i]);
  }

  // ---- what lights a pane, told from the events alone ----

  /** The liveness code of the last frame before event `n`, 0 before any. */
  function LastCode(events: seq<Event>, n: nat): int
    requires n <= |events|
  {
    if n == 0 then 0 else if events[n - 1].Frame? then events[n - 1].t.liveness else LastCode(events, n - 1)
  }

  /** The wall clock of the first frame before event `n`. */
  function FirstMs(events: seq<Event>, n: nat): Option<nat>
    requires n <= |events|
  {
    if n == 0 then None
    else if FirstMs(events, n - 1).Some? then FirstMs(events, n - 1)
    else if events[n - 1].Frame? then Some(events[n - 1].t.nowMs) else None
  }

  /** Frame `i` brings liveness code `code`, which the frame before it had not. */
  predicate Turns(events: seq<Event>, i: int, code: int) {
    0 <= i < |events| && events[i].Frame? && events[i].t.liveness == code && LastCode(events, i) != code
  }

  /** Frame `i` reports a turn end newer than every one before it or, the first, than the pane. */
  ghost predicate NewEnd(events: seq<Event>, i: int) {
    exists end: nat :: Reports(events, i, end)
      && (forall k, earlier: nat :: k < i && Reports(events, k, earlier) ==> earlier < end)
      && ((exists k, earlier: nat :: k < i && Reports(events, k, earlier)) || end > FirstMs(events, i + 1).UnwrapOr(0))
  }

  predicate ByHook(events: seq<Event>, i: int) {
    0 <= i < |events| && events[i].Frame? && (events[i].t.hasHook || events[i].t.turnEndMs.Some?)
  }

  ghost predicate NoHook(events: seq<Event>, n: int) {
    forall k :: k < n ==> !ByHook(events, k)
  }

  /** Something before event `n` armed the quiet timer: input, the pane starting to work, or a first
      burst of output that went quiet. */
  ghost predicate ArmedBefore(events: seq<Event>, n: int) {
    || (exists j :: 0 <= j < n && j < |events| && events[j].Touch?)
    || (exists j :: j < n && Turns(events, j, 1))
    || (exists j, out: nat :: j < n && QuietAt(events, j, out))
  }

  ghost predicate ArmedAt(events: seq<Event>, i: int) {
    ArmedBefore(events, i) || Turns(events, i, 1)
  }

  /** What the last frame before `n` that found the timer not armed saw printed. */
  ghost function LastUnarmed(events: seq<Event>, n: nat): Option<nat>
    requires n <= |events|
  {
    if n == 0 then None
    else
      var e := events[n - 1];
      if e.Frame? && !e.t.errorsOnly && e.t.lastOutputMs.Some? && !ArmedAt(events, n - 1) then e.t.lastOutputMs
      else LastUnarmed(events, n - 1)
  }

  ghost predicate ArmedQuiet(events: seq<Event>, k: int, out: nat) {
    QuietAt(events, k, out) && ArmedAt(events, k)
  }

  /** In frame `i` a burst has gone quiet that is newer than what was there before the timer was armed
      and than every burst that went quiet since, and no hook has ever spoken for the pane. */
  ghost predicate BurstOver(events: seq<Event>, i: int) {
    exists out: nat :: QuietAt(events, i, out) && NoHook(events, i + 1) && ArmedAt(events, i)
      && LastUnarmed(events, i).UnwrapOr(out) <= out && LastUnarmed(events, i) != Some(out)
      && forall k, earlier: nat :: k < i && ArmedQuiet(events, k, earlier) ==> earlier < out
  }

  /** What a pane remembers of codes and of its birth. */
  lemma {:induction false} RemembersCode(run: seq<Glow>, events: seq<Event>, n: nat)
    requires IsRun(run, events) && n <= |events|
    ensures run[n].lastLiveness == LastCode(events, n) && run[n].bornMs == FirstMs(events, n)
  {
    if n > 0 {
      RemembersCode(run, events, n - 1);
      assert run[n] == After(run[n - 1], events[n - 1]);
    }
  }

  lemma {:induction false} RemembersHook(run: seq<Glow>, events: seq<Event>, n: nat)
    requires IsRun(run, events) && n <= |events|
    ensures run[n].hooked <==> !NoHook(events, n)
  {
    if n > 0 {
      RemembersHook(run, events, n - 1);
      assert run[n] == After(run[n - 1], events[n - 1]);
      assert NoHook(events, n) <==> NoHook(events, n - 1) && !ByHook(events, n - 1);
    }
  }

  lemma ArmedMore(events: seq<Event>, n: nat)
    requires n < |events|
    ensures ArmedBefore(events, n + 1) <==>
      ArmedBefore(events, n) || events[n].Touch? || Turns(events, n, 1) || exists out: nat :: QuietAt(events, n, out)
  {
    if j, out: nat :| j < n + 1 && QuietAt(events, j, out) { assert j < n || QuietAt(events, n, out); }
    if out: nat :| QuietAt(events, n, out) { assert n < n + 1; }
  }

  /** What a pane no hook has spoken for remembers of its output. */
  ghost predicate Remembers(g: Glow, events: seq<Event>, n: nat)
    requires n <= |events|
  {
    && (g.worked <==> ArmedBefore(events, n))
    && match g.quietMark
       case None => LastUnarmed(events, n).None? && forall k, out: nat :: k < n ==> !ArmedQuiet(events, k, out)
       case Some(mark) =>
         && (LastUnarmed(events, n) == Some(mark) || exists k :: k < n && ArmedQuiet(events, k, mark))
         && LastUnarmed(events, n).UnwrapOr(mark) <= mark
         && forall k, out: nat :: k < n && ArmedQuiet(events, k, out) ==> out <= mark
  }

  lemma {:induction false} RemembersBursts(run: seq<Glow>, events: seq<Event>, n: nat)
    requires IsRun(run, events) && n <= |events| && NoHook(events, n)
    ensures Remembers(run[n], events, n)
  {
    if n > 0 {
      RemembersBursts(run, events, n - 1);
      assert run[n] == After(run[n - 1], events[n - 1]);
      ArmedMore(events, n - 1);
      match events[n - 1] {
        case Frame(t) =>
          RemembersCode(run, events, n - 1);
          RemembersHook(run, events, n);
          RemembersHook(run, events, n - 1);
          FrameRemembers(run[n - 1], events, n - 1, t);
        case Touch => OtherRemembers(run[n - 1], run[n], events, n - 1);
        case Clear(_, _) => OtherRemembers(run[n - 1], run[n], events, n - 1);
      }
    }
  }

  lemma OtherRemembers(g: Glow, g': Glow, events: seq<Event>, n: nat)
    requires n < |events| && !events[n].Frame? && Remembers(g, events, n) && g'.quietMark == g.quietMark
    requires g'.worked <==> ArmedBefore(events, n + 1)
    ensures Remembers(g', events, n + 1)
  {
    assert forall out: nat :: !ArmedQuiet(events, n, out);
    assert forall k, out: nat :: k < n + 1 && ArmedQuiet(events, k, out) ==> k < n;
  }

  lemma FrameRemembers(g: Glow, events: seq<Event>, n: nat, t: Tick)
    requires n < |events| && events[n] == Frame(t) && Remembers(g, events, n) && !Hooked(g, t) && g.lastLiveness == LastCode(events, n)
    requires ArmedBefore(events, n + 1) <==> ArmedBefore(events, n) || Turns(events, n, 1) || exists out: nat :: QuietAt(events, n, out)
    ensures Remembers(Stepped(g, t), events, n + 1)
  {
    var g' := Stepped(g, t);
    assert Worked(g, t) <==> ArmedAt(events, n);
    hide ArmedBefore, ArmedAt, Turns;
    assert forall k, out: nat :: k < n + 1 && ArmedQuiet(events, k, out) ==> k < n || k == n;
    if TimerRuns(g, t) {
      var out := t.lastOutputMs.value;
      assert QuietAt(events, n, out) <==> QuietFor(t, out);
      assert forall o: nat :: QuietAt(events, n, o) ==> o == out;
      if ArmedAt(events, n) && QuietFor(t, out) { assert ArmedQuiet(events, n, out); }
      if g.quietMark.Some? && LastUnarmed(events, n) != g.quietMark {
        var k :| k < n && ArmedQuiet(events, k, g.quietMark.value);
        if g'.quietMark == g.quietMark { assert k < n + 1 && ArmedQuiet(events, k, g'.quietMark.value); }
      }
    } else {
      assert forall o: nat :: !QuietAt(events, n, o);
      if g.quietMark.Some? && LastUnarmed(events, n) != g.quietMark {
        var k :| k < n && ArmedQuiet(events, k, g.quietMark.value);
        assert k < n + 1 && ArmedQuiet(events, k, g'.quietMark.value);
      }
    }
  }

  /** The quiet timer stops a pane exactly when a burst is over. */
  lemma QuietStopIff(run: seq<Glow>, events: seq<Event>, i: nat)
    requires IsRun(run, events) && i < |events| && events[i].Frame?
    ensures QuietStop(run[i], events[i].t) <==> BurstOver(events, i)
  {
    var g, t := run[i], events[i].t;
    RemembersCode(run, events, i);
    RemembersHook(run, events, i);
    assert NoHook(events, i + 1) <==> NoHook(events, i) && !ByHook(events, i);
    if NoHook(events, i + 1) && t.lastOutputMs.Some? && !t.errorsOnly {
      RemembersBursts(run, events, i);
      var out := t.lastOutputMs.value;
      assert Worked(g, t) <==> ArmedAt(events, i);
      hide ArmedBefore, ArmedAt, Turns, NoHook, IsRun;
      assert QuietAt(events, i, out) <==> QuietFor(t, out);
      if g.quietMark.Some? && LastUnarmed(events, i) != g.quietMark {
        var k :| k < i && ArmedQuiet(events, k, g.quietMark.value);
      }
    }
  }

  /** A dark pane lights in a frame, whatever came before, exactly when its kind of pane may, nobody
      watches and something says the AI stopped: it now waits for input or reports an error; a newer turn
      end came in; or, with no hook, a new burst of output is over. A helper pane needs the error. */
  lemma LightsIff(run: seq<Glow>, events: seq<Event>, i: nat)
    requires IsRun(run, events) && i < |events| && events[i].Frame? && !run[i].needs
    ensures run[i + 1].needs <==> events[i].t.enabled && events[i].t.ai && !events[i].t.watching && Stopped(events, i)
  {
    StopsIff(run, events, i);
    assert run[i + 1] == After(run[i], events[i]);
    hide Stopped, Stops;
  }

  /** Something says in frame `i` that the AI stopped. */
  ghost predicate Stopped(events: seq<Event>, i: nat)
    requires i < |events| && events[i].Frame?
  {
    if events[i].t.errorsOnly then events[i].t.liveness == 4 && (Turns(events, i, 4) || NewEnd(events, i))
    else Turns(events, i, 4) || Turns(events, i, 2) || NewEnd(events, i) || BurstOver(events, i)
  }

  lemma StopsIff(run: seq<Glow>, events: seq<Event>, i: nat)
    requires IsRun(run, events) && i < |events| && events[i].Frame?
    ensures Stops(run[i], events[i].t) <==> Stopped(events, i)
  {
    RemembersCode(run, events, i);
    QuietStopIff(run, events, i);
    assert HookStop(run[i], events[i].t) <==> NewEnd(events, i) by {
      if events[i].t.turnEndMs.Some? {
        var end := events[i].t.turnEndMs.value;
        assert Reports(events, i, end);
        HookStopIsNewEnd(run, events, i, end);
        hide IsRun;
        assert FirstMs(events, i + 1) == Some(Born(run[i], events[i].t));
      }
    }
    hide IsRun, NewEnd, BurstOver, HookStop, QuietStop;
  }

  /** A liveness code alone lights a dark pane nobody watches when it is 4, or 2 on a pane that is no
      helper, and the last frame's was another; and where no hook reports and the timer does not run
      nothing else does. */
  lemma LivenessLights(run: seq<Glow>, events: seq<Event>, i: nat)
    requires IsRun(run, events) && i < |events| && events[i].Frame? && !run[i].needs
    requires events[i].t.enabled && events[i].t.ai && !events[i].t.watching
    ensures var t := events[i].t;
      var turned := t.liveness != LastCode(events, i) && (t.liveness == 4 || (t.liveness == 2 && !t.errorsOnly));
      && (turned ==> run[i + 1].needs)
      && (t.turnEndMs.None? && (t.errorsOnly || t.hasHook || t.lastOutputMs.None?) ==> (run[i + 1].needs <==> turned))
  {
    LightsIff(run, events, i);
    var t := events[i].t;
    if t.hasHook { assert ByHook(events, i); }
    hide IsRun;
  }

  /** The manager's note stays through a frame exactly while the pane neither stops again nor starts to
      work, nor prints more than two seconds after the note was made. */
  lemma NoteStaysIff(run: seq<Glow>, events: seq<Event>, i: nat)
    requires IsRun(run, events) && i < |events| && events[i].Frame? && run[i].checked.Some?
    ensures var t := events[i].t;
      run[i + 1].checked == if Turns(events, i, 1) || (t.lastOutputMs.Some? && t.lastOutputMs.value > run[i].checked.value.atMs + 2000)
                               || (t.enabled && t.ai && Stopped(events, i)) then None
                            else run[i].checked
  {
    StopsIff(run, events, i);
    RemembersCode(run, events, i);
    assert run[i + 1] == After(run[i], events[i]);
    hide Stopped, Stops;
  }

  /** With the setting off a frame leaves nothing lit and nothing looked at; a touch darkens a pane at
      once; the manager darkens a lit one, leaving a note, and leaves a dark one as it is. */
  lemma Darkens(run: seq<Glow>, events: seq<Event>, i: nat)
    requires IsRun(run, events) && i < |events|
    ensures match events[i]
      case Frame(t) => !t.enabled ==> !run[i + 1].needs && run[i + 1].seenSince.None?
      case Touch => !run[i + 1].needs && run[i + 1] == run[i].(needs := false, worked := true)
      case Clear(who, at) =>
        if run[i].needs then run[i + 1] == run[i].(needs := false, checked := Some(Checked(who, at))) else run[i + 1] == run[i]
  {
    assert run[i + 1] == After(run[i], events[i]);
  }

  /** A pane nobody types into and no hook or liveness code speaks for; it may print, and the manager
      may clear it. */
  ghost predicate OnlyPrints(events: seq<Event>) {
    forall i :: 0 <= i < |events| ==> match events[i]
      case Frame(t) => !t.hasHook && t.turnEndMs.None? && t.liveness == 0
      case Touch => false
      case Clear(_, _) => true
  }

  /** In frame `i` the timer sees the output stamp `out`, quiet for the full period. */
  predicate QuietAt(events: seq<Event>, i: int, out: nat) {
    && 0 <= i < |events| && events[i].Frame?
    && !events[i].t.errorsOnly && events[i].t.lastOutputMs == Some(out)
    && (out + events[i].t.quietMs <= events[i].t.nowMs || events[i].t.quietMs == 0)
  }

  /** A burst newer than every earlier one that went quiet, and not the first, is quiet in frame `i`. */
  ghost predicate NewBurstQuiet(events: seq<Event>, i: int) {
    exists out: nat :: QuietAt(events, i, out) && NewerThanQuiet(events, i, out)
  }

  ghost predicate NewerThanQuiet(events: seq<Event>, i: int, out: nat) {
    && (exists k, earlier: nat :: k < i && QuietAt(events, k, earlier))
    && (forall k, earlier: nat :: k < i && QuietAt(events, k, earlier) ==> earlier < out)
  }

  /** What such a pane remembers: it is armed once a burst has gone quiet, and marks the newest that
      has. */
  lemma {:induction false} RemembersNewestQuiet(run: seq<Glow>, events: seq<Event>, n: nat)
    requires IsRun(run, events) && OnlyPrints(events) && n <= |events|
    ensures !run[n].hooked && run[n].turnEndMs.None? && run[n].lastLiveness == 0
    ensures run[n].worked <==> exists k, out: nat :: k < n && QuietAt(events, k, out)
    ensures run[n].worked ==> run[n].quietMark.Some?
    ensures run[n].worked ==> exists k :: k < n && QuietAt(events, k, run[n].quietMark.value)
    ensures run[n].worked ==> forall k, out: nat :: k < n && QuietAt(events, k, out) ==> out <= run[n].quietMark.value
  {
    if n > 0 {
      RemembersNewestQuiet(run, events, n - 1);
      assert run[n] == After(run[n - 1], events[n - 1]);
      if events[n - 1].Frame? && events[n - 1].t.lastOutputMs.Some? {
        var out := events[n - 1].t.lastOutputMs.value;
        assert QuietAt(events, n - 1, out) <==> TimerRuns(run[n - 1], events[n - 1].t) && QuietFor(events[n - 1].t, out);
      }
    }
  }

  /** Frame by frame, such a pane stops exactly when a burst newer than every earlier quiet one, and
      not the first, is quiet. */
  lemma RestartStopsIff(run: seq<Glow>, events: seq<Event>, i: nat)
    requires IsRun(run, events) && OnlyPrints(events) && i < |events| && events[i].Frame?
    ensures Stops(run[i], events[i].t) <==> NewBurstQuiet(events, i)
  {
    RemembersNewestQuiet(run, events, i);
    var t := events[i].t;
    if t.lastOutputMs.Some? {
      var out := t.lastOutputMs.value;
      assert QuietAt(events, i, out) <==> TimerRuns(run[i], t) && QuietFor(t, out);
      if run[i].worked {
        var k :| k < i && QuietAt(events, k, run[i].quietMark.value);
        assert QuietAt(events, i, out) ==> (NewerThanQuiet(events, i, out) <==> out > run[i].quietMark.value);
      }
    }
  }

  /** A burst newer than its first quiet one is quiet in frame `i`, on an AI pane that is not looked
      at, with the setting on. */
  ghost predicate LitByBurst(events: seq<Event>, i: int) {
    NewBurstQuiet(events, i) && events[i].t.enabled && events[i].t.ai && !events[i].t.watching
  }

  /** After a restart a dark pane that only prints glows at some point exactly when, in some frame
      nobody watches, a burst newer than its first quiet one has gone quiet. */
  lemma {:induction false} RestartLightsIff(run: seq<Glow>, events: seq<Event>, n: nat)
    requires IsRun(run, events) && OnlyPrints(events) && !run[0].needs && n <= |events|
    ensures (exists i :: 0 <= i <= n && run[i].needs) <==> exists i :: 0 <= i < n && LitByBurst(events, i)
  {
    if n > 0 {
      RestartLightsIff(run, events, n - 1);
      var e := events[n - 1];
      assert run[n] == After(run[n - 1], e);
      if e.Frame? { RestartStopsIff(run, events, n - 1); }
      assert LitByBurst(events, n - 1) ==> e.Frame?;
      assert !run[n - 1].needs ==> (run[n].needs <==> LitByBurst(events, n - 1));
    }
  }

  /** No output is later than output that had already gone quiet: one first burst, in however many
      frames, or none at all. */
  ghost predicate OneBurst(events: seq<Event>) {
    forall i, k, out: nat, earlier: nat :: 0 <= k < i && QuietAt(events, k, earlier) && QuietAt(events, i, out) ==> out <= earlier
  }

  /** Drawing its prompt after a restart never makes a pane glow: through its first burst it is lit
      only if it was lit and unseen before. */
  lemma {:induction false} RestartLightsNothing(run: seq<Glow>, events: seq<Event>, n: nat)
    requires IsRun(run, events) && OnlyPrints(events) && OneBurst(events) && n <= |events|
    ensures run[n].needs ==> run[0].needs
  {
    if n > 0 {
      RestartLightsNothing(run, events, n - 1);
      assert run[n] == After(run[n - 1], events[n - 1]);
      if events[n - 1].Frame? { RestartStopsIff(run, events, n - 1); }
    }
  }

  /** A second burst does: output at 0 goes quiet, and then output at 6000 does. */
  lemma SecondBurstLights() returns (run: seq<Glow>, events: seq<Event>)
    ensures IsRun(run, events) && OnlyPrints(events) && |events| == 2
    ensures run[0] == Restored(false) && !run[1].needs && run[2].needs
  {
    var t := Tick(true, true, false, false, false, None, 0, Some(0), 5000, 5000, 0);
    events := [Frame(t), Frame(t.(lastOutputMs := Some(6000), nowMs := 11000, now := 6000))];
    var g1 := After(Restored(false), events[0]);
    run := [Restored(false), g1, After(g1, events[1])];
  }

  // ---- a whole window's frame, and the strip's arrows ----

  /** The panes of one window, driven together. */
  class Panes {
    var glows: seq<Glow>

    /** One frame for every pane; the ones typed into are touched first. */
    method Drive(ticks: seq<Tick>, typed: seq<bool>) returns (changed: bool)
      requires |ticks| == |typed| == |glows|
      modifies this
      ensures |glows| == |old(glows)|
      ensures forall i :: 0 <= i < |glows| ==> glows[i] == Driven(old(glows)[i], ticks[i], typed[i])
      ensures changed <==> exists i :: 0 <= i < |ticks| && Reported(old(glows)[i], ticks[i], typed[i])
    {
      changed := false;
      for i := 0 to |ticks|
        invariant |glows| == |ticks|
        invariant forall k :: 0 <= k < i ==> glows[k] == Driven(old(glows)[k], ticks[k], typed[k])
        invariant forall k :: i <= k < |ticks| ==> glows[k] == old(glows)[k]
        invariant changed <==> exists k :: 0 <= k < i && Reported(old(glows)[k], ticks[k], typed[k])
      {
        var g := glows[i];
        if typed[i] {
          changed := changed || g.needs;
          g := Touched(g);
        }
        var next := Stepped(g, ticks[i]);
        changed := changed || next.Shown() != g.Shown();
        glows := glows[i := next];
      }
    }
  }

  function Driven(g: Glow, t: Tick, typed: bool): Glow {
    Stepped(if typed then Touched(g) else g, t)
  }

  /** So driving a pane carries its history on by the touch, if it was typed into, and then the frame. */
  lemma DrivingGoesOn(run: seq<Glow>, events: seq<Event>, t: Tick, typed: bool)
    requires IsRun(run, events) && forall i :: 0 <= i < |events| && events[i].Frame? ==> events[i].t.now <= t.now
    ensures var g := run[|events|];
      if typed then IsRun(run + [After(g, Touch), Driven(g, t, true)], events + [Touch, Frame(t)])
      else IsRun(run + [Driven(g, t, false)], events + [Frame(t)])
  {
    hide Stepped;
  }

  predicate Reported(g: Glow, t: Tick, typed: bool) {
    var h := if typed then Touched(g) else g;
    (typed && g.needs) || Stepped(h, t).Shown() != h.Shown()
  }

  /** Every change a surface shows is reported, and a report with nothing to show for it comes only
      from a glowing pane that was typed into and stopped again unseen in the same frame. */
  lemma ReportedExactly(g: Glow, t: Tick, typed: bool)
    ensures Driven(g, t, typed).Shown() != g.Shown() ==> Reported(g, t, typed)
    ensures Reported(g, t, typed) && Driven(g, t, typed).Shown() == g.Shown()
       <==> typed && g.needs && Lights(Touched(g), t) && g.checked.None?
  {
  }

  /** A tab scrolled out to the left reports an `x` far below any real one, to the right far above. */
  const FAR := 10_000.0

  method ArrowNeeds(needs: seq<bool>, xs: seq<real>) returns (left: bool, right: bool)
    ensures left <==> exists i :: 0 <= i < |needs| && i < |xs| && needs[i] && xs[i] < -10_000.0
    ensures right <==> exists i :: 0 <= i < |needs| && i < |xs| && needs[i] && xs[i] > 10_000.0
  {
    left, right := false, false;
    var n := if |needs| < |xs| then |needs| else |xs|;
    for i := 0 to n
      invariant left <==> exists k :: 0 <= k < i && needs[k] && xs[k] < -FAR
      invariant right <==> exists k :: 0 <= k < i && needs[k] && xs[k] > FAR
    {
      if !needs[i] { continue; }
      if xs[i] < -FAR { left := true; } else if xs[i] > FAR { right := true; }
    }
  }
}
