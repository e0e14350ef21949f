/** The attach client's resize watcher: a signal handler that can only set a flag, and a thread
    that turns the flag into work. The model is a state machine whose steps are the atomic actions
    of the terminal, the handler and the watcher, in any interleaving. */
module Winch {
  import opened Wrappers

  datatype Size = Size(cols: nat, rows: nat)

  datatype Policy = Observe | Request

  /** What the watcher asks the daemon for. */
  datatype Sent = Resize(size: Size) | Repaint

  /** Where the watcher is: asleep or about to swap the flag; the flag was set and the size is not
      yet read; the size is read; gone, because the connection is. */
  datatype Place = LoopHead | Reading | Deciding(size: Size) | Gone

  /** `term` is `None` while the terminal reports no usable size. `pending` is a signal raised and
      not yet handled. */
  datatype State = State(policy: Policy, term: Option<Size>, pending: bool, flag: bool,
                         last: Size, place: Place, sent: seq<Sent>)

  datatype Step =
    | TerminalResized(size: Option<Size>)
    | HandlerRuns
    | WatcherSwaps
    | WatcherReads
    | ReadFails
    | WatcherDecides(connected: bool)

  /** The state just after the handlers are installed. Under `Request` the size the terminal had
      earlier, when `last` was read, has been asked for. */
  function Installed(policy: Policy, term: Option<Size>, last: Size): State {
    State(policy, term, false, false, last, LoopHead, if policy.Request? then [Resize(last)] else [])
  }

  predicate Enabled(s: State, step: Step) {
    match step
    case TerminalResized(size) => size != s.term
    case HandlerRuns => s.pending
    case WatcherSwaps => s.place.LoopHead?
    case WatcherReads => s.place.Reading?
    case ReadFails => s.place.Reading?
    case WatcherDecides(_) => s.place.Deciding?
  }

  function Next(s: State, step: Step): State
    requires Enabled(s, step)
  {
    match step
    case TerminalResized(size) => s.(term := size, pending := true)
    case HandlerRuns => s.(pending := false, flag := true)
    case WatcherSwaps => if s.flag then s.(flag := false, place := Reading) else s
    case WatcherReads =>
      (match s.term
       case None => s.(place := LoopHead)
       case Some(size) => s.(place := Deciding(size)))
    case ReadFails => s.(place := LoopHead)
    case WatcherDecides(connected) =>
      var size := s.place.size;
      if size == s.last then s.(place := LoopHead)
      else if !connected then s.(last := size, place := Gone)
      else s.(last := size, place := LoopHead,
              sent := s.sent + [if s.policy.Request? then Resize(size) else Repaint])
  }

  ghost predicate IsRun(run: seq<State>, steps: seq<Step>) {
    && |run| == |steps| + 1
    && forall i :: 0 <= i < |steps| ==> Enabled(run[i], steps[i]) && run[i + 1] == Next(run[i], steps[i])
  }

  /** Nobody has lost a resize: at the loop head either the change is still on its way, or the
      watcher has acted on the size the terminal has. */
  predicate Tracking(s: State) {
    match s.place
    case LoopHead => s.pending || s.flag || s.term == None || s.term == Some(s.last)
    case Deciding(size) => s.pending || s.flag || s.term == None || s.term == Some(size)
    case _ => true
  }

  function LastResize(sent: seq<Sent>): Option<Size> {
    if sent == [] then None
    else if sent[|sent| - 1].Resize? then Some(sent[|sent| - 1].size)
    else LastResize(sent[..|sent| - 1])
  }

  predicate FramesFit(s: State) {
    && (s.policy.Request? ==> forall k :: 0 <= k < |s.sent| ==> s.sent[k].Resize?)
    && (s.policy.Observe? ==> forall k :: 0 <= k < |s.sent| ==> s.sent[k].Repaint?)
    && (s.policy.Request? && !s.place.Gone? ==> LastResize(s.sent) == Some(s.last))
    && (s.policy.Request? ==> forall k :: 0 < k < |s.sent| ==> s.sent[k] != s.sent[k - 1])
  }

  lemma StepKeeps(s: State, step: Step)
    requires Enabled(s, step) && FramesFit(s)
    ensures FramesFit(Next(s, step)) && Next(s, step).policy == s.policy
    ensures Tracking(s) && !step.ReadFails? ==> Tracking(Next(s, step))
  {
    if step.WatcherDecides? && s.policy.Request? && s.place.size != s.last && step.connected {
      assert s.sent != [] && s.sent[|s.sent| - 1] == Resize(s.last);
    }
  }

  lemma {:induction false} RunKeeps(run: seq<State>, steps: seq<Step>, policy: Policy, term: Option<Size>, last: Size, i: nat)
    requires IsRun(run, steps) && run[0] == Installed(policy, term, last) && i <= |steps|
    ensures FramesFit(run[i]) && run[i].policy == policy
    ensures term in {None, Some(last)} && (forall k :: 0 <= k < i ==> !steps[k].ReadFails?) ==> Tracking(run[i])
  {
    if i == 0 {
      assert policy.Request? ==> run[0].sent[0] == Resize(last);
    } else {
      RunKeeps(run, steps, policy, term, last, i - 1);
      StepKeeps(run[i - 1], steps[i - 1]);
    }
  }

  /** Nothing is on its way any more and the watcher is back at its loop head. */
  predicate Quiescent(s: State) {
    s.place.LoopHead? && !s.pending && !s.flag && s.term.Some?
  }

  /** Nothing is on its way and the watcher waits, though the terminal has another size than the one
      it last acted on. */
  predicate Stuck(s: State) {
    s.place.LoopHead? && !s.pending && !s.flag && s.term.Some? && s.term != Some(s.last)
  }

  /** From moment `j`, the start or just after a failed read, the watcher is stuck, and up to moment
      `i` the terminal is not resized again. */
  ghost predicate StuckSince(run: seq<State>, steps: seq<Step>, j: int, i: int)
    requires |run| == |steps| + 1
  {
    && 0 <= j <= i < |run| && (j == 0 || steps[j - 1].ReadFails?) && Stuck(run[j])
    && forall k :: j <= k < i ==> !steps[k].TerminalResized?
  }

  /** Only a resize unsticks the watcher. */
  lemma {:induction false} StuckStays(run: seq<State>, steps: seq<Step>, j: nat, i: nat)
    requires IsRun(run, steps) && StuckSince(run, steps, j, i)
    ensures Stuck(run[i])
  {
    if j < i { StuckStays(run, steps, j, i - 1); }
  }

  /** What is not tracked has been stuck since the start or a failed read. */
  lemma {:induction false} UntrackedSince(run: seq<State>, steps: seq<Step>, i: nat)
    requires IsRun(run, steps) && run[0].place.LoopHead? && FramesFit(run[0]) && i <= |steps|
    ensures FramesFit(run[i])
    ensures !Tracking(run[i]) ==> exists j :: StuckSince(run, steps, j, i)
  {
    if i == 0 {
      assert !Tracking(run[0]) ==> StuckSince(run, steps, 0, 0);
    } else {
      UntrackedSince(run, steps, i - 1);
      StepKeeps(run[i - 1], steps[i - 1]);
      if !Tracking(run[i]) {
        if Tracking(run[i - 1]) {
          assert StuckSince(run, steps, i, i);
        } else {
          var j :| StuckSince(run, steps, j, i - 1);
          StuckStays(run, steps, j, i - 1);
          assert StuckSince(run, steps, j, i);
        }
      }
    }
  }

  /** In every run and interleaving, once things are quiet, the watcher has acted on the size the
      terminal has exactly unless it was stuck, at the start or after a failed read, and no resize
      has come since. */
  lemma ResizeLostIff(run: seq<State>, steps: seq<Step>, policy: Policy, term: Option<Size>, last: Size, i: nat)
    requires IsRun(run, steps) && run[0] == Installed(policy, term, last) && i <= |steps|
    requires Quiescent(run[i])
    ensures run[i].term == Some(run[i].last) <==> !exists j :: StuckSince(run, steps, j, i)
    ensures policy.Request? ==> LastResize(run[i].sent) == Some(run[i].last)
  {
    RunKeeps(run, steps, policy, term, last, i);
    assert policy.Request? ==> run[0].sent[0] == Resize(last);
    UntrackedSince(run, steps, i);
    if j :| StuckSince(run, steps, j, i) { StuckStays(run, steps, j, i); }
  }

  /** So no resize is lost where the terminal still had its first size as the handlers went in and no
      read failed: once quiet, a requesting client has last asked for the size the terminal has, and
      every client has acted on it. */
  lemma NoLostResize(run: seq<State>, steps: seq<Step>, policy: Policy, term: Option<Size>, last: Size, i: nat)
    requires IsRun(run, steps) && run[0] == Installed(policy, term, last) && i <= |steps|
    requires term in {None, Some(last)} && forall k :: 0 <= k < i ==> !steps[k].ReadFails?
    requires Quiescent(run[i])
    ensures run[i].term == Some(run[i].last)
    ensures policy.Request? ==> LastResize(run[i].sent) == run[i].term
  {
    ResizeLostIff(run, steps, policy, term, last, i);
  }

  /** An observing client never resizes the pane, in any run at all; a requesting one only sends
      resizes, and never the same size twice in a row. */
  lemma PolicyHonoured(run: seq<State>, steps: seq<Step>, policy: Policy, term: Option<Size>, last: Size, i: nat)
    requires IsRun(run, steps) && run[0] == Installed(policy, term, last) && i <= |steps|
    ensures policy.Observe? ==> forall k :: 0 <= k < |run[i].sent| ==> run[i].sent[k] == Repaint
    ensures policy.Request? ==> forall k :: 0 < k < |run[i].sent| ==>
      run[i].sent[k].Resize? && run[i].sent[k] != run[i].sent[k - 1]
  {
    RunKeeps(run, steps, policy, term, last, i);
  }

  /** How often, up to moment `i`, the watcher with the connection still up took a size other than the
      last it acted on. */
  function Noticed(run: seq<State>, i: nat): nat
    requires i < |run|
  {
    if i == 0 then 0
    else Noticed(run, i - 1) + if run[i].last != run[i - 1].last && !run[i].place.Gone? then 1 else 0
  }

  /** Each such size is answered by one message and nothing else is: a repaint from an observer, a resize
      from a requester, who asked once before. With the connection gone nothing more is sent. */
  lemma {:induction false} AnswersEach(run: seq<State>, steps: seq<Step>, policy: Policy, term: Option<Size>, last: Size, i: nat)
    requires IsRun(run, steps) && run[0] == Installed(policy, term, last) && i <= |steps|
    ensures |run[i].sent| == Noticed(run, i) + if policy.Request? then 1 else 0
    ensures forall k :: 0 <= k < i && run[k].place.Gone? ==> run[i].place.Gone? && run[i].sent == run[k].sent
  {
    if i > 0 {
      AnswersEach(run, steps, policy, term, last, i - 1);
      RunKeeps(run, steps, policy, term, last, i - 1);
      assert run[i] == Next(run[i - 1], steps[i - 1]);
    }
  }

  function Apply(s: State, steps: seq<Step>): Option<State>
    decreases |steps|
  {
    if steps == [] then Some(s)
    else if Enabled(s, steps[0]) then Apply(Next(s, steps[0]), steps[1..])
    else None
  }

  /** The watcher's own round, when nothing changes around it. */
  const ROUND: seq<Step> := [HandlerRuns, WatcherSwaps, WatcherReads, WatcherDecides(true)]

  /** A raised signal is acted on by one undisturbed round of the watcher. */
  lemma OneRoundSettles(s: State)
    requires s.place.LoopHead? && s.pending && s.term.Some?
    ensures Apply(s, ROUND).Some?
    ensures Quiescent(Apply(s, ROUND).value) && Apply(s, ROUND).value.last == s.term.value
  {
    var s1 := Next(s, HandlerRuns);
    var s2 := Next(s1, WatcherSwaps);
    var s3 := Next(s2, WatcherReads);
    var s4 := Next(s3, WatcherDecides(true));
    assert ROUND[1..] == [WatcherSwaps, WatcherReads, WatcherDecides(true)];
    assert ROUND[1..][1..] == [WatcherReads, WatcherDecides(true)];
    assert ROUND[1..][1..][1..] == [WatcherDecides(true)];
    assert ROUND[1..][1..][1..][1..] == [];
    assert Apply(s4, []) == Some(s4);
  }

  /** A terminal that changed between the reading of `last` and the handlers going in stays unnoticed,
      in a run without failed reads, exactly until it is resized again. */
  lemma LostBeforeInstall(run: seq<State>, steps: seq<Step>, policy: Policy, term: Size, last: Size, i: nat)
    requires IsRun(run, steps) && run[0] == Installed(policy, Some(term), last) && term != last && i <= |steps|
    requires Quiescent(run[i]) && forall k :: 0 <= k < i ==> !steps[k].ReadFails?
    ensures run[i].term == Some(run[i].last) <==> exists k :: 0 <= k < i && steps[k].TerminalResized?
  {
    ResizeLostIff(run, steps, policy, Some(term), last, i);
    assert (forall k :: 0 <= k < i ==> !steps[k].TerminalResized?) ==> StuckSince(run, steps, 0, i);
  }

  /** With the handlers in on time, a resize is lost exactly when a read failed with nothing else on
      its way and the terminal has not been resized since. */
  lemma LostOnlyByFailedRead(run: seq<State>, steps: seq<Step>, policy: Policy, term: Option<Size>, last: Size, i: nat)
    requires IsRun(run, steps) && run[0] == Installed(policy, term, last) && term in {None, Some(last)} && i <= |steps|
    requires Quiescent(run[i])
    ensures run[i].term != Some(run[i].last) <==> exists j :: 0 < j && StuckSince(run, steps, j, i)
  {
    ResizeLostIff(run, steps, policy, term, last, i);
    assert !StuckSince(run, steps, 0, i);
  }

  /** A size query that fails although the terminal has a size loses the resize: the flag is spent
      and no further signal is coming. */
  lemma LostByFailedRead(policy: Policy, a: Size, b: Size) returns (end: State)
    requires a != b
    ensures Apply(Installed(policy, Some(a), a), FailingRound(b)) == Some(end)
    ensures Quiescent(end) && end.term == Some(b) && end.last == a && !Tracking(end)
  {
    var s0, steps := Installed(policy, Some(a), a), FailingRound(b);
    var s1 := Next(s0, steps[0]);
    var s2 := Next(s1, steps[1]);
    var s3 := Next(s2, steps[2]);
    end := Next(s3, steps[3]);
    assert steps[1..][1..] == steps[2..] && steps[2..][1..] == steps[3..] && steps[3..][1..] == [];
    assert Apply(s3, steps[3..]) == Apply(end, []) == Some(end);
    assert Apply(s2, steps[2..]) == Apply(s3, steps[3..]);
    assert Apply(s1, steps[1..]) == Apply(s2, steps[2..]);
  }

  function FailingRound(size: Size): seq<Step> {
    [TerminalResized(Some(size)), HandlerRuns, WatcherSwaps, ReadFails]
  }
}
