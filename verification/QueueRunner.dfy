/** Delivery of filed instructions by renaming: claiming a file moves it from `queue/` to
    `queue/sent/`, a refused submit moves it back, and any number of deliverers, the runner and
    the Stop hook among them, may be at it at once and may die at any point. A file is named by
    its rank in the directory's name order, and a name is filed once. */
module QueueRunner {
  import opened Wrappers

  type File = nat
  type Deliverer = nat

  // ---- concurrent delivery ----

  /** Where a deliverer is: between files; holding a claimed file whose submit is not yet answered;
      holding one whose submit was refused, about to move it back; dead. */
  datatype Place = Idle | Claimed(file: File) | Refused(file: File) | Dead {
    predicate Holds(f: File) {
      (Claimed? || Refused?) && file == f
    }
  }

  /** How a submit ends: taken by the pane; refused; lost in an exception, taken or not; reported
      as refused although the pane took it. */
  datatype Answer = Taken | NotTaken | Lost(taken: bool) | MisreportedTaken

  datatype State = State(queue: set<File>, sent: set<File>, cancelled: set<File>,
                         accepted: map<File, nat>, at: map<Deliverer, Place>)
  {
    function Filed(): set<File> {
      queue + sent + cancelled
    }

    function PlaceOf(d: Deliverer): Place {
      if d in at then at[d] else Idle
    }

    function Accepted(f: File): nat {
      if f in accepted then accepted[f] else 0
    }

    function Count(f: File, taken: bool): State {
      if taken then this.(accepted := accepted[f := Accepted(f) + 1]) else this
    }

    function Move(d: Deliverer, p: Place): State {
      this.(at := at[d := p])
    }
  }

  datatype Step =
    | FileIn(file: File)
    | Cancel(file: File)
    | Claim(d: Deliverer, file: File)
    | Submit(d: Deliverer, answer: Answer)
    | PutBack(d: Deliverer)
    | Crash(d: Deliverer, taken: bool)

  const START := State({}, {}, {}, map[], map[])

  predicate Enabled(s: State, step: Step) {
    match step
    case FileIn(f) => f !in s.Filed()
    case Cancel(f) => f in s.queue
    case Claim(d, f) => s.PlaceOf(d).Idle?
    case Submit(d, _) => s.PlaceOf(d).Claimed?
    case PutBack(d) => s.PlaceOf(d).Refused?
    case Crash(d, taken) => taken ==> s.PlaceOf(d).Claimed?
  }

  function Next(s: State, step: Step): State
    requires Enabled(s, step)
  {
    match step
    case FileIn(f) => s.(queue := s.queue + {f})
    case Cancel(f) => s.(queue := s.queue - {f}, cancelled := s.cancelled + {f})
    case Claim(d, f) =>
      if f in s.queue then s.(queue := s.queue - {f}, sent := s.sent + {f}).Move(d, Claimed(f))
      else s // already claimed: the rename finds nothing
    case Submit(d, answer) =>
      var f := s.PlaceOf(d).file;
      (match answer
       case Taken => s.Count(f, true).Move(d, Idle)
       case NotTaken => s.Move(d, Refused(f))
       case Lost(taken) => s.Count(f, taken).Move(d, Idle)
       case MisreportedTaken => s.Count(f, true).Move(d, Refused(f)))
    case PutBack(d) =>
      var f := s.PlaceOf(d).file;
      s.(queue := s.queue + {f}, sent := s.sent - {f}).Move(d, Idle)
    case Crash(d, taken) =>
      (if taken then s.Count(s.PlaceOf(d).file, true) else s).Move(d, Dead)
  }

  ghost predicate IsRun(run: seq<State>, steps: seq<Step>) {
    && |run| == |steps| + 1 && run[0] == START
    && forall i :: 0 <= i < |steps| ==> Enabled(run[i], steps[i]) && run[i + 1] == Next(run[i], steps[i])
  }

  /** The step hands `f` to the pane: a submit taken, whatever is reported, or a crash after one. */
  predicate Takes(s: State, step: Step, f: File) {
    match step
    case Submit(d, answer) => s.PlaceOf(d) == Claimed(f) && (answer == Taken || answer == Lost(true) || answer == MisreportedTaken)
    case Crash(d, taken) => taken && s.PlaceOf(d) == Claimed(f)
    case _ => false
  }

  /** The step is a submit of `f` that is taken and reported as refused. */
  predicate Misreports(s: State, step: Step, f: File) {
    step.Submit? && step.answer == MisreportedTaken && Takes(s, step, f)
  }

  ghost predicate MisreportedBy(run: seq<State>, steps: seq<Step>, n: nat, f: File)
    requires n <= |steps| < |run|
  {
    exists i :: 0 <= i < n && Misreports(run[i], steps[i], f)
  }

  /** The two directories and the cancelled files never overlap, a held file is in `sent/`, and no
      two deliverers hold the same file. */
  ghost predicate Placed(s: State) {
    && s.queue !! s.sent !! s.cancelled
    && (forall d, f :: s.PlaceOf(d).Holds(f) ==> f in s.sent)
    && (forall d, e, f :: s.PlaceOf(d).Holds(f) && s.PlaceOf(e).Holds(f) ==> d == e)
    && (forall f :: f in s.accepted ==> f in s.Filed())
  }

  /** `f` may yet be claimed, or is being delivered. */
  ghost predicate Open(s: State, f: File) {
    f in s.queue || f in s.cancelled || exists d :: s.PlaceOf(d).Holds(f)
  }

  lemma StepKeepsPlaced(s: State, step: Step)
    requires Enabled(s, step) && Placed(s)
    ensures Placed(Next(s, step))
    ensures s.Filed() <= Next(s, step).Filed()
  {
    var t := Next(s, step);
    match step
    case FileIn(f) => assert forall d :: t.PlaceOf(d) == s.PlaceOf(d);
    case Cancel(f) => assert forall d :: t.PlaceOf(d) == s.PlaceOf(d);
    case Claim(d, f) => assert forall e :: e != d ==> t.PlaceOf(e) == s.PlaceOf(e);
    case Submit(d, _) => assert forall e :: e != d ==> t.PlaceOf(e) == s.PlaceOf(e);
      assert s.PlaceOf(d).Holds(s.PlaceOf(d).file);
    case PutBack(d) => assert forall e :: e != d ==> t.PlaceOf(e) == s.PlaceOf(e);
      assert s.PlaceOf(d).Holds(s.PlaceOf(d).file);
    case Crash(d, taken) => assert forall e :: e != d ==> t.PlaceOf(e) == s.PlaceOf(e);
      assert taken ==> s.PlaceOf(d).Holds(s.PlaceOf(d).file);
  }

  lemma {:induction false} RunKeeps(run: seq<State>, steps: seq<Step>, n: nat)
    requires IsRun(run, steps) && n <= |steps|
    ensures Placed(run[n])
  {
    if n > 0 {
      RunKeeps(run, steps, n - 1);
      StepKeepsPlaced(run[n - 1], steps[n - 1]);
    }
  }

  /** A step counts `f` as accepted exactly when it takes it; unless it misreports, it never opens a
      file that was taken. */
  lemma StepAccepts(s: State, step: Step, f: File)
    requires Enabled(s, step) && Placed(s)
    ensures Next(s, step).Accepted(f) == s.Accepted(f) + if Takes(s, step, f) then 1 else 0
    ensures Takes(s, step, f) ==> Open(s, f)
    ensures Open(Next(s, step), f) && !Open(s, f) ==> step == FileIn(f) && s.Accepted(f) == 0
    ensures Open(Next(s, step), f) && Takes(s, step, f) ==> Misreports(s, step, f)
  {
    var t := Next(s, step);
    if step.Submit? || step.PutBack? || (step.Crash? && step.taken) {
      assert s.PlaceOf(step.d).Holds(s.PlaceOf(step.d).file);
    }
    if d :| t.PlaceOf(d).Holds(f) {
      assert s.PlaceOf(d).Holds(f) || step == Claim(d, f);
    }
    StepKeepsPlaced(s, step);
  }

  ghost predicate FiledIn(steps: seq<Step>, n: nat, f: File)
    requires n <= |steps|
  {
    exists i :: 0 <= i < n && steps[i] == FileIn(f)
  }

  ghost predicate CancelledIn(steps: seq<Step>, n: nat, f: File)
    requires n <= |steps|
  {
    exists i :: 0 <= i < n && steps[i] == Cancel(f)
  }

  lemma StepFiles(s: State, step: Step, f: File)
    requires Enabled(s, step) && Placed(s)
    ensures f in Next(s, step).Filed() <==> f in s.Filed() || step == FileIn(f)
    ensures f in Next(s, step).cancelled <==> f in s.cancelled || step == Cancel(f)
  {
    assert step.PutBack? ==> s.PlaceOf(step.d).Holds(s.PlaceOf(step.d).file);
  }

  lemma {:induction false} FiledOnly(run: seq<State>, steps: seq<Step>, n: nat, f: File)
    requires IsRun(run, steps) && n <= |steps|
    ensures f in run[n].Filed() <==> FiledIn(steps, n, f)
    ensures f in run[n].cancelled <==> CancelledIn(steps, n, f)
  {
    if n > 0 {
      hide Next, Enabled, Placed;
      FiledOnly(run, steps, n - 1, f);
      RunKeeps(run, steps, n - 1);
      StepFiles(run[n - 1], steps[n - 1], f);
      assert FiledIn(steps, n, f) <==> FiledIn(steps, n - 1, f) || steps[n - 1] == FileIn(f);
      assert CancelledIn(steps, n, f) <==> CancelledIn(steps, n - 1, f) || steps[n - 1] == Cancel(f);
    }
  }

  /** Whatever the interleaving and the crashes, a filed file that nobody cancelled is in exactly
      one of the two directories. */
  lemma NeverBothNeverNeither(run: seq<State>, steps: seq<Step>, n: nat, f: File)
    requires IsRun(run, steps) && n <= |steps|
    requires FiledIn(steps, n, f) && !CancelledIn(steps, n, f)
    ensures (f in run[n].queue) != (f in run[n].sent)
  {
    RunKeeps(run, steps, n);
    FiledOnly(run, steps, n, f);
  }

  /** An open file has been accepted exactly when a submit of it was misreported. */
  lemma {:induction false} OpenAcceptedIff(run: seq<State>, steps: seq<Step>, n: nat, f: File)
    requires IsRun(run, steps) && n <= |steps|
    ensures MisreportedBy(run, steps, n, f) ==> run[n].Accepted(f) > 0
    ensures Open(run[n], f) && run[n].Accepted(f) > 0 ==> MisreportedBy(run, steps, n, f)
  {
    if n > 0 {
      hide Next, Enabled, Placed, Open, Misreports;
      OpenAcceptedIff(run, steps, n - 1, f);
      RunKeeps(run, steps, n - 1);
      StepAccepts(run[n - 1], steps[n - 1], f);
      MisreportTakes(run[n - 1], steps[n - 1], f);
      assert MisreportedBy(run, steps, n, f) <==> MisreportedBy(run, steps, n - 1, f) || Misreports(run[n - 1], steps[n - 1], f);
    }
  }

  lemma MisreportTakes(s: State, step: Step, f: File)
    ensures Misreports(s, step, f) ==> Takes(s, step, f)
  {
  }

  /** Some submit of `f` is misreported and a later step takes `f` again. */
  ghost predicate TakenAgain(run: seq<State>, steps: seq<Step>, n: nat, f: File)
    requires n <= |steps| < |run|
  {
    exists j :: 0 <= j < n && MisreportedBy(run, steps, j, f) && Takes(run[j], steps[j], f)
  }

  /** In every run a file is accepted twice exactly when a submit of it that was taken had been
      reported as refused and it was taken again afterwards. */
  lemma {:induction false} TwiceIffMisreported(run: seq<State>, steps: seq<Step>, n: nat, f: File)
    requires IsRun(run, steps) && n <= |steps|
    ensures run[n].Accepted(f) >= 2 <==> TakenAgain(run, steps, n, f)
  {
    if n > 0 {
      hide Next, Enabled, Placed, Misreports, Takes;
      TwiceIffMisreported(run, steps, n - 1, f);
      OpenAcceptedIff(run, steps, n - 1, f);
      RunKeeps(run, steps, n - 1);
      StepAccepts(run[n - 1], steps[n - 1], f);
      assert TakenAgain(run, steps, n, f) <==>
        TakenAgain(run, steps, n - 1, f) || (MisreportedBy(run, steps, n - 1, f) && Takes(run[n - 1], steps[n - 1], f));
    }
  }

  /** Delivery is at most once: a file none of whose submits was misreported is not accepted twice,
      and not at all while it is queued or after it was cancelled. */
  lemma AtMostOnce(run: seq<State>, steps: seq<Step>, n: nat, f: File)
    requires IsRun(run, steps) && n <= |steps|
    ensures f in run[n].queue || f in run[n].cancelled ==> (run[n].Accepted(f) == 0 <==> !MisreportedBy(run, steps, n, f))
    ensures !MisreportedBy(run, steps, n, f) ==> run[n].Accepted(f) <= 1
  {
    TwiceIffMisreported(run, steps, n, f);
    OpenAcceptedIff(run, steps, n, f);
    if j :| 0 <= j < n && MisreportedBy(run, steps, j, f) && Takes(run[j], steps[j], f) {
      var i :| 0 <= i < j && Misreports(run[i], steps[i], f);
    }
  }

  /** The promise rests on refusals being true: one submit taken but reported as refused is
      delivered again. */
  lemma MisreportDeliversTwice(f: File) returns (run: seq<State>, steps: seq<Step>)
    ensures IsRun(run, steps) && |steps| == 6
    ensures run[6].Accepted(f) == 2
    ensures forall i :: 0 <= i < 6 && i != 2 && steps[i].Submit? ==> steps[i].answer == Taken
  {
    steps := [FileIn(f), Claim(0, f), Submit(0, MisreportedTaken), PutBack(0), Claim(1, f), Submit(1, Taken)];
    var s1 := Next(START, steps[0]);
    var s2 := Next(s1, steps[1]);
    var s3 := Next(s2, steps[2]);
    var s4 := Next(s3, steps[3]);
    var s5 := Next(s4, steps[4]);
    var s6 := Next(s5, steps[5]);
    run := [START, s1, s2, s3, s4, s5, s6];
  }

  /** A file in `sent/` that no live deliverer holds. */
  ghost predicate Stranded(s: State, f: File) {
    f in s.sent && forall d :: !s.PlaceOf(d).Holds(f)
  }

  lemma StrandedStep(s: State, step: Step, f: File)
    requires Enabled(s, step) && Placed(s) && Stranded(s, f)
    ensures Stranded(Next(s, step), f) && Next(s, step).Accepted(f) == s.Accepted(f)
  {
    var t := Next(s, step);
    var d := match step
      case FileIn(_) => 0
      case Cancel(_) => 0
      case Claim(d, _) => d
      case Submit(d, _) => d
      case PutBack(d) => d
      case Crash(d, _) => d;
    assert forall e :: e != d ==> t.PlaceOf(e) == s.PlaceOf(e);
    assert !s.PlaceOf(d).Holds(f);
    assert (step.Submit? || step.PutBack?) ==> s.PlaceOf(d).Holds(s.PlaceOf(d).file);
    assert step.Crash? && step.taken ==> s.PlaceOf(d).Holds(s.PlaceOf(d).file);
  }

  /** The step lets go of a claimed file without moving it back: the deliverer dies, its submit is
      lost in an exception, or it is taken. */
  predicate LetsGo(s: State, step: Step, f: File) {
    || (step.Crash? && s.PlaceOf(step.d).Holds(f))
    || (step.Submit? && s.PlaceOf(step.d).Holds(f) && (step.answer.Lost? || step.answer.Taken?))
  }

  lemma LettingGoStrands(s: State, step: Step, f: File)
    requires Enabled(s, step) && Placed(s) && LetsGo(s, step, f)
    ensures Stranded(Next(s, step), f)
  {
    var t := Next(s, step);
    assert forall e :: e != step.d ==> t.PlaceOf(e) == s.PlaceOf(e);
  }

  /** At most once is not at least once: in every run, once its deliverer has died, or its submit was
      lost, a claimed file stays in `sent/` for good, accepted or not as it then was. */
  lemma {:induction false} StrandedForGood(run: seq<State>, steps: seq<Step>, i: nat, n: nat, f: File)
    requires IsRun(run, steps) && i < n <= |steps| && LetsGo(run[i], steps[i], f)
    ensures Stranded(run[n], f) && f in run[n].sent
    ensures run[n].Accepted(f) == run[i + 1].Accepted(f)
  {
    RunKeeps(run, steps, n - 1);
    if n == i + 1 {
      LettingGoStrands(run[i], steps[i], f);
    } else {
      StrandedForGood(run, steps, i, n - 1, f);
      StrandedStep(run[n - 1], steps[n - 1], f);
    }
  }

  // ---- one runner's passes ----

  /** What one pass meets: a pane that is missing or not free, a submit refused, a submit taken
      whose pointer line is then seen on the screen or not. */
  datatype Visit = NotFree | RefusedSubmit | TakenSubmit(seen: bool)

  class Runner {
    var queue: set<File>
    var sent: set<File>

    constructor (queue: set<File>)
      ensures this.queue == queue && sent == {}
    {
      this.queue := queue;
      sent := {};
    }

    /** Claims `f`, submits its pointer, and moves it back when the submit was refused. */
    method Deliver(f: File, visit: Visit) returns (confirmed: bool)
      requires !visit.NotFree?
      modifies this
      ensures confirmed <==> f in old(queue) && visit == TakenSubmit(true)
      ensures f !in old(queue) || visit.RefusedSubmit? ==> queue == old(queue) && sent == old(sent) - (if f in old(queue) then {f} else {})
      ensures f in old(queue) && visit.TakenSubmit? ==> queue == old(queue) - {f} && sent == old(sent) + {f}
    {
      if f !in queue { return false; }
      queue, sent := queue - {f}, sent + {f};
      if visit.RefusedSubmit? {
        queue, sent := queue + {f}, sent - {f};
        return false;
      }
      confirmed := visit.seen;
    }

    /** The oldest queued file. */
    method Oldest() returns (f: File)
      requires queue != {}
      ensures f in queue && forall g :: g in queue ==> f <= g
    {
      f :| f in queue;
      var left := queue - {f};
      while left != {}
        invariant f in queue && left <= queue
        invariant forall g :: g in queue && g !in left ==> f <= g
        decreases left
      {
        var g :| g in left;
        if g < f { f := g; }
        left := left - {g};
      }
    }

    /** One pass in the once-through mode: done when nothing is queued, round again when the pane is not
        free, else the oldest file is delivered, and anything but a confirmed delivery ends the run. */
    method Step(visit: Visit) returns (code: Option<nat>, taken: Option<File>)
      requires queue !! sent
      modifies this
      ensures taken.None? ==> queue == old(queue) && sent == old(sent)
      ensures taken.Some? ==> queue == old(queue) - {taken.value} && sent == old(sent) + {taken.value}
      ensures Passes(old(queue), visit, code, taken)
    {
      code, taken := None, None;
      if queue == {} { return Some(0), None; }
      if visit.NotFree? { return; }
      var f := Oldest();
      assert f !in sent && sent - {f} == sent;
      var confirmed := Deliver(f, visit);
      if visit.TakenSubmit? { taken := Some(f); }
      if !confirmed { code := Some(2); }
    }

    /** One run of the runner in its once-through mode, meeting `visits` one after another. Files
        leave the queue oldest first and each once, one for every confirmed delivery up to the first
        that is not; then it stops with 2, that file gone too if its submit was taken. It reports success
        when every file was confirmed, and else is still at it when the visits run out. */
    method RunOnce(visits: seq<Visit>) returns (code: Option<nat>, claimed: seq<File>)
      requires queue !! sent
      modifies this
      ensures TakenInOrder(old(queue), old(sent), queue, sent, claimed)
      ensures RunsTo(Size(old(queue)), Met(visits), code, |claimed|)
    {
      code, claimed := None, [];
      ghost var queue0, sent0 := queue, sent;
      OnceIs(Size(queue), visits);
      assert Going(queue0, sent0, visits, queue, sent, claimed, visits);
      hide *;
      for i := 0 to |visits|
        invariant Going(queue0, sent0, visits, queue, sent, claimed, visits[i..])
      {
        assert visits[i..] != [] && visits[i..][0] == visits[i] && visits[i..][1..] == visits[i + 1..];
        GoingApart(queue0, sent0, visits, queue, sent, claimed, visits[i..]);
        ghost var before, was := queue, sent;
        var taken;
        code, taken := Step(visits[i]);
        if taken.Some? {
          TakesOne(queue0, sent0, visits, before, was, claimed, visits[i..], code, taken.value);
          claimed := claimed + [taken.value];
        } else {
          TakesNone(queue0, sent0, visits, before, was, claimed, visits[i..], code);
        }
        if code.Some? { return; }
      }
      assert visits[|visits|..] == [];
      GoneThrough(queue0, sent0, visits, queue, sent, claimed);
      code := if queue == {} then Some(0) else None;
    }
  }

  /** Part of the way through a run, with the visits `rest` to come. */
  ghost predicate Going(queue0: set<File>, sent0: set<File>, visits: seq<Visit>,
                        queue: set<File>, sent: set<File>, claimed: seq<File>, rest: seq<Visit>) {
    && queue !! sent && TakenInOrder(queue0, sent0, queue, sent, claimed)
    && Once(Size(queue0), visits) == Once(Size(queue), rest).More(|claimed|)
  }

  lemma GoingApart(queue0: set<File>, sent0: set<File>, visits: seq<Visit>,
                   queue: set<File>, sent: set<File>, claimed: seq<File>, rest: seq<Visit>)
    requires Going(queue0, sent0, visits, queue, sent, claimed, rest)
    ensures queue !! sent
  {
  }

  /** What one pass comes to. */
  ghost predicate Passes(queue: set<File>, visit: Visit, code: Option<nat>, taken: Option<File>) {
    && (taken.Some? <==> queue != {} && visit.TakenSubmit?) && (taken.Some? ==> IsOldest(taken.value, queue))
    && code == if queue == {} then Some(0) else if visit.NotFree? || visit == TakenSubmit(true) then None else Some(2)
  }

  lemma TakesOne(queue0: set<File>, sent0: set<File>, visits: seq<Visit>, queue: set<File>, sent: set<File>, claimed: seq<File>,
                 rest: seq<Visit>, code: Option<nat>, f: File)
    requires Going(queue0, sent0, visits, queue, sent, claimed, rest) && rest != [] && Passes(queue, rest[0], code, Some(f))
    ensures TakenInOrder(queue0, sent0, queue - {f}, sent + {f}, claimed + [f])
    ensures code.Some? ==> Once(Size(queue0), visits) == End(code, |claimed| + 1)
    ensures code.None? ==> Going(queue0, sent0, visits, queue - {f}, sent + {f}, claimed + [f], rest[1..])
  {
    SizeIs(queue, f);
    TakenMore(queue0, sent0, queue, sent, claimed, f);
    OnceTakes(Once(Size(queue0), visits), Size(queue), |claimed|, rest, code);
    hide TakenInOrder, Once, Size, End.More;
  }

  lemma OnceTakes(end: End, n: nat, count: nat, rest: seq<Visit>, code: Option<nat>)
    requires end == Once(n, rest).More(count) && n > 0 && rest != [] && rest[0].TakenSubmit?
    requires code == if rest[0] == TakenSubmit(true) then None else Some(2)
    ensures if code.Some? then end == End(code, count + 1) else end == Once(n - 1, rest[1..]).More(count + 1)
  {
    OnceStep(n, rest);
    hide Once;
  }

  lemma TakesNone(queue0: set<File>, sent0: set<File>, visits: seq<Visit>, queue: set<File>, sent: set<File>, claimed: seq<File>,
                  rest: seq<Visit>, code: Option<nat>)
    requires Going(queue0, sent0, visits, queue, sent, claimed, rest) && rest != [] && Passes(queue, rest[0], code, None)
    ensures TakenInOrder(queue0, sent0, queue, sent, claimed)
    ensures code.Some? ==> Once(Size(queue0), visits) == End(code, |claimed|)
    ensures code.None? ==> Going(queue0, sent0, visits, queue, sent, claimed, rest[1..])
  {
    SizeIs(queue, 0);
    OnceStep(Size(queue), rest);
    hide TakenInOrder, Once, Size;
  }

  ghost function Size(files: set<File>): nat {
    |files|
  }

  lemma SizeIs(files: set<File>, f: File)
    ensures Size(files) == 0 <==> files == {}
    ensures f in files ==> Size(files - {f}) == Size(files) - 1
  {
  }

  lemma GoneThrough(queue0: set<File>, sent0: set<File>, visits: seq<Visit>, queue: set<File>, sent: set<File>, claimed: seq<File>)
    requires Going(queue0, sent0, visits, queue, sent, claimed, [])
    ensures TakenInOrder(queue0, sent0, queue, sent, claimed)
    ensures Once(Size(queue0), visits) == End(if queue == {} then Some(0) else None, |claimed|)
  {
  }

  ghost predicate IsOldest(f: File, queue: set<File>) {
    f in queue && forall g :: g in queue ==> f <= g
  }

  /** The files of `claimed` went from the queue to `sent/`, oldest first, each once. */
  ghost predicate TakenInOrder(queue0: set<File>, sent0: set<File>, queue: set<File>, sent: set<File>, claimed: seq<File>) {
    && (forall i, j :: 0 <= i < j < |claimed| ==> claimed[i] < claimed[j])
    && queue == queue0 - (set f | f in claimed) && sent == sent0 + (set f | f in claimed)
    && (set f | f in claimed) <= queue0
    && (forall f, g :: f in claimed && g in queue ==> f < g)
  }

  lemma TakenMore(queue0: set<File>, sent0: set<File>, queue: set<File>, sent: set<File>, claimed: seq<File>, f: File)
    requires TakenInOrder(queue0, sent0, queue, sent, claimed) && IsOldest(f, queue)
    ensures TakenInOrder(queue0, sent0, queue - {f}, sent + {f}, claimed + [f])
  {
    assert (set g | g in claimed + [f]) == (set g | g in claimed) + {f};
    forall k | 0 <= k < |claimed| ensures claimed[k] < f {
      assert claimed[k] in claimed && f in queue;
    }
  }

  /** A run over `n` queued files that finds the pane free at the visits `met` ends with `code`, `count`
      files out of the queue: 0 and all of them when that many deliveries in a row were confirmed, else 2
      at the first that was not, with its file if the submit was taken, else nothing yet. */
  ghost predicate RunsTo(n: nat, met: seq<Visit>, code: Option<nat>, count: nat) {
    var good := Confirmed(met);
    if good >= n then code == Some(0) && count == n
    else if good < |met| then code == Some(2) && count == good + (if met[good].TakenSubmit? then 1 else 0)
    else code == None && count == good
  }

  lemma OnceStep(n: nat, visits: seq<Visit>)
    ensures visits == [] ==> Once(n, visits) == End(if n == 0 then Some(0) else None, 0)
    ensures n == 0 ==> Once(n, visits) == End(Some(0), 0)
    ensures n > 0 && visits != [] && visits[0].NotFree? ==> Once(n, visits) == Once(n, visits[1..])
    ensures n > 0 && visits != [] && visits[0].RefusedSubmit? ==> Once(n, visits) == End(Some(2), 0)
    ensures n > 0 && visits != [] && visits[0] == TakenSubmit(false) ==> Once(n, visits) == End(Some(2), 1)
    ensures n > 0 && visits != [] && visits[0] == TakenSubmit(true) ==>
      Once(n, visits) == Once(n - 1, visits[1..]).More(1)
  {
  }

  datatype End = End(code: Option<nat>, count: nat) {
    function More(n: nat): End {
      End(code, count + n)
    }
  }

  /** How a run over `n` queued files ends, and how many it takes out of the queue. */
  function Once(n: nat, visits: seq<Visit>): End {
    if n == 0 then End(Some(0), 0)
    else if visits == [] then End(None, 0)
    else
      match visits[0]
      case NotFree => Once(n, visits[1..])
      case RefusedSubmit => End(Some(2), 0)
      case TakenSubmit(seen) => if seen then Once(n - 1, visits[1..]).More(1) else End(Some(2), 1)
  }

  lemma MetStep(visits: seq<Visit>)
    requires visits != []
    ensures var met, rest := Met(visits), Met(visits[1..]);
      if visits[0].NotFree? then met == rest else met != [] && met[0] == visits[0] && met[1..] == rest
  {
  }

  lemma {:induction false} OnceIs(n: nat, visits: seq<Visit>)
    ensures RunsTo(n, Met(visits), Once(n, visits).code, Once(n, visits).count)
  {
    if n != 0 && visits != [] {
      MetStep(visits);
      hide Met;
      if visits[0].NotFree? {
        OnceIs(n, visits[1..]);
      } else if visits[0] == TakenSubmit(true) {
        OnceIs(n - 1, visits[1..]);
        ConfirmedIs(Met(visits[1..]));
      }
    }
  }

  /** The visits that found the pane free. */
  function Met(visits: seq<Visit>): seq<Visit> {
    if visits == [] then [] else (if visits[0].NotFree? then [] else [visits[0]]) + Met(visits[1..])
  }

  /** How many of them, from the first on, ended in a confirmed delivery without a break. */
  function Confirmed(met: seq<Visit>): nat {
    if met != [] && met[0] == TakenSubmit(true) then 1 + Confirmed(met[1..]) else 0
  }

  /** So success means that the queue was emptied by that many confirmed deliveries in a row. */
  lemma {:induction false} ConfirmedIs(met: seq<Visit>)
    ensures Confirmed(met) <= |met| && (forall k :: 0 <= k < Confirmed(met) ==> met[k] == TakenSubmit(true))
    ensures Confirmed(met) < |met| ==> met[Confirmed(met)] != TakenSubmit(true)
  {
    if met != [] && met[0] == TakenSubmit(true) { ConfirmedIs(met[1..]); }
  }
}
