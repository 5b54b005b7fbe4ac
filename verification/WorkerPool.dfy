/** The worker pool (server/internal/worker/worker.go): a job channel shared by the
    workers, the busy counter, and Destroy with one sentinel per worker. */
module WorkerPool {
  import opened Wrappers
  import opened Counting

  /** The capacity of the job channel. */
  const JOBS_CAPACITY: int := 1024 * 1024

  /** Where a worker is in its loop: receiving, with a job in hand, counted as busy, and
      with the job committed but still counted. */
  datatype Worker<J> = Receiving | Got(job: J) | Busy(job: J) | Committed(job: J) | Exited

  /** jobs is the channel, with None for the sentinel; sent counts Destroy's sentinels. */
  datatype State<J> = State(jobs: seq<Option<J>>, workers: seq<Worker<J>>, busy: int,
                            destroying: bool, sent: nat, destroyed: bool)

  datatype Step<J> =
    | Submit(j: J)          // SubmitJob
    | Receive(w: nat)       // job := <-p.jobs
    | MarkBusy(w: nat)      // AddInt64(&p.busy, 1)
    | Commit(w: nat, j: J)  // Do and job.commit, for the job j
    | MarkFree(w: nat)      // AddInt64(&p.busy, -1)
    | StartDestroy
    | SendSentinel
    | FinishDestroy         // wg.Wait returns

  function Init<J>(workers: nat): State<J> {
    State([], seq(workers, _ => Receiving), 0, false, 0, false)
  }

  predicate Enabled<J(==)>(s: State<J>, step: Step<J>) {
    match step
    case Submit(j) => !s.destroying && |s.jobs| < JOBS_CAPACITY
    case Receive(w) => w < |s.workers| && s.workers[w].Receiving? && s.jobs != []
    case MarkBusy(w) => w < |s.workers| && s.workers[w].Got?
    case Commit(w, j) => w < |s.workers| && s.workers[w] == Worker.Busy(j)
    case MarkFree(w) => w < |s.workers| && s.workers[w].Committed?
    case StartDestroy => !s.destroying
    case SendSentinel => s.destroying && s.sent < |s.workers| && |s.jobs| < JOBS_CAPACITY
    case FinishDestroy =>
      s.destroying && s.sent == |s.workers| && forall w :: 0 <= w < |s.workers| ==> s.workers[w].Exited?
  }

  function SetWorker<J>(s: State<J>, w: nat, x: Worker<J>): State<J>
    requires w < |s.workers|
  {
    s.(workers := s.workers[w := x])
  }

  function Apply<J>(s: State<J>, step: Step<J>): State<J>
    requires Enabled(s, step)
  {
    match step
    case Submit(j) => s.(jobs := s.jobs + [Some(j)])
    case Receive(w) =>
      SetWorker(s, w, if s.jobs[0].Some? then Got(s.jobs[0].value) else Exited).(jobs := s.jobs[1..])
    case MarkBusy(w) => SetWorker(s, w, Worker.Busy(s.workers[w].job)).(busy := s.busy + 1)
    case Commit(w, j) => SetWorker(s, w, Committed(j))
    case MarkFree(w) => SetWorker(s, w, Receiving).(busy := s.busy - 1)
    case StartDestroy => s.(destroying := true)
    case SendSentinel => s.(jobs := s.jobs + [None], sent := s.sent + 1)
    case FinishDestroy => s.(destroyed := true)
  }

  function Exec<J(==)>(workers: nat, steps: seq<Step<J>>): Option<State<J>> {
    if steps == [] then Some(Init(workers))
    else
      var before := Exec(workers, steps[..|steps| - 1]);
      var last := steps[|steps| - 1];
      if before.Some? && Enabled(before.value, last) then Some(Apply(before.value, last)) else None
  }

  lemma ExecSnoc<J>(workers: nat, steps: seq<Step<J>>, step: Step<J>)
    requires Exec(workers, steps).Some? && Enabled(Exec(workers, steps).value, step)
    ensures Exec(workers, steps + [step]) == Some(Apply(Exec(workers, steps).value, step))
  {
    assert (steps + [step])[..|steps|] == steps;
  }

  // ------------------------------------------------------------------- counts

  function Sentinels<J>(s: State<J>): nat {
    Count(s.jobs, (j: Option<J>) => j.None?)
  }

  function ExitedCount<J>(s: State<J>): nat {
    Count(s.workers, (w: Worker<J>) => w.Exited?)
  }

  predicate Counted<J>(w: Worker<J>) {
    w.Busy? || w.Committed?
  }

  function BusyCount<J>(s: State<J>): nat {
    Count(s.workers, (w: Worker<J>) => Counted(w))
  }

  /** The jobs satisfying p that wait in the channel. */
  function Queued<J>(s: State<J>, p: J -> bool): nat {
    Count(s.jobs, (j: Option<J>) => j.Some? && p(j.value))
  }

  predicate Holds<J>(w: Worker<J>, p: J -> bool) {
    (w.Got? || w.Busy?) && p(w.job)
  }

  /** The jobs satisfying p that a worker has received and not committed. */
  function InHand<J>(s: State<J>, p: J -> bool): nat {
    Count(s.workers, (w: Worker<J>) => Holds(w, p))
  }

  // --------------------------------------------------------------- the invariant

  /** Real jobs come before sentinels, and once a worker has quit only sentinels are left. */
  ghost predicate QueueOk<J>(s: State<J>) {
    && |s.jobs| <= JOBS_CAPACITY
    && (forall i, j :: 0 <= i < j < |s.jobs| && s.jobs[i].None? ==> s.jobs[j].None?)
    && (!s.destroying ==> forall i :: 0 <= i < |s.jobs| ==> s.jobs[i].Some?)
    && (ExitedCount(s) > 0 ==> forall i :: 0 <= i < |s.jobs| ==> s.jobs[i].None?)
  }

  ghost predicate CountsOk<J>(s: State<J>) {
    && s.busy == BusyCount(s)
    && ExitedCount(s) + Sentinels(s) == s.sent <= |s.workers|
    && (!s.destroying ==> s.sent == 0)
    && (s.destroyed ==> s.sent == |s.workers| == ExitedCount(s))
  }

  lemma InitOk<J>(workers: nat)
    ensures QueueOk(Init<J>(workers)) && CountsOk(Init<J>(workers))
  {
    var s := Init<J>(workers);
    CountNone(s.workers, (w: Worker<J>) => w.Exited?);
    CountNone(s.workers, (w: Worker<J>) => Counted(w));
  }

  lemma WorkerCounts<J>(s: State<J>, w: nat, x: Worker<J>)
    requires w < |s.workers|
    ensures var t := SetWorker(s, w, x);
            && ExitedCount(t) + Bit(s.workers[w].Exited?) == ExitedCount(s) + Bit(x.Exited?)
            && BusyCount(t) + Bit(Counted(s.workers[w])) == BusyCount(s) + Bit(Counted(x))
  {
    CountUpdate(s.workers, w, x, (w: Worker<J>) => w.Exited?);
    CountUpdate(s.workers, w, x, (w: Worker<J>) => Counted(w));
  }

  lemma WorkerHolds<J>(s: State<J>, w: nat, x: Worker<J>, p: J -> bool)
    requires w < |s.workers|
    ensures var t := SetWorker(s, w, x);
            InHand(t, p) + Bit(Holds(s.workers[w], p)) == InHand(s, p) + Bit(Holds(x, p))
  {
    CountUpdate(s.workers, w, x, (w: Worker<J>) => Holds(w, p));
  }

  lemma ReceiveCounts<J>(s: State<J>)
    requires s.jobs != []
    ensures Sentinels(s) == Bit(s.jobs[0].None?) + Count(s.jobs[1..], (j: Option<J>) => j.None?)
  {
    CountTail(s.jobs, (j: Option<J>) => j.None?);
  }

  lemma StepKeepsCounts<J>(s: State<J>, step: Step<J>)
    requires CountsOk(s) && Enabled(s, step)
    ensures CountsOk(Apply(s, step)) && |Apply(s, step).workers| == |s.workers|
  {
    var t := Apply(s, step);
    match step
    case Submit(j) => CountAppend(s.jobs, Some(j), (j: Option<J>) => j.None?);
    case Receive(w) =>
      WorkerCounts(s, w, if s.jobs[0].Some? then Got(s.jobs[0].value) else Exited);
      ReceiveCounts(s);
    case MarkBusy(w) => WorkerCounts(s, w, Worker.Busy(s.workers[w].job));
    case Commit(w, j) => WorkerCounts(s, w, Committed(j));
    case MarkFree(w) => WorkerCounts(s, w, Receiving);
    case StartDestroy =>
    case SendSentinel => CountAppend(s.jobs, None, (j: Option<J>) => j.None?);
    case FinishDestroy => CountFull(s.workers, (w: Worker<J>) => w.Exited?);
  }

  lemma StepKeepsQueue<J>(s: State<J>, step: Step<J>)
    requires QueueOk(s) && CountsOk(s) && Enabled(s, step)
    ensures QueueOk(Apply(s, step))
  {
    match step
    case Submit(j) =>
    case Receive(w) => ReceiveKeepsQueue(s, w);
    case MarkBusy(w) => WorkerCounts(s, w, Worker.Busy(s.workers[w].job));
    case Commit(w, j) => WorkerCounts(s, w, Committed(j));
    case MarkFree(w) => WorkerCounts(s, w, Receiving);
    case StartDestroy =>
    case SendSentinel =>
    case FinishDestroy =>
  }

  lemma ReceiveKeepsQueue<J>(s: State<J>, w: nat)
    requires QueueOk(s) && Enabled(s, Receive(w))
    ensures QueueOk(Apply(s, Receive(w)))
  {
    WorkerCounts(s, w, if s.jobs[0].Some? then Got(s.jobs[0].value) else Exited);
    var t := Apply(s, Receive(w));
    assert forall i :: 0 <= i < |t.jobs| ==> t.jobs[i] == s.jobs[i + 1];
    if s.jobs[0].None? {
      assert forall k :: 1 <= k < |s.jobs| ==> s.jobs[k].None?;
    }
  }

  lemma {:induction false} RunKeepsInv<J>(workers: nat, steps: seq<Step<J>>)
    requires Exec(workers, steps).Some?
    ensures var s := Exec(workers, steps).value; QueueOk(s) && CountsOk(s) && |s.workers| == workers
    ensures |Exec(workers, steps).value.jobs| <= 1024 * 1024
  {
    if steps == [] {
      InitOk<J>(workers);
    } else {
      var before, last := steps[..|steps| - 1], steps[|steps| - 1];
      RunKeepsInv(workers, before);
      StepKeepsCounts(Exec(workers, before).value, last);
      StepKeepsQueue(Exec(workers, before).value, last);
    }
  }

  // ------------------------------------------------- what a run's steps say

  /** How many jobs satisfying p a run submits. */
  function Submitted<J>(steps: seq<Step<J>>, p: J -> bool): nat {
    Count(steps, (x: Step<J>) => x.Submit? && p(x.j))
  }

  /** How many jobs satisfying p a run executes and commits. */
  function Executed<J>(steps: seq<Step<J>>, p: J -> bool): nat {
    Count(steps, (x: Step<J>) => x.Commit? && p(x.j))
  }

  lemma CountsSnoc<J>(steps: seq<Step<J>>, step: Step<J>, p: J -> bool)
    ensures Submitted(steps + [step], p) == Submitted(steps, p) + Bit(step.Submit? && p(step.j))
    ensures Executed(steps + [step], p) == Executed(steps, p) + Bit(step.Commit? && p(step.j))
  {
    CountAppend(steps, step, (x: Step<J>) => x.Submit? && p(x.j));
    CountAppend(steps, step, (x: Step<J>) => x.Commit? && p(x.j));
  }

  lemma HeadIsQueued<J>(s: State<J>, p: J -> bool)
    requires s.jobs != [] && s.jobs[0].Some? && p(s.jobs[0].value)
    ensures Queued(s, p) > 0
  {
    CountMember(s.jobs, 0, (j: Option<J>) => j.Some? && p(j.value));
  }

  lemma HeldIsInHand<J>(s: State<J>, w: nat, p: J -> bool)
    requires w < |s.workers| && Holds(s.workers[w], p)
    ensures InHand(s, p) > 0
  {
    CountMember(s.workers, w, (w: Worker<J>) => Holds(w, p));
  }

  lemma ReceiveMoves<J>(s: State<J>, w: nat, p: J -> bool)
    requires Enabled(s, Receive(w))
    ensures var t := Apply(s, Receive(w));
            var moved := Bit(s.jobs[0].Some? && p(s.jobs[0].value));
            Queued(t, p) + moved == Queued(s, p) && InHand(t, p) == InHand(s, p) + moved
  {
    WorkerHolds(s, w, if s.jobs[0].Some? then Got(s.jobs[0].value) else Exited, p);
    CountTail(s.jobs, (j: Option<J>) => j.Some? && p(j.value));
  }

  /** What a step does to the jobs satisfying p: SubmitJob queues one, a receive puts it in
      a worker's hands, a commit takes it from there. */
  lemma StepMoves<J>(s: State<J>, step: Step<J>, p: J -> bool)
    requires Enabled(s, step)
    ensures var t := Apply(s, step);
            var moved := Bit(step.Receive? && s.jobs[0].Some? && p(s.jobs[0].value));
            && Queued(t, p) + moved == Queued(s, p) + Bit(step.Submit? && p(step.j))
            && InHand(t, p) + Bit(step.Commit? && p(step.j)) == InHand(s, p) + moved
  {
    match step
    case Submit(j) => CountAppend(s.jobs, Some(j), (j: Option<J>) => j.Some? && p(j.value));
    case Receive(w) => ReceiveMoves(s, w, p);
    case MarkBusy(w) => WorkerHolds(s, w, Worker.Busy(s.workers[w].job), p);
    case Commit(w, j) => WorkerHolds(s, w, Committed(j), p);
    case MarkFree(w) => WorkerHolds(s, w, Receiving, p);
    case StartDestroy =>
    case SendSentinel => CountAppend(s.jobs, None, (j: Option<J>) => j.Some? && p(j.value));
    case FinishDestroy =>
  }

  /** After every run, the jobs submitted are exactly those queued, in a worker's hands, and
      executed; for every way p of picking jobs out. */
  lemma {:induction false} Conservation<J>(workers: nat, steps: seq<Step<J>>, p: J -> bool)
    requires Exec(workers, steps).Some?
    ensures var s := Exec(workers, steps).value;
            Submitted(steps, p) == Queued(s, p) + InHand(s, p) + Executed(steps, p)
  {
    if steps == [] {
      CountNone(Init<J>(workers).workers, (w: Worker<J>) => Holds(w, p));
    } else {
      var before, last := steps[..|steps| - 1], steps[|steps| - 1];
      Conservation(workers, before, p);
      StepMoves(Exec(workers, before).value, last, p);
    }
  }

  // ------------------------------------------------------------------ theorems

  /** The busy count is within [0, workers]. */
  lemma BusyRange<J>(workers: nat, steps: seq<Step<J>>)
    requires Exec(workers, steps).Some?
    ensures 0 <= Exec(workers, steps).value.busy <= workers
  {
    RunKeepsInv(workers, steps);
    CountBound(Exec(workers, steps).value.workers, (w: Worker<J>) => Counted(w));
  }

  /** When Destroy has returned, every worker has quit on one sentinel of its own, none is
      left, and nobody is busy. */
  lemma Destroyed<J>(workers: nat, steps: seq<Step<J>>)
    requires Exec(workers, steps).Some? && Exec(workers, steps).value.destroyed
    ensures var s := Exec(workers, steps).value;
            && |s.workers| == workers && (forall w :: 0 <= w < workers ==> s.workers[w].Exited?)
            && s.sent == workers && Sentinels(s) == 0 && s.busy == 0
            && (workers > 0 ==> s.jobs == [])
  {
    RunKeepsInv(workers, steps);
    var s := Exec(workers, steps).value;
    forall w | 0 <= w < workers ensures s.workers[w].Exited? {
      CountAll(s.workers, w, (w: Worker<J>) => w.Exited?);
    }
    CountNone(s.workers, (w: Worker<J>) => Counted(w));
    HeadSentinel(s);
  }

  lemma HeadSentinel<J>(s: State<J>)
    ensures s.jobs != [] && s.jobs[0].None? ==> Sentinels(s) > 0
  {
    if s.jobs != [] && s.jobs[0].None? {
      CountMember(s.jobs, 0, (j: Option<J>) => j.None?);
    }
  }

  lemma {:induction false} NoWorkersNoWork<J>(steps: seq<Step<J>>, p: J -> bool)
    requires Exec<J>(0, steps).Some?
    ensures Executed(steps, p) == 0
  {
    if steps != [] {
      RunKeepsInv(0, steps[..|steps| - 1]);
      NoWorkersNoWork(steps[..|steps| - 1], p);
    }
  }

  /** When Destroy has returned, every submitted job has been executed and committed exactly
      once, if and only if the pool has a worker or nothing was submitted. */
  lemma DrainedByDestroy<J>(workers: nat, steps: seq<Step<J>>, p: J -> bool)
    requires Exec(workers, steps).Some? && Exec(workers, steps).value.destroyed
    ensures Executed(steps, p) == Submitted(steps, p) <==> workers > 0 || Submitted(steps, p) == 0
  {
    Destroyed(workers, steps);
    Conservation(workers, steps, p);
    var s := Exec(workers, steps).value;
    assert forall w :: 0 <= w < |s.workers| ==> !Holds(s.workers[w], p);
    CountNone(s.workers, (w: Worker<J>) => Holds(w, p));
    if workers == 0 {
      NoWorkersNoWork(steps, p);
    }
  }

  /** A pool without workers: a job is submitted, Destroy returns, the job was not executed. */
  lemma UndrainedExample<J>(j: J) returns (steps: seq<Step<J>>)
    ensures Exec(0, steps).Some? && Exec(0, steps).value.destroyed
    ensures Submitted(steps, (x: J) => x == j) == 1 && Executed(steps, (x: J) => x == j) == 0
  {
    var none: seq<Step<J>> := [];
    ExecSnoc(0, none, Submit(j));
    ExecSnoc(0, [Submit(j)], StartDestroy);
    ExecSnoc(0, [Submit(j), StartDestroy], FinishDestroy);
    steps := [Submit(j), StartDestroy, FinishDestroy];
    assert none + [Submit(j)] == [Submit(j)];
    assert [Submit(j)] + [StartDestroy] == [Submit(j), StartDestroy];
    assert [Submit(j), StartDestroy] + [FinishDestroy] == steps;
    NoWorkersNoWork(steps, (x: J) => x == j);
    CountsSnoc(none, Submit(j), (x: J) => x == j);
    CountsSnoc([Submit(j)], StartDestroy, (x: J) => x == j);
    CountsSnoc([Submit(j), StartDestroy], FinishDestroy, (x: J) => x == j);
  }

  // ------------------------------------------------- Destroy makes progress

  function JobWeight<J>(j: Option<J>): nat {
    if j.Some? then 4 else 1
  }

  function WorkerWeight<J>(w: Worker<J>): nat {
    match w
    case Receiving => 0
    case Got(_) => 3
    case Busy(_) => 2
    case Committed(_) => 1
    case Exited => 0
  }

  /** The steps still to come before Destroy can return. */
  function Remaining<J>(s: State<J>): nat
    requires s.sent <= |s.workers|
  {
    2 * (|s.workers| - s.sent) + Sum(s.jobs, (j: Option<J>) => JobWeight(j))
    + Sum(s.workers, (w: Worker<J>) => WorkerWeight(w))
  }

  /** While Destroy waits, every step uses up some of the remaining work. */
  lemma DestroyDecreases<J>(workers: nat, steps: seq<Step<J>>, step: Step<J>)
    requires Exec(workers, steps).Some? && Exec(workers, steps).value.destroying
    requires Enabled(Exec(workers, steps).value, step) && !step.FinishDestroy?
    ensures var s := Exec(workers, steps).value;
            && s.sent <= |s.workers| && Apply(s, step).sent <= |Apply(s, step).workers|
            && Remaining(Apply(s, step)) < Remaining(s)
  {
    RunKeepsInv(workers, steps);
    StepWeighs(Exec(workers, steps).value, step);
  }

  lemma WorkerWeighs<J>(s: State<J>, w: nat, x: Worker<J>)
    requires w < |s.workers| && s.sent <= |s.workers|
    ensures Remaining(SetWorker(s, w, x)) + WorkerWeight(s.workers[w]) == Remaining(s) + WorkerWeight(x)
  {
    SumUpdate(s.workers, w, x, (w: Worker<J>) => WorkerWeight(w));
  }

  lemma QueueWeighs<J>(s: State<J>, j: Option<J>)
    requires s.sent <= |s.workers|
    ensures Remaining(s.(jobs := s.jobs + [j])) == Remaining(s) + JobWeight(j)
    ensures s.jobs != [] ==> Remaining(s) == Remaining(s.(jobs := s.jobs[1..])) + JobWeight(s.jobs[0])
  {
    SumAppend(s.jobs, j, (j: Option<J>) => JobWeight(j));
    if s.jobs != [] {
      SumTail(s.jobs, (j: Option<J>) => JobWeight(j));
    }
  }

  lemma StepWeighs<J>(s: State<J>, step: Step<J>)
    requires s.destroying && s.sent <= |s.workers| && Enabled(s, step) && !step.FinishDestroy?
    ensures Apply(s, step).sent <= |Apply(s, step).workers| && Remaining(Apply(s, step)) < Remaining(s)
  {
    match step
    case Receive(w) =>
      var x := if s.jobs[0].Some? then Got(s.jobs[0].value) else Exited;
      QueueWeighs(s, None);
      WorkerWeighs(s.(jobs := s.jobs[1..]), w, x);
      assert Apply(s, step) == SetWorker(s.(jobs := s.jobs[1..]), w, x);
    case MarkBusy(w) => WorkerWeighs(s, w, Worker.Busy(s.workers[w].job));
    case Commit(w, j) => WorkerWeighs(s, w, Committed(j));
    case MarkFree(w) => WorkerWeighs(s, w, Receiving);
    case SendSentinel => QueueWeighs(s, None);
  }

  /** A step of worker w that is enabled, if there is one. */
  ghost predicate CanMove<J>(s: State<J>, w: nat) {
    || Enabled(s, Receive(w)) || Enabled(s, MarkBusy(w)) || Enabled(s, MarkFree(w))
    || (w < |s.workers| && s.workers[w].Busy? && Enabled(s, Commit(w, s.workers[w].job)))
  }

  /** And while Destroy waits, some step is possible: it never hangs. */
  lemma DestroyNeverStuck<J>(workers: nat, steps: seq<Step<J>>)
    requires Exec(workers, steps).Some?
    requires var s := Exec(workers, steps).value; s.destroying && !s.destroyed
    ensures var s := Exec(workers, steps).value;
            Enabled(s, FinishDestroy) || Enabled(s, SendSentinel) || exists w :: 0 <= w < workers && CanMove(s, w)
  {
    RunKeepsInv(workers, steps);
    var s := Exec(workers, steps).value;
    if forall w :: 0 <= w < workers ==> s.workers[w].Exited? {
      CountFull(s.workers, (w: Worker<J>) => w.Exited?);
    } else {
      var w :| 0 <= w < workers && !s.workers[w].Exited?;
      if s.jobs == [] && s.sent == workers {
        CountAll(s.workers, w, (w: Worker<J>) => w.Exited?);
      } else if s.jobs != [] || !s.workers[w].Receiving? {
        assert CanMove(s, w);
      }
    }
  }
}
