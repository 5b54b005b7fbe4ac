/** One client connection on the server (server/internal/client/client.go): the getter,
    the blocker, the pools' workers, the response channel, the submitter and destroy. */
module Pipeline {
  import opened Wrappers
  import opened Counting

  /** The blocker's limit and the response channel's capacity. The results below hold for
      every limit. */
  const MAX_OUTSTANDING_REQUESTS: nat := 1024

  // -------------------------------------------------------------- the blocker

  /** The fields of a blocker. wg is the WaitGroup's count. */
  datatype Blocker = Blocker(left: int, wg: int, closed: bool)

  datatype Entry = EnterClosed | Admitted | MustWait

  /** The first section of Do. */
  function EnterCore(b: Blocker): (Blocker, Entry) {
    if b.closed then (b, EnterClosed)
    else if b.left - 1 >= 0 then (b.(left := b.left - 1), Admitted)
    else (b.(left := b.left - 1, wg := b.wg + 1), MustWait)
  }

  function DoneCore(b: Blocker): Blocker {
    if b.closed then b
    else if b.left + 1 == 0 then b.(left := b.left + 1, wg := b.wg - 1)
    else b.(left := b.left + 1)
  }

  function CloseCore(b: Blocker): Blocker {
    if b.closed then b
    else if b.left < 0 then b.(closed := true, wg := b.wg - 1)
    else b.(closed := true)
  }

  /** The sections of the blocker's methods under its mutex, in place. */
  class BlockerObject {
    var requestsLeft: int
    var wg: int
    var closed: bool

    function View(): Blocker
      reads this
    {
      Blocker(requestsLeft, wg, closed)
    }

    constructor (max: nat)
      ensures View() == Blocker(max, 0, false)
    {
      requestsLeft, wg, closed := max, 0, false;
    }

    /** Do up to its wait. */
    method Do() returns (e: Entry)
      modifies this
      ensures (View(), e) == EnterCore(old(View()))
      ensures e == EnterClosed <==> old(closed)
      ensures e == Admitted <==> !old(closed) && old(requestsLeft) >= 1
      ensures closed == old(closed) && requestsLeft == old(requestsLeft) - Bit(!old(closed))
      ensures wg == old(wg) + Bit(e == MustWait)
    {
      if closed {
        return EnterClosed;
      }
      requestsLeft := requestsLeft - 1;
      if requestsLeft >= 0 {
        return Admitted;
      }
      wg := wg + 1;
      return MustWait;
    }

    /** Do after its wait. */
    method Recheck() returns (isClosed: bool)
      ensures isClosed == closed
    {
      isClosed := closed;
    }

    method Done()
      modifies this
      ensures View() == DoneCore(old(View()))
      ensures closed == old(closed) && requestsLeft == old(requestsLeft) + Bit(!old(closed))
      ensures wg == old(wg) - Bit(!old(closed) && old(requestsLeft) == -1)
    {
      if closed {
        return;
      }
      requestsLeft := requestsLeft + 1;
      if requestsLeft == 0 {
        wg := wg - 1;
      }
    }

    method Close()
      modifies this
      ensures View() == CloseCore(old(View()))
      ensures closed && requestsLeft == old(requestsLeft)
      ensures wg == old(wg) - Bit(!old(closed) && old(requestsLeft) < 0)
    {
      if closed {
        return;
      }
      closed := true;
      if requestsLeft < 0 {
        wg := wg - 1;
      }
    }
  }

  // -------------------------------------------------------------- the machine

  /** A job read from the client, and the pool GetJob chose for it. */
  datatype Request = Request(id: nat, pool: nat)

  datatype Getter =
    | Reading
    | Entering(req: Request)
    | Blocked(req: Request)
    | Woken(req: Request)
    | Submitting(req: Request)
    | GetterExited

  /** A response is known by the number of the request it answers. */
  datatype Submitter = Selecting | GotResponse(id: nat) | Replying(id: nat) | SubmitterExited

  /** How far the one effective call of destroy has come. */
  datatype Destroyer = Alive | Swapped | ConnGone | BlockerClosed | DoneClosed

  /** max is both the blocker's limit and the response channel's capacity. queued and
      executing are this connection's jobs in the pools; responses is the
      response channel; doneCloses counts the closings of done. */
  datatype State = State(max: nat, b: Blocker, getter: Getter, submitter: Submitter,
                         queued: nat, executing: nat, responses: seq<nat>,
                         destroyer: Destroyer, doneCloses: nat)

  datatype Step =
    | GetJob(req: Request)  // conn.GetJob returns a job
    | NoJob                 // conn.GetJob returns false
    | Enter                 // blocker.Do up to its wait
    | Wake                  // wg.Wait returns
    | Recheck               // Do reads closed again
    | Submit(req: Request)  // pool.SubmitJob has found room in the pool's queue
    | WorkerTake            // a worker receives one of this connection's jobs
    | Commit(id: nat)       // the worker sends the response
    | Take                  // the submitter receives a response
    | SelectDone            // the submitter sees done closed
    | CallDone              // blocker.Done
    | Reply(id: nat, ok: bool)  // conn.SubmitResult returns
    | Swap                  // destroy's compare-and-swap succeeds
    | DestroyConn           // conn.Destroy
    | DestroyBlocker        // blocker.Close
    | DestroyDone           // close(done)

  function Init(max: nat): State {
    State(max, Blocker(max, 0, false), Reading, Selecting, 0, 0, [], Alive, 0)
  }

  /** conn.Destroy has been called: GetJob and SubmitResult return false from then on. */
  predicate ConnDead(s: State) {
    s.destroyer.ConnGone? || s.destroyer.BlockerClosed? || s.destroyer.DoneClosed?
  }

  predicate Enabled(s: State, step: Step) {
    match step
    case GetJob(req) => s.getter.Reading? && !ConnDead(s)
    case NoJob => s.getter.Reading?
    case Enter => s.getter.Entering?
    case Wake => s.getter.Blocked? && s.b.wg == 0
    case Recheck => s.getter.Woken?
    case Submit(req) => s.getter == Submitting(req)
    case WorkerTake => s.queued > 0
    case Commit(id) => s.executing > 0 && |s.responses| < s.max
    case Take => s.submitter.Selecting? && s.responses != []
    case SelectDone => s.submitter.Selecting? && s.doneCloses > 0
    case CallDone => s.submitter.GotResponse?
    case Reply(id, ok) => s.submitter == Replying(id) && (ok ==> !ConnDead(s))
    case Swap => s.destroyer.Alive?
    case DestroyConn => s.destroyer.Swapped?
    case DestroyBlocker => s.destroyer.ConnGone?
    case DestroyDone => s.destroyer.BlockerClosed?
  }

  function Apply(s: State, step: Step): State
    requires Enabled(s, step)
  {
    match step
    case GetJob(req) => s.(getter := Entering(req))
    case NoJob => s.(getter := GetterExited)
    case Enter =>
      var (b, e) := EnterCore(s.b);
      var req := s.getter.req;
      s.(b := b, getter := match e
                           case EnterClosed => GetterExited
                           case Admitted => Submitting(req)
                           case MustWait => Blocked(req))
    case Wake => s.(getter := Woken(s.getter.req))
    case Recheck => s.(getter := if s.b.closed then GetterExited else Submitting(s.getter.req))
    case Submit(req) => s.(queued := s.queued + 1, getter := Reading)
    case WorkerTake => s.(queued := s.queued - 1, executing := s.executing + 1)
    case Commit(id) => s.(executing := s.executing - 1, responses := s.responses + [id])
    case Take => s.(responses := s.responses[1..], submitter := GotResponse(s.responses[0]))
    case SelectDone => s.(submitter := SubmitterExited)
    case CallDone => s.(b := DoneCore(s.b), submitter := Replying(s.submitter.id))
    case Reply(id, ok) => s.(submitter := if ok then Selecting else SubmitterExited)
    case Swap => s.(destroyer := Swapped)
    case DestroyConn => s.(destroyer := ConnGone)
    case DestroyBlocker => s.(b := CloseCore(s.b), destroyer := BlockerClosed)
    case DestroyDone => s.(destroyer := DoneClosed, doneCloses := s.doneCloses + 1)
  }

  function Exec(max: nat, steps: seq<Step>): Option<State> {
    if steps == [] then Some(Init(max))
    else
      var before := Exec(max, steps[..|steps| - 1]);
      var last := steps[|steps| - 1];
      if before.Some? && Enabled(before.value, last) then Some(Apply(before.value, last)) else None
  }

  // -------------------------------------------------------------- the invariant

  /** The jobs that hold a place: admitted and not yet given back by Done. */
  function Outstanding(s: State): nat {
    Bit(s.getter.Submitting?) + s.queued + s.executing + |s.responses| + Bit(s.submitter.GotResponse?)
  }

  predicate InDo(s: State) {
    s.getter.Blocked? || s.getter.Woken?
  }

  predicate Inv(s: State) {
    && -1 <= s.b.left <= s.max
    && s.b.wg == Bit(!s.b.closed && s.b.left == -1)
    && (!s.b.closed ==> s.b.left == s.max - Outstanding(s) - Bit(InDo(s)))
    && (!s.b.closed && s.b.left == -1 ==> s.getter.Blocked?)
    && (s.b.closed ==> Outstanding(s) <= s.max)
    && (s.b.closed <==> s.destroyer.BlockerClosed? || s.destroyer.DoneClosed?)
    && s.doneCloses == Bit(s.destroyer.DoneClosed?)
  }

  lemma InitInv(max: nat)
    ensures Inv(Init(max)) && Init(max).max == max
  {
  }

  lemma StepKeepsInv(s: State, step: Step)
    requires Inv(s) && Enabled(s, step)
    ensures Inv(Apply(s, step)) && Apply(s, step).max == s.max
  {
  }

  lemma {:induction false} RunKeepsInv(max: nat, steps: seq<Step>)
    requires Exec(max, steps).Some?
    ensures Inv(Exec(max, steps).value) && Exec(max, steps).value.max == max
  {
    if steps != [] {
      RunKeepsInv(max, steps[..|steps| - 1]);
      StepKeepsInv(Exec(max, steps[..|steps| - 1]).value, steps[|steps| - 1]);
    }
  }

  // ------------------------------------------------------------------ theorems

  /** In every run the connection's queued, executing and unread jobs stay within max, so
      a worker with one of its jobs can always commit: with the submitter gone or the
      blocker closed just as well. */
  lemma WorkersNeverBlock(max: nat, steps: seq<Step>)
    requires Exec(max, steps).Some?
    ensures var s := Exec(max, steps).value;
            && s.queued + s.executing + |s.responses| <= max
            && (s.executing > 0 ==> forall id :: Enabled(s, Commit(id)))
  {
    RunKeepsInv(max, steps);
  }

  /** In every run requestsLeft stays in [-1, max], and the WaitGroup's count is 1 exactly
      while the blocker is open with requestsLeft at -1, and 0 otherwise; then, and only
      then, the getter is blocked with nothing to wake it. */
  lemma BlockerRange(max: nat, steps: seq<Step>)
    requires Exec(max, steps).Some?
    ensures var s := Exec(max, steps).value;
            && -1 <= s.b.left <= max
            && s.b.wg == (if !s.b.closed && s.b.left == -1 then 1 else 0)
            && (s.b.wg == 1 <==> s.getter.Blocked? && !Enabled(s, Wake))
  {
    RunKeepsInv(max, steps);
  }

  /** A blocked Do is released by the next Done and by Close, and once released stays so
      whatever the other goroutines do. */
  lemma NoLostWakeup(max: nat, steps: seq<Step>, step: Step)
    requires Exec(max, steps).Some? && Exec(max, steps).value.getter.Blocked?
    requires Enabled(Exec(max, steps).value, step)
    ensures var s := Exec(max, steps).value;
            && (step.CallDone? || step.DestroyBlocker? ==> Enabled(Apply(s, step), Wake))
            && (Enabled(s, Wake) ==> step.Wake? || Enabled(Apply(s, step), Wake))
  {
    RunKeepsInv(max, steps);
    StepKeepsInv(Exec(max, steps).value, step);
  }

  /** A blocked getter is not blocked for nothing: max jobs are outstanding, and unless the
      submitter has gone some goroutine of the pipeline can move. */
  lemma BlockedMeansFull(max: nat, steps: seq<Step>)
    requires Exec(max, steps).Some?
    requires var s := Exec(max, steps).value; s.getter.Blocked? && s.b.wg == 1
    ensures var s := Exec(max, steps).value;
            && Outstanding(s) == max
            && (0 < max && !s.submitter.SubmitterExited? ==>
                  Enabled(s, WorkerTake) || Enabled(s, Commit(0)) || Enabled(s, Take) || Enabled(s, CallDone) || s.submitter.Replying?)
  {
    RunKeepsInv(max, steps);
  }

  // ---------------------------------------------- what passes through a connection

  /** The requests a run reads from the client, in order. */
  function Got(steps: seq<Step>): seq<Request> {
    if steps == [] then []
    else
      var last := steps[|steps| - 1];
      Got(steps[..|steps| - 1]) + if last.GetJob? then [last.req] else []
  }

  /** The requests a run submits to the pools, in order. */
  function Sent(steps: seq<Step>): seq<Request> {
    if steps == [] then []
    else
      var last := steps[|steps| - 1];
      Sent(steps[..|steps| - 1]) + if last.Submit? then [last.req] else []
  }

  /** The responses that workers commit, in order. */
  function Committed(steps: seq<Step>): seq<nat> {
    if steps == [] then []
    else
      var last := steps[|steps| - 1];
      Committed(steps[..|steps| - 1]) + if last.Commit? then [last.id] else []
  }

  /** The responses handed to SubmitResult, in order. */
  function Replied(steps: seq<Step>): seq<nat> {
    if steps == [] then []
    else
      var last := steps[|steps| - 1];
      Replied(steps[..|steps| - 1]) + if last.Reply? then [last.id] else []
  }

  /** The request in the getter's hands. */
  function HeldRequest(g: Getter): seq<Request> {
    if g.Reading? || g.GetterExited? then [] else [g.req]
  }

  /** The response in the submitter's hands. */
  function HeldResponse(b: Submitter): seq<nat> {
    if b.GotResponse? || b.Replying? then [b.id] else []
  }

  /** Every request read is submitted, unchanged and in order; only one that the getter
      holds is not yet, and the last one may be dropped by a getter that quits because the
      blocker is closed. */
  lemma {:induction false} RequestsInOrder(max: nat, steps: seq<Step>)
    requires Exec(max, steps).Some?
    ensures var s := Exec(max, steps).value;
            && (!s.getter.GetterExited? ==> Got(steps) == Sent(steps) + HeldRequest(s.getter))
            && (s.getter.GetterExited? ==>
                  Got(steps) == Sent(steps) || (s.b.closed && exists r :: Got(steps) == Sent(steps) + [r]))
  {
    if steps != [] {
      var before, last := steps[..|steps| - 1], steps[|steps| - 1];
      RequestsInOrder(max, before);
      var s := Exec(max, before).value;
      if last.NoJob? || last.GetJob? {
        assert Sent(before) + [] == Sent(before);
      } else if last.Submit? {
        assert Sent(steps) + [] == Sent(steps);
      }
    }
  }

  /** Every response committed is handed to the client, unchanged and in order, but for the
      one the submitter holds and those still in the channel. */
  lemma {:induction false} RepliesInOrder(max: nat, steps: seq<Step>)
    requires Exec(max, steps).Some?
    ensures var s := Exec(max, steps).value;
            Committed(steps) == Replied(steps) + HeldResponse(s.submitter) + s.responses
  {
    if steps != [] {
      var before, last := steps[..|steps| - 1], steps[|steps| - 1];
      RepliesInOrder(max, before);
      ResponseMoves(Exec(max, before).value, last, Committed(before), Replied(before));
    }
  }

  lemma ResponseMoves(s: State, step: Step, committed: seq<nat>, replied: seq<nat>)
    requires Enabled(s, step) && committed == replied + HeldResponse(s.submitter) + s.responses
    ensures var t := Apply(s, step);
            committed + (if step.Commit? then [step.id] else [])
            == replied + (if step.Reply? then [step.id] else []) + HeldResponse(t.submitter) + t.responses
  {
    match step
    case Commit(id) =>
      assert replied + HeldResponse(s.submitter) + (s.responses + [id]) == committed + [id];
    case Take =>
      assert s.responses == [s.responses[0]] + s.responses[1..];
      assert replied + [] + s.responses == replied + [s.responses[0]] + s.responses[1..];
    case Reply(id, ok) =>
      assert replied + [id] + s.responses == (replied + [id]) + [] + s.responses;
    case _ =>
      assert committed + [] == committed && replied + [] == replied;
      assert HeldResponse(Apply(s, step).submitter) == HeldResponse(s.submitter);
  }

  /** The getter quits exactly when GetJob has returned false or the blocker turned out
      closed, the submitter exactly when SubmitResult has returned false or done is
      closed. */
  lemma {:induction false} WhyQuit(max: nat, steps: seq<Step>)
    requires Exec(max, steps).Some?
    ensures var s := Exec(max, steps).value;
            && (s.getter.GetterExited? ==> NoJob in steps || s.b.closed)
            && (NoJob in steps ==> s.getter.GetterExited?)
            && (s.submitter.SubmitterExited? ==> (exists id :: Reply(id, false) in steps) || s.doneCloses > 0)
            && (forall id :: Reply(id, false) in steps ==> s.submitter.SubmitterExited?)
            && (SelectDone in steps ==> s.submitter.SubmitterExited?)
  {
    if steps != [] {
      var before, last := steps[..|steps| - 1], steps[|steps| - 1];
      WhyQuit(max, before);
      QuitMoves(Exec(max, before).value, last);
      assert steps == before + [last];
    }
  }

  lemma QuitMoves(s: State, step: Step)
    requires Enabled(s, step)
    ensures var t := Apply(s, step);
            && (s.b.closed ==> t.b.closed) && s.doneCloses <= t.doneCloses
            && (t.getter.GetterExited? <==> s.getter.GetterExited? || step.NoJob? || (DropsRequest(step) && s.b.closed))
            && (t.submitter.SubmitterExited? <==>
                  s.submitter.SubmitterExited? || step.SelectDone? || (step.Reply? && !step.ok))
            && (step.SelectDone? ==> s.doneCloses > 0)
  {
  }

  /** The two steps at which the getter looks whether the blocker is closed. */
  predicate DropsRequest(step: Step) {
    step.Enter? || step.Recheck?
  }

  /** Once conn.Destroy has been called no job is read and no response goes through. */
  lemma {:induction false} DeadConn(max: nat, steps: seq<Step>, step: Step)
    requires Exec(max, steps).Some? && DestroyConn in steps && Enabled(Exec(max, steps).value, step)
    ensures !step.GetJob? && !(step.Reply? && step.ok)
  {
    DeadStays(max, steps);
  }

  lemma {:induction false} DeadStays(max: nat, steps: seq<Step>)
    requires Exec(max, steps).Some? && DestroyConn in steps
    ensures ConnDead(Exec(max, steps).value)
  {
    var before, last := steps[..|steps| - 1], steps[|steps| - 1];
    assert steps == before + [last];
    if DestroyConn in before {
      DeadStays(max, before);
    }
  }

  lemma Extend(max: nat, steps: seq<Step>, step: Step) returns (run: seq<Step>)
    requires Exec(max, steps).Some? && Enabled(Exec(max, steps).value, step)
    ensures run == steps + [step] && Exec(max, run) == Some(Apply(Exec(max, steps).value, step))
  {
    run := steps + [step];
    assert run[..|steps|] == steps;
  }

  /** While the connection lives and the submitter has not quit, the oldest response in the
      channel can be brought to the client. */
  lemma ResponseDelivered(max: nat, steps: seq<Step>) returns (run: seq<Step>)
    requires Exec(max, steps).Some?
    requires var s := Exec(max, steps).value;
             s.responses != [] && !s.submitter.SubmitterExited? && !ConnDead(s)
    ensures steps <= run && Exec(max, run).Some?
    ensures run[|run| - 1] == Reply(Exec(max, steps).value.responses[0], true)
    ensures Exec(max, run).value.responses == Exec(max, steps).value.responses[1..]
  {
    run := steps;
    var s := Exec(max, steps).value;
    if s.submitter.GotResponse? {
      run := Extend(max, run, CallDone);
    }
    if !s.submitter.Selecting? {
      run := Extend(max, run, Reply(s.submitter.id, true));
    }
    run := Extend(max, run, Take);
    run := Extend(max, run, CallDone);
    run := Extend(max, run, Reply(s.responses[0], true));
  }

  // ------------------------------------------------------------------- shutdown

  /** Both goroutines have quit: wg.Wait returns. */
  predicate Finished(s: State) {
    s.getter.GetterExited? && s.submitter.SubmitterExited?
  }

  /** Goroutines that have quit stay so, and the connection submits no more jobs. */
  lemma FinishedIsFinal(s: State, step: Step)
    requires Finished(s) && Enabled(s, step)
    ensures Finished(Apply(s, step)) && !step.Submit?
  {
  }

  /** Steps the two goroutines of a destroyed connection can still take, at most. */
  function Rank(s: State): nat {
    (match s.getter
     case GetterExited => 0
     case Reading => 1
     case Entering(_) => 1
     case Woken(_) => 1
     case Blocked(_) => 2
     case Submitting(_) => 2)
    + (match s.submitter
       case SubmitterExited => 0
       case Replying(_) => 1
       case GotResponse(_) => 2
       case Selecting => 3)
  }

  /** Steps of destroy, and after it of the goroutines, before both have quit, at most. */
  function Remaining(s: State): nat {
    match s.destroyer
    case Alive => 9
    case Swapped => 8
    case ConnGone => 7
    case BlockerClosed => 6
    case DoneClosed => Rank(s)
  }

  predicate DestroyStep(step: Step) {
    step.Swap? || step.DestroyConn? || step.DestroyBlocker? || step.DestroyDone?
  }

  predicate GoroutineStep(step: Step) {
    || step.GetJob? || step.NoJob? || step.Enter? || step.Wake? || step.Recheck? || step.Submit?
    || step.Take? || step.SelectDone? || step.CallDone? || step.Reply?
  }

  /** The next step of destroy; after it one of the submitter, then one of the getter. */
  function Next(s: State): Step
    requires !Finished(s)
  {
    match s.destroyer
    case Alive => Swap
    case Swapped => DestroyConn
    case ConnGone => DestroyBlocker
    case BlockerClosed => DestroyDone
    case DoneClosed => if s.submitter.SubmitterExited? then NextGetter(s) else NextSubmitter(s)
  }

  function NextSubmitter(s: State): Step
    requires !s.submitter.SubmitterExited?
  {
    match s.submitter
    case Selecting => SelectDone
    case GotResponse(_) => CallDone
    case Replying(id) => Reply(id, false)
  }

  function NextGetter(s: State): Step
    requires !s.getter.GetterExited?
  {
    match s.getter
    case Reading => NoJob
    case Entering(_) => Enter
    case Blocked(_) => Wake
    case Woken(_) => Recheck
    case Submitting(req) => Submit(req)
  }

  /** No step raises the number of steps that may remain, and those of destroy and, once it
      is through, of the goroutines lower it. */
  lemma RemainingFalls(s: State, step: Step)
    requires Inv(s) && Enabled(s, step)
    ensures Remaining(Apply(s, step)) <= Remaining(s) <= 9
    ensures DestroyStep(step) || (s.destroyer.DoneClosed? && GoroutineStep(step)) ==>
              Remaining(Apply(s, step)) < Remaining(s)
  {
  }

  /** After destroy each goroutine that has not quit can move, but for a getter that waits
      for room in its pool's queue. */
  lemma NextEnabled(s: State)
    requires Inv(s) && s.destroyer.DoneClosed?
    ensures !s.submitter.SubmitterExited? ==> Enabled(s, NextSubmitter(s))
    ensures !s.getter.GetterExited? ==> NextGetter(s).Submit? || Enabled(s, NextGetter(s))
    ensures !s.getter.GetterExited? ==> (NextGetter(s).Submit? <==> s.getter.Submitting?)
  {
  }

  /** Once destroy is through, done has been closed once, also when destroy was called
      twice. Each goroutine that has not quit can move unless the getter is in SubmitJob.
      Every move brings it closer to quitting and nothing moves it back: both quit after at
      most five steps, given that SubmitJob returns. */
  lemma DestroyTerminates(max: nat, steps: seq<Step>, step: Step)
    requires Exec(max, steps).Some? && Exec(max, steps).value.destroyer.DoneClosed?
    requires Enabled(Exec(max, steps).value, step)
    ensures var s := Exec(max, steps).value;
            var t := Apply(s, step);
            && s.doneCloses == 1 && t.destroyer.DoneClosed?
            && (s.getter.GetterExited? || s.getter.Submitting? || Enabled(s, NextGetter(s)))
            && (s.submitter.SubmitterExited? || Enabled(s, NextSubmitter(s)))
            && Rank(t) <= Rank(s) <= 5
            && (GoroutineStep(step) ==> Rank(t) < Rank(s))
  {
    RunKeepsInv(max, steps);
    NextEnabled(Exec(max, steps).value);
    RemainingFalls(Exec(max, steps).value, step);
  }
}
