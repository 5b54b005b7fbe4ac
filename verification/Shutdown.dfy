/** Shutting the server down: whether Server.Close can come to its end. A getter in
    SubmitJob waits for room in its pool's queue, Close waits for the getter, and only a
    worker makes room. */
module Shutdown {
  import opened Wrappers
  import opened Counting
  import opened Server
  import P = Pipeline
  import W = WorkerPool

  predicate Full(s: State, k: nat)
    requires k < |s.pools|
  {
    |s.pools[k].jobs| >= W.JOBS_CAPACITY
  }

  // ------------------------------------------------------- progress of a worker

  /** The step a worker that has not quit takes next. */
  function NextWork(s: State, k: nat, w: nat): Work
    requires k < |s.pools| && w < |s.pools[k].workers| && !s.pools[k].workers[w].Exited?
  {
    match s.pools[k].workers[w]
    case Receiving => Take(k, w)
    case Got(_) => Mark(k, W.MarkBusy(w))
    case Busy(j) => Commit(k, w, j)
    case Committed(_) => Mark(k, W.MarkFree(w))
  }

  /** A worker that has not quit can move as soon as its pool's queue is not empty. */
  lemma WorkerMoves(workers: seq<nat>, steps: seq<Step>, k: nat, w: nat)
    requires Exec(workers, steps).Some?
    requires var s := Exec(workers, steps).value;
             && k < |s.pools| && w < |s.pools[k].workers| && !s.pools[k].workers[w].Exited?
             && (s.pools[k].jobs != [] || !s.pools[k].workers[w].Receiving?)
    ensures var s := Exec(workers, steps).value; WorkEnabled(s, NextWork(s, k, w))
  {
    NoWorkerBlocks(workers, steps, k, w);
  }

  /** Before Close destroys a pool none of its workers has quit. */
  lemma NoneExited(workers: seq<nat>, steps: seq<Step>, k: nat)
    requires Exec(workers, steps).Some? && k < |workers|
    ensures var s := Exec(workers, steps).value;
            && |s.pools| == |workers| && |s.pools[k].workers| == workers[k]
            && (!s.pools[k].destroying ==>
                  forall w :: 0 <= w < workers[k] ==> !s.pools[k].workers[w].Exited?)
  {
    RunKeepsPools(workers, steps, k);
    var s := Exec(workers, steps).value;
    if !s.pools[k].destroying {
      forall w | 0 <= w < workers[k] ensures !s.pools[k].workers[w].Exited? {
        if s.pools[k].workers[w].Exited? {
          CountMember(s.pools[k].workers, w, (x: W.Worker<Job>) => x.Exited?);
        }
      }
    }
  }

  ghost predicate SomeWorkerMoves(s: State, k: nat)
    requires k < |s.pools|
  {
    exists w :: 0 <= w < |s.pools[k].workers| && WorkerCanMove(s, k, w)
  }

  predicate WorkerCanMove(s: State, k: nat, w: nat)
    requires k < |s.pools| && w < |s.pools[k].workers|
  {
    !s.pools[k].workers[w].Exited? && WorkEnabled(s, NextWork(s, k, w))
  }

  /** A getter in SubmitJob can go on, or a worker of its pool can, if and only if the pool
      has room or a worker. */
  lemma SubmitMoves(workers: seq<nat>, steps: seq<Step>, h: nat)
    requires Exec(workers, steps).Some?
    requires var s := Exec(workers, steps).value; h in s.conns && s.conns[h].getter.Submitting?
    ensures var s := Exec(workers, steps).value;
            var req := s.conns[h].getter.req;
            && req.pool < |workers| == |s.pools| && !s.pools[req.pool].destroying
            && (WorkEnabled(s, Submit(h, req)) || (Full(s, req.pool) && SomeWorkerMoves(s, req.pool))
                <==> workers[req.pool] > 0 || !Full(s, req.pool))
  {
    RunKeepsSafe(workers, steps);
    var s := Exec(workers, steps).value;
    PoolsFixed(workers, steps);
    assert ConnOk(s, h);
    var k := s.conns[h].getter.req.pool;
    assert PoolOk(s, k);
    NoneExited(workers, steps, k);
    if Full(s, k) && workers[k] > 0 {
      WorkerMoves(workers, steps, k, 0);
      assert WorkerCanMove(s, k, 0);
    }
  }

  lemma {:induction false} PoolsFixed(workers: seq<nat>, steps: seq<Step>)
    requires Exec(workers, steps).Some?
    ensures |Exec(workers, steps).value.pools| == |workers|
  {
    if steps != [] {
      var before, last := steps[..|steps| - 1], steps[|steps| - 1];
      PoolsFixed(workers, before);
      match last
      case Administer(a) => AdminFrame(Exec(workers, before).value, a);
      case Perform(x) => WorkFrame(Exec(workers, before).value, x);
    }
  }

  // ------------------------------------------------------------- the stuck case

  /** h's getter is in SubmitJob for pool k, whose queue is full and which has no worker. */
  predicate Stuck(s: State, h: nat, k: nat) {
    && h in s.conns && s.conns[h].getter.Submitting? && s.conns[h].getter.req.pool == k
    && k < |s.pools| && Full(s, k) && s.pools[k].workers == []
  }

  /** A full queue without workers stays full. */
  lemma FullStaysFull(p: W.State<Job>, step: W.Step<Job>)
    requires p.workers == [] && |p.jobs| >= W.JOBS_CAPACITY && W.Enabled(p, step)
    ensures W.Apply(p, step).workers == [] && W.Apply(p, step).jobs == p.jobs
  {
  }

  /** A getter in SubmitJob only gets out of it by submitting. */
  lemma SubmittingStays(c: P.State, own: P.Step)
    requires c.getter.Submitting? && P.Enabled(c, own) && !own.Submit?
    ensures P.Apply(c, own).getter == c.getter
  {
  }

  lemma StuckStep(s: State, step: Step, h: nat, k: nat)
    requires Stuck(s, h, k) && Enabled(s, step)
    ensures Stuck(Apply(s, step), h, k)
  {
    PoolMoves(s, step, k);
    if PoolPart(s, step, k).Some? {
      FullStaysFull(s.pools[k], PoolPart(s, step, k).value);
    }
    match step
    case Administer(a) => AdminFrame(s, a);
    case Perform(x) =>
      ConnMoves(s, x, h);
      if OwnStep(s, x, h).Some? {
        SubmittingStays(s.conns[h], OwnStep(s, x, h).value);
      }
  }

  /** Once stuck, always stuck: in every continuation of the run the getter is still in
      SubmitJob, and Close has not torn the listeners down. */
  lemma {:induction false} StuckForever(workers: seq<nat>, steps: seq<Step>, run: seq<Step>, h: nat, k: nat)
    requires Exec(workers, steps).Some? && Stuck(Exec(workers, steps).value, h, k)
    requires steps <= run && Exec(workers, run).Some?
    ensures Stuck(Exec(workers, run).value, h, k) && !TornDown(Exec(workers, run).value)
    decreases |run|
  {
    if |run| == |steps| {
      assert run == steps;
    } else {
      var before := run[..|run| - 1];
      assert steps <= before;
      StuckForever(workers, steps, before, h, k);
      StuckStep(Exec(workers, before).value, run[|run| - 1], h, k);
    }
    RunKeepsSafe(workers, run);
    assert ConnOk(Exec(workers, run).value, h);
  }

  // -------------------------------------------------- a run that fills a queue

  /** One listener, connections below n only, and n jobs in a pool without workers. */
  ghost predicate Filling(s: State, k: nat, n: nat) {
    && s.closer.Open? && !s.reg.shutdown && 0 in s.served && s.reg.listeners.Keys == {0}
    && (forall g :: g in s.spawners ==> g < n) && (forall h :: h in s.conns ==> h < n)
    && k < |s.pools| && |s.pools[k].jobs| == n && s.pools[k].workers == [] && !s.pools[k].destroying
  }

  /** One more connection, with a job for pool k in its getter's hands. */
  ghost predicate Arrived(s: State, k: nat, n: nat) {
    && s.closer.Open? && !s.reg.shutdown && 0 in s.served
    && s.reg.listeners.Keys == {0} && n in s.reg.listeners[0]
    && (forall g :: g in s.spawners ==> g <= n) && (forall h :: h in s.conns ==> h <= n)
    && n in s.conns && s.conns[n].getter == P.Submitting(P.Request(0, k))
    && k < |s.pools| && |s.pools[k].jobs| == n && s.pools[k].workers == [] && !s.pools[k].destroying
  }

  lemma Spawned(s: State, k: nat, n: nat)
    requires Filling(s, k, n)
    ensures AdminEnabled(s, Accept(n, 0))
    ensures var t := AdminApply(s, Accept(n, 0));
            && AdminEnabled(t, Spawn(n, n))
            && var u := AdminApply(t, Spawn(n, n));
               && u.conns == s.conns[n := P.Init(P.MAX_OUTSTANDING_REQUESTS)]
               && u.spawners == s.spawners[n := Serving(0, n)]
               && u.reg == Registry(false, s.reg.listeners[0 := s.reg.listeners[0] + {n}])
               && u.pools == s.pools && u.closer == s.closer && u.served == s.served
  {
  }

  lemma Admitted(s: State, k: nat, n: nat)
    requires n in s.conns && s.conns[n] == P.Init(P.MAX_OUTSTANDING_REQUESTS) && k < |s.pools|
    ensures var get := Conn(n, P.GetJob(P.Request(0, k))); var enter := Conn(n, P.Enter);
            && WorkEnabled(s, get) && WorkEnabled(WorkApply(s, get), enter)
            && var t := WorkApply(WorkApply(s, get), enter);
               && t == s.(conns := t.conns) && t.conns.Keys == s.conns.Keys
               && t.conns[n].getter == P.Submitting(P.Request(0, k))
  {
  }

  lemma Arrive(workers: seq<nat>, steps: seq<Step>, k: nat, n: nat) returns (run: seq<Step>)
    requires Exec(workers, steps).Some? && Filling(Exec(workers, steps).value, k, n)
    ensures Exec(workers, run).Some? && Arrived(Exec(workers, run).value, k, n)
  {
    var s := Exec(workers, steps).value;
    Spawned(s, k, n);
    run := Extend(workers, steps, Administer(Accept(n, 0)));
    run := Extend(workers, run, Administer(Spawn(n, n)));
    Admitted(Exec(workers, run).value, k, n);
    run := Extend(workers, run, Perform(Conn(n, P.GetJob(P.Request(0, k)))));
    run := Extend(workers, run, Perform(Conn(n, P.Enter)));
  }

  lemma Extend(workers: seq<nat>, steps: seq<Step>, step: Step) returns (run: seq<Step>)
    requires Exec(workers, steps).Some? && Enabled(Exec(workers, steps).value, step)
    ensures run == steps + [step] && Exec(workers, run) == Some(Apply(Exec(workers, steps).value, step))
  {
    run := steps + [step];
    ExecSnoc(workers, steps, step);
  }

  lemma Submitted(s: State, k: nat, n: nat)
    requires Arrived(s, k, n) && n < W.JOBS_CAPACITY
    ensures var x := Submit(n, P.Request(0, k)); WorkEnabled(s, x) && Filling(WorkApply(s, x), k, n + 1)
  {
    WorkFrame(s, Submit(n, P.Request(0, k)));
  }

  /** Any number of jobs up to the queue's capacity can come to wait in it. */
  lemma {:induction false} Fill(workers: seq<nat>, k: nat, n: nat) returns (run: seq<Step>)
    requires k < |workers| && workers[k] == 0 && n <= W.JOBS_CAPACITY
    ensures Exec(workers, run).Some? && Filling(Exec(workers, run).value, k, n)
    decreases n, k
  {
    if n == 0 {
      run := Listen(workers, k);
    } else {
      run := Fill(workers, k, n - 1);
      run := Arrive(workers, run, k, n - 1);
      Submitted(Exec(workers, run).value, k, n - 1);
      run := Extend(workers, run, Perform(Submit(n - 1, P.Request(0, k))));
    }
  }

  lemma Listen(workers: seq<nat>, k: nat) returns (run: seq<Step>)
    requires k < |workers| && workers[k] == 0
    ensures Exec(workers, run).Some? && Filling(Exec(workers, run).value, k, 0)
  {
    run := Extend(workers, [], Administer(AddListener(0)));
  }

  /** With a pool that has no worker, Close can hang: there is a run after which it waits
      for a handle that is stuck. */
  lemma CloseHangs(workers: seq<nat>, k: nat) returns (run: seq<Step>, h: nat)
    requires k < |workers| && workers[k] == 0
    ensures Exec(workers, run).Some?
    ensures var s := Exec(workers, run).value; s.closer.Tearing? && h in s.closer.todo && Stuck(s, h, k)
  {
    h := W.JOBS_CAPACITY;
    run := Fill(workers, k, h);
    run := Arrive(workers, run, k, h);
    run := Extend(workers, run, Administer(CloseBegin));
    run := Extend(workers, run, Administer(CloseListener(0)));
  }

  // ------------------------------------------------------ the end can be reached

  /** How far a pool's first worker is from taking the next job out of a full queue. */
  function ToRoom(p: W.State<Job>): nat
    requires p.workers != []
  {
    if |p.jobs| >= W.JOBS_CAPACITY then 1 + W.WorkerWeight(p.workers[0]) else 0
  }

  /** How far a connection's goroutines are from quitting, and, if its getter is in
      SubmitJob, that pool from having room. */
  function Distance(s: State, h: nat): (nat, nat) {
    if h !in s.conns then (0, 0)
    else
      (P.Remaining(s.conns[h]),
       if s.conns[h].getter.Submitting? && s.conns[h].getter.req.pool < |s.pools|
          && s.pools[s.conns[h].getter.req.pool].workers != []
       then ToRoom(s.pools[s.conns[h].getter.req.pool]) else 0)
  }

  predicate Staffed(workers: seq<nat>) {
    forall k :: 0 <= k < |workers| ==> workers[k] > 0
  }

  /** The next step towards h's end: one of its own, or one of the first worker of the full
      pool its getter waits for. */
  function Towards(s: State, h: nat): Work
    requires h in s.conns && !P.Finished(s.conns[h])
    requires s.conns[h].getter.Submitting? ==>
               && var k := s.conns[h].getter.req.pool;
                  && k < |s.pools| && s.pools[k].workers != [] && !s.pools[k].workers[0].Exited?
  {
    var own := P.Next(s.conns[h]);
    if !own.Submit? then Conn(h, own)
    else
      var req := s.conns[h].getter.req;
      if Full(s, req.pool) then NextWork(s, req.pool, 0) else Submit(h, req)
  }

  /** In a server whose pools all have workers, a connection that has not quit can always
      come nearer to it. */
  lemma Nearer(workers: seq<nat>, steps: seq<Step>, h: nat)
    requires Exec(workers, steps).Some? && Staffed(workers)
    requires var s := Exec(workers, steps).value; h in s.conns && !P.Finished(s.conns[h])
    ensures var s := Exec(workers, steps).value;
            && (s.conns[h].getter.Submitting? ==>
                  var k := s.conns[h].getter.req.pool;
                  k < |s.pools| && s.pools[k].workers != [] && !s.pools[k].workers[0].Exited?)
            && WorkEnabled(s, Towards(s, h))
            && var t := WorkApply(s, Towards(s, h));
               || Distance(t, h).0 < Distance(s, h).0
               || (Distance(t, h).0 == Distance(s, h).0 && Distance(t, h).1 < Distance(s, h).1)
  {
    RunKeepsSafe(workers, steps);
    var s := Exec(workers, steps).value;
    var c := s.conns[h];
    assert ConnOk(s, h);
    if c.getter.Submitting? {
      SubmitMoves(workers, steps, h);
      NoneExited(workers, steps, c.getter.req.pool);
    }
    if P.Next(c).Submit? && Full(s, c.getter.req.pool) {
      WorkerMoves(workers, steps, c.getter.req.pool, 0);
      RunKeepsPools(workers, steps, c.getter.req.pool);
      RoomNearer(s, h, c.getter.req.pool);
    } else {
      OwnNearer(s, h);
    }
  }

  lemma OwnNearer(s: State, h: nat)
    requires h in s.conns && P.Inv(s.conns[h]) && !P.Finished(s.conns[h]) && PoolKnown(s, h)
    requires P.Next(s.conns[h]).Submit? ==>
               var k := s.conns[h].getter.req.pool; k < |s.pools| && !Full(s, k) && !s.pools[k].destroying
    ensures var c := s.conns[h];
            var x := if P.Next(c).Submit? then Submit(h, c.getter.req) else Conn(h, P.Next(c));
            && WorkEnabled(s, x)
            && Distance(WorkApply(s, x), h).0 < Distance(s, h).0
  {
    var c := s.conns[h];
    if c.destroyer.DoneClosed? {
      P.NextEnabled(c);
    }
    P.RemainingFalls(c, P.Next(c));
  }

  /** A step of the first worker of a full pool brings room in it nearer. */
  lemma RoomNearer(s: State, h: nat, k: nat)
    requires h in s.conns && P.Inv(s.conns[h]) && s.conns[h].getter.Submitting? && s.conns[h].getter.req.pool == k
    requires k < |s.pools| && |s.pools[k].jobs| == W.JOBS_CAPACITY
    requires s.pools[k].workers != [] && !s.pools[k].workers[0].Exited? && WorkEnabled(s, NextWork(s, k, 0))
    ensures var t := WorkApply(s, NextWork(s, k, 0));
            || Distance(t, h).0 < Distance(s, h).0
            || (Distance(t, h).0 == Distance(s, h).0 && Distance(t, h).1 < Distance(s, h).1)
  {
    var x := NextWork(s, k, 0);
    ConnMoves(s, x, h);
    WorkMoves(s, x, k);
    FirstWorkerMoves(s.pools[k], PoolPart(s, Perform(x), k).value);
    if OwnStep(s, x, h).Some? {
      SubmittingStays(s.conns[h], OwnStep(s, x, h).value);
      P.RemainingFalls(s.conns[h], OwnStep(s, x, h).value);
    }
  }

  lemma FirstWorkerMoves(p: W.State<Job>, step: W.Step<Job>)
    requires |p.jobs| == W.JOBS_CAPACITY && p.workers != [] && W.Enabled(p, step)
    requires step.Receive? || step.MarkBusy? || step.Commit? || step.MarkFree?
    requires step.w == 0
    ensures W.Apply(p, step).workers != [] && ToRoom(W.Apply(p, step)) < ToRoom(p)
  {
  }

  /** From any state of a server whose pools all have workers, while Close tears down, h's
      goroutines can be brought to their end. */
  lemma {:induction false} FinishConn(workers: seq<nat>, steps: seq<Step>, h: nat) returns (run: seq<Step>)
    requires Exec(workers, steps).Some? && Staffed(workers) && h in Exec(workers, steps).value.conns
    ensures steps <= run && Exec(workers, run).Some?
    ensures var s, t := Exec(workers, steps).value, Exec(workers, run).value;
            && t.closer == s.closer && t.reg == s.reg
            && h in t.conns && P.Finished(t.conns[h])
    decreases Distance(Exec(workers, steps).value, h).0, Distance(Exec(workers, steps).value, h).1
  {
    var s := Exec(workers, steps).value;
    run := steps;
    if !P.Finished(s.conns[h]) {
      Nearer(workers, steps, h);
      WorkFrame(s, Towards(s, h));
      run := Extend(workers, steps, Perform(Towards(s, h)));
      run := FinishConn(workers, run, h);
    }
  }

  /** So Close gets past the handles of one listener, */
  lemma {:induction false} FinishHandles(workers: seq<nat>, steps: seq<Step>) returns (run: seq<Step>)
    requires Exec(workers, steps).Some? && Staffed(workers) && Exec(workers, steps).value.closer.Tearing?
    ensures steps <= run && Exec(workers, run).Some?
    ensures var s, t := Exec(workers, steps).value, Exec(workers, run).value;
            t.closer == Tearing({}) && t.reg == s.reg
    decreases |Exec(workers, steps).value.closer.todo|
  {
    var s := Exec(workers, steps).value;
    run := steps;
    if s.closer.todo != {} {
      var h :| h in s.closer.todo;
      RunKeepsSafe(workers, steps);
      run := FinishConn(workers, steps, h);
      run := Extend(workers, run, Administer(CloseWaited(h)));
      run := FinishHandles(workers, run);
    }
  }

  /** past all listeners, */
  lemma {:induction false} FinishTeardown(workers: seq<nat>, steps: seq<Step>) returns (run: seq<Step>)
    requires Exec(workers, steps).Some? && Staffed(workers) && Exec(workers, steps).value.closer.Tearing?
    ensures steps <= run && Exec(workers, run).Some? && Exec(workers, run).value.closer.Draining?
    decreases |Exec(workers, steps).value.reg.listeners.Keys|
  {
    run := FinishHandles(workers, steps);
    var s := Exec(workers, run).value;
    if s.reg.listeners.Keys == {} {
      assert s.reg.listeners == map[];
      run := Extend(workers, run, Administer(CloseTornDown));
    } else {
      var l :| l in s.reg.listeners.Keys;
      run := Extend(workers, run, Administer(CloseListener(l)));
      assert Exec(workers, run).value.reg.listeners.Keys == s.reg.listeners.Keys - {l};
      run := FinishTeardown(workers, run);
    }
  }

  /** While Close tears down, no step of any goroutine takes it further from the end: its
      own steps leave fewer listeners or fewer handles, no handle comes back, and no
      connection has more than nine steps of its own left, ever fewer. */
  lemma TeardownRank(workers: seq<nat>, steps: seq<Step>, step: Step, h: nat)
    requires Exec(workers, steps).Some? && Enabled(Exec(workers, steps).value, step)
    requires var s := Exec(workers, steps).value; s.closer.Tearing? && h in s.conns
    ensures var s := Exec(workers, steps).value; var t := Apply(s, step);
            && h in t.conns && P.Remaining(t.conns[h]) <= P.Remaining(s.conns[h]) <= 9
            && (step.Perform? ==> t.closer == s.closer && t.reg == s.reg)
            && (step.Administer? ==>
                  || t.closer.Draining?
                  || (t.closer.Tearing? && t.reg.listeners.Keys < s.reg.listeners.Keys)
                  || (t.closer.Tearing? && t.reg == s.reg && t.closer.todo < s.closer.todo)
                  || (t.closer == s.closer && t.reg == s.reg && step.admin.Accept?))
  {
    RunKeepsSafe(workers, steps);
    var s := Exec(workers, steps).value;
    assert ConnOk(s, h);
    match step
    case Administer(a) => AdminFrame(s, a);
    case Perform(x) =>
      WorkFrame(s, x);
      ConnMoves(s, x, h);
      if OwnStep(s, x, h).Some? {
        P.RemainingFalls(s.conns[h], OwnStep(s, x, h).value);
      }
  }

  // ------------------------------------------------------ and the pools destroyed

  /** A pool that Close destroys can be brought to its end, the other pools untouched. */
  lemma {:induction false} FinishPool(workers: seq<nat>, steps: seq<Step>, k: nat) returns (run: seq<Step>)
    requires Exec(workers, steps).Some? && k < |workers|
    requires var s := Exec(workers, steps).value;
             s.closer.Draining? && |s.pools| == |workers| && s.pools[k].destroying && s.pools[k].sent <= |s.pools[k].workers|
    ensures steps <= run && Exec(workers, run).Some?
    ensures var s, t := Exec(workers, steps).value, Exec(workers, run).value;
            && t.closer.Draining? && |t.pools| == |s.pools| && t.pools[k].destroyed
            && forall i :: 0 <= i < |s.pools| && i != k ==> t.pools[i] == s.pools[i]
    decreases W.Remaining(Exec(workers, steps).value.pools[k])
  {
    var s := Exec(workers, steps).value;
    run := steps;
    if !s.pools[k].destroyed {
      var x := PoolTowards(workers, steps, k);
      PoolNearer(workers, steps, k, x);
      run := Extend(workers, steps, Perform(x));
      if !x.PoolDestroy? || !x.part.FinishDestroy? {
        run := FinishPool(workers, run, k);
      }
    }
  }

  /** A step of Destroy or of a worker of a pool being destroyed. */
  predicate OfPool(x: Work, k: nat) {
    (x.PoolDestroy? || x.Take? || x.Mark? || x.Commit?) && x.k == k
  }

  lemma MovingWorker(p: W.State<Job>, w: nat)
    requires w < |p.workers| && W.CanMove(p, w)
    ensures !p.workers[w].Exited? && (p.jobs != [] || !p.workers[w].Receiving?)
  {
  }

  lemma PoolTowards(workers: seq<nat>, steps: seq<Step>, k: nat) returns (x: Work)
    requires Exec(workers, steps).Some? && k < |workers|
    requires var s := Exec(workers, steps).value;
             s.closer.Draining? && |s.pools| == |workers| && s.pools[k].destroying && !s.pools[k].destroyed
    ensures WorkEnabled(Exec(workers, steps).value, x) && OfPool(x, k)
  {
    var s := Exec(workers, steps).value;
    PoolRunExec(workers, steps, k);
    W.DestroyNeverStuck(workers[k], PoolRun(workers, steps, k));
    RunKeepsPools(workers, steps, k);
    if W.Enabled(s.pools[k], W.FinishDestroy) {
      x := PoolDestroy(k, W.FinishDestroy);
    } else if W.Enabled(s.pools[k], W.SendSentinel) {
      x := PoolDestroy(k, W.SendSentinel);
    } else {
      var w :| 0 <= w < workers[k] && W.CanMove(s.pools[k], w);
      MovingWorker(s.pools[k], w);
      WorkerMoves(workers, steps, k, w);
      x := NextWork(s, k, w);
    }
  }

  lemma PoolNearer(workers: seq<nat>, steps: seq<Step>, k: nat, x: Work)
    requires Exec(workers, steps).Some? && k < |workers|
    requires var s := Exec(workers, steps).value;
             && s.closer.Draining? && |s.pools| == |workers| && s.pools[k].destroying && !s.pools[k].destroyed
             && s.pools[k].sent <= |s.pools[k].workers| && WorkEnabled(s, x) && OfPool(x, k)
    ensures var s := Exec(workers, steps).value; var t := WorkApply(s, x);
            && t.closer.Draining? && |t.pools| == |s.pools| && t.pools[k].destroying
            && (forall i :: 0 <= i < |s.pools| && i != k ==> t.pools[i] == s.pools[i])
            && (if x.PoolDestroy? && x.part.FinishDestroy? then t.pools[k].destroyed
                else t.pools[k].sent <= |t.pools[k].workers| && W.Remaining(t.pools[k]) < W.Remaining(s.pools[k]))
  {
    var s := Exec(workers, steps).value;
    WorkFrame(s, x);
    forall i | 0 <= i < |s.pools| && i != k ensures WorkApply(s, x).pools[i] == s.pools[i] {
      WorkMoves(s, x, i);
    }
    WorkMoves(s, x, k);
    if !(x.PoolDestroy? && x.part.FinishDestroy?) {
      W.StepWeighs(s.pools[k], PoolPart(s, Perform(x), k).value);
    }
  }

  /** No pool below k is left half destroyed. */
  predicate DrainedBelow(s: State, k: nat) {
    forall i :: 0 <= i < k && i < |s.pools| ==> s.pools[i].destroying ==> s.pools[i].destroyed
  }

  lemma {:induction false} FinishPools(workers: seq<nat>, steps: seq<Step>, k: nat) returns (run: seq<Step>)
    requires Exec(workers, steps).Some? && k <= |workers|
    requires var s := Exec(workers, steps).value; s.closer.Draining? && |s.pools| == |workers| && DrainedBelow(s, k)
    ensures steps <= run && Exec(workers, run).Some? && Exec(workers, run).value.closer.Closed?
    decreases |workers| - k
  {
    var s := Exec(workers, steps).value;
    run := steps;
    if k == |workers| {
      run := Extend(workers, steps, Administer(CloseEnd));
    } else {
      if s.pools[k].destroying {
        RunKeepsPools(workers, steps, k);
        run := FinishPool(workers, steps, k);
      }
      run := FinishPools(workers, run, k + 1);
    }
  }

  // ------------------------------------------------------------------- theorems

  /** Some continuation of the run brings Close to its end. */
  ghost predicate CanComplete(workers: seq<nat>, steps: seq<Step>) {
    exists run :: steps <= run && Exec(workers, run).Some? && Exec(workers, run).value.closer.Closed?
  }

  /** If every pool has a worker, Close can come to its end from every state of every run. */
  lemma CloseCompletes(workers: seq<nat>, steps: seq<Step>)
    requires Exec(workers, steps).Some? && Exec(workers, steps).value.reg.shutdown && Staffed(workers)
    ensures CanComplete(workers, steps)
  {
    RunKeepsSafe(workers, steps);
    var run := steps;
    if Exec(workers, steps).value.closer.Tearing? {
      run := FinishTeardown(workers, steps);
    }
    if Exec(workers, run).value.closer.Draining? {
      PoolsFixed(workers, run);
      run := FinishPools(workers, run, 0);
    }
  }

  /** Close can come to its end from every state of every run if and only if every pool has
      a worker. */
  lemma CloseCompletesIff(workers: seq<nat>)
    ensures (forall steps :: Exec(workers, steps).Some? && Exec(workers, steps).value.reg.shutdown ==>
                               CanComplete(workers, steps))
            <==> Staffed(workers)
  {
    if Staffed(workers) {
      forall steps | Exec(workers, steps).Some? && Exec(workers, steps).value.reg.shutdown
        ensures CanComplete(workers, steps)
      {
        CloseCompletes(workers, steps);
      }
    } else {
      var k :| 0 <= k < |workers| && workers[k] == 0;
      var steps, h := CloseHangs(workers, k);
      RunKeepsSafe(workers, steps);
      if CanComplete(workers, steps) {
        var run :| steps <= run && Exec(workers, run).Some? && Exec(workers, run).value.closer.Closed?;
        StuckForever(workers, steps, run, h, k);
      }
    }
  }
}
