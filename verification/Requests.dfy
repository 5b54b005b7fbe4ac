/** The way of a client's requests through the whole server, and each connection's part of
    a server run. */
module Requests {
  import opened Wrappers
  import opened Counting
  import opened Server
  import P = Pipeline
  import W = WorkerPool

  // -------------------------------------------- each connection's part of a run

  function ConnParts(s: State, step: Step, h: nat): seq<P.Step>
    requires Enabled(s, step)
  {
    if step.Perform? && OwnStep(s, step.work, h).Some? then [OwnStep(s, step.work, h).value] else []
  }

  /** The steps of a run that are steps of connection h. */
  function ConnRun(workers: seq<nat>, steps: seq<Step>, h: nat): seq<P.Step>
    requires Exec(workers, steps).Some?
  {
    if steps == [] then []
    else
      var before := steps[..|steps| - 1];
      ConnRun(workers, before, h) + ConnParts(Exec(workers, before).value, steps[|steps| - 1], h)
  }

  lemma ConnPartExec(run: seq<P.Step>, s: State, step: Step, h: nat)
    requires Enabled(s, step) && P.Exec(P.MAX_OUTSTANDING_REQUESTS, run) == Some(ConnAt(s, h))
    ensures P.Exec(P.MAX_OUTSTANDING_REQUESTS, run + ConnParts(s, step, h)) == Some(ConnAt(Apply(s, step), h))
  {
    match step
    case Administer(a) =>
      AdminFrame(s, a);
      if h !in s.conns && h in AdminApply(s, a).conns {
        OnlySpawnAdds(s, a, h);
      }
      assert run + ConnParts(s, step, h) == run;
    case Perform(x) =>
      ConnAtMoves(s, x, h);
      if OwnStep(s, x, h).Some? {
        var r := P.Extend(P.MAX_OUTSTANDING_REQUESTS, run, OwnStep(s, x, h).value);
      } else {
        assert run + ConnParts(s, step, h) == run;
      }
  }

  /** They are a run of a connection by itself, and end in the connection's state; so all
      that holds of every run of a connection holds within a server. */
  lemma {:induction false} ConnRunExec(workers: seq<nat>, steps: seq<Step>, h: nat)
    requires Exec(workers, steps).Some?
    ensures P.Exec(P.MAX_OUTSTANDING_REQUESTS, ConnRun(workers, steps, h)) == Some(ConnAt(Exec(workers, steps).value, h))
  {
    if steps != [] {
      var before := steps[..|steps| - 1];
      ConnRunExec(workers, before, h);
      ConnPartExec(ConnRun(workers, before, h), Exec(workers, before).value, steps[|steps| - 1], h);
    }
  }

  // ----------------------------------------------------- where the requests are

  /** The jobs of connection h with a number satisfying p. */
  function JobsOf(h: nat, p: nat -> bool): Job -> bool {
    (j: Job) => j.conn == h && p(j.id)
  }

  function GetsOf(h: nat, p: nat -> bool): Step -> bool {
    (x: Step) => x.Perform? && x.work.Conn? && x.work.h == h && x.work.own.GetJob? && p(x.work.own.req.id)
  }

  function RepliesOf(h: nat, p: nat -> bool): Step -> bool {
    (x: Step) => x.Perform? && x.work.Conn? && x.work.h == h && x.work.own.Reply? && p(x.work.own.id)
  }

  function InGetter(c: P.State, p: nat -> bool): nat {
    Bit(!c.getter.Reading? && !c.getter.GetterExited? && p(c.getter.req.id))
  }

  function InSubmitter(c: P.State, p: nat -> bool): nat {
    Bit((c.submitter.GotResponse? || c.submitter.Replying?) && p(c.submitter.id))
  }

  /** The requests and responses satisfying p that the connection itself holds. */
  function Inside(c: P.State, p: nat -> bool): nat {
    InGetter(c, p) + Count(c.responses, p) + InSubmitter(c, p)
  }

  function InPools(s: State, p: Job -> bool): nat {
    Sum(s.pools, QueuedIn(p)) + Sum(s.pools, InHandIn(p))
  }

  function Pending(s: State, h: nat, p: nat -> bool): nat {
    Inside(ConnAt(s, h), p) + InPools(s, JobsOf(h, p))
  }

  /** The getter has quit because the blocker was closed, with a request in hand perhaps. */
  predicate MayHaveDropped(c: P.State) {
    c.getter.GetterExited? && c.b.closed
  }

  ghost predicate Balanced(s: State, h: nat, p: nat -> bool, got: nat, replied: nat) {
    Pending(s, h, p) + replied <= got <= Pending(s, h, p) + replied + Bit(MayHaveDropped(ConnAt(s, h)))
  }

  /** What a step of a connection does to what it holds. */
  lemma InsideMoves(c: P.State, own: P.Step, p: nat -> bool)
    requires P.Enabled(c, own)
    ensures var d := P.Apply(c, own);
            var gets, replies := Bit(own.GetJob? && p(own.req.id)), Bit(own.Reply? && p(own.id));
            var sends, commits := Bit(own.Submit? && p(own.req.id)), Bit(own.Commit? && p(own.id));
            && Inside(d, p) + replies + sends <= Inside(c, p) + gets + commits
            && Inside(c, p) + gets + commits
               <= Inside(d, p) + replies + sends + Bit(MayHaveDropped(d) && !MayHaveDropped(c))
            && (MayHaveDropped(c) ==> MayHaveDropped(d))
  {
    if own.Take? {
      CountTail(c.responses, p);
    } else if own.Commit? {
      CountAppend(c.responses, own.id, p);
    }
  }

  function Submits(s: State, x: Work, p: Job -> bool): nat
    requires WorkEnabled(s, x)
  {
    Bit(x.Submit? && !s.pools[x.req.pool].destroying && p(Job(x.h, x.req.id)))
  }

  function Commits(x: Work, p: Job -> bool): nat {
    Bit(x.Commit? && p(x.j))
  }

  /** What a step does to the jobs in the pools. */
  lemma PoolsMove(s: State, x: Work, p: Job -> bool)
    requires WorkEnabled(s, x)
    ensures InPools(WorkApply(s, x), p) + Commits(x, p) == InPools(s, p) + Submits(s, x, p)
  {
    match x
    case Conn(g, own) =>
    case Submit(g, req) => SubmitMoves(s, g, req, p);
    case Take(k, w) => TakeMoves(s, k, w, p);
    case Mark(k, mark) => TotalsMove(s, k, mark, p);
    case Commit(k, w, j) => CommitMoves(s, k, w, j, p);
    case PoolDestroy(k, part) => TotalsMove(s, k, part, p);
  }

  lemma SubmitMoves(s: State, g: nat, req: P.Request, p: Job -> bool)
    requires WorkEnabled(s, Submit(g, req))
    ensures InPools(DoSubmit(s, g, req), p) == InPools(s, p) + Submits(s, Submit(g, req), p)
  {
    if !s.pools[req.pool].destroying {
      TotalsMove(SetConn(s, g, P.Submit(req)), req.pool, W.Submit(Job(g, req.id)), p);
    }
  }

  lemma TakeMoves(s: State, k: nat, w: nat, p: Job -> bool)
    requires WorkEnabled(s, Take(k, w))
    ensures InPools(DoTake(s, k, w), p) == InPools(s, p)
  {
    TotalsMove(s, k, W.Receive(w), p);
  }

  lemma CommitMoves(s: State, k: nat, w: nat, j: Job, p: Job -> bool)
    requires WorkEnabled(s, Commit(k, w, j))
    ensures InPools(DoCommit(s, k, w, j), p) + Bit(p(j)) == InPools(s, p)
  {
    TotalsMove(s, k, W.Commit(w, j), p);
  }

  /** A step seen from connection h is its own step. */
  lemma ConnAtMoves(s: State, x: Work, h: nat)
    requires WorkEnabled(s, x)
    ensures var own := OwnStep(s, x, h);
            && (own.None? ==> ConnAt(WorkApply(s, x), h) == ConnAt(s, h))
            && (own.Some? ==> P.Enabled(ConnAt(s, h), own.value) && ConnAt(WorkApply(s, x), h) == P.Apply(ConnAt(s, h), own.value))
  {
    WorkFrame(s, x);
    assert h in s.conns <==> h in s.conns.Keys;
    assert h in WorkApply(s, x).conns <==> h in WorkApply(s, x).conns.Keys;
    if h in s.conns {
      ConnMoves(s, x, h);
    }
  }

  /** What it gets, replies, submits and commits it does in its own step. */
  lemma OwnStepCounts(s: State, x: Work, h: nat, p: nat -> bool)
    requires WorkEnabled(s, x)
    ensures var own := OwnStep(s, x, h); var step := Perform(x);
            && (GetsOf(h, p)(step) <==> own.Some? && own.value.GetJob? && p(own.value.req.id))
            && (RepliesOf(h, p)(step) <==> own.Some? && own.value.Reply? && p(own.value.id))
            && Submits(s, x, JobsOf(h, p)) == Bit(own.Some? && own.value.Submit? && p(own.value.req.id))
            && Commits(x, JobsOf(h, p)) == Bit(own.Some? && own.value.Commit? && p(own.value.id))
  {
  }

  lemma WorkBalances(s: State, x: Work, h: nat, p: nat -> bool, got: nat, replied: nat)
    requires WorkEnabled(s, x) && Balanced(s, h, p, got, replied)
    ensures Balanced(WorkApply(s, x), h, p,
                     got + Bit(GetsOf(h, p)(Perform(x))), replied + Bit(RepliesOf(h, p)(Perform(x))))
  {
    PoolsMove(s, x, JobsOf(h, p));
    ConnAtMoves(s, x, h);
    OwnStepCounts(s, x, h, p);
    if OwnStep(s, x, h).Some? {
      InsideMoves(ConnAt(s, h), OwnStep(s, x, h).value, p);
    }
  }

  lemma AdminBalances(s: State, a: Admin, h: nat, p: nat -> bool, got: nat, replied: nat)
    requires AdminEnabled(s, a) && Balanced(s, h, p, got, replied)
    ensures Balanced(AdminApply(s, a), h, p, got, replied)
  {
    AdminFrame(s, a);
    if h !in s.conns && h in AdminApply(s, a).conns {
      OnlySpawnAdds(s, a, h);
    }
  }

  lemma InitBalances(workers: seq<nat>, h: nat, p: nat -> bool)
    ensures Balanced(Init(workers), h, p, 0, 0)
  {
    var s, q := Init(workers), JobsOf(h, p);
    forall i | 0 <= i < |s.pools| ensures W.Queued(s.pools[i], q) == 0 && W.InHand(s.pools[i], q) == 0 {
      CountNone(s.pools[i].workers, (w: W.Worker<Job>) => W.Holds(w, q));
    }
    SumZero(s.pools, QueuedIn(q));
    SumZero(s.pools, InHandIn(q));
  }

  /** In every run of the server, the requests that a client's connection has read are at
      all times exactly those in its getter's hands, in the pools, in its response channel,
      in its submitter's hands and replied to; at most one has been dropped, by a getter that
      quit because the connection was destroyed. This holds for every way p of picking
      requests out, so a request is replied to at most as often as it was read. */
  lemma {:induction false} RequestsAccounted(workers: seq<nat>, steps: seq<Step>, h: nat, p: nat -> bool)
    requires Exec(workers, steps).Some?
    ensures Balanced(Exec(workers, steps).value, h, p, Count(steps, GetsOf(h, p)), Count(steps, RepliesOf(h, p)))
  {
    if steps == [] {
      InitBalances(workers, h, p);
    } else {
      var before, last := steps[..|steps| - 1], steps[|steps| - 1];
      RequestsAccounted(workers, before, h, p);
      var s := Exec(workers, before).value;
      var got, replied := Count(before, GetsOf(h, p)), Count(before, RepliesOf(h, p));
      match last
      case Administer(a) => AdminBalances(s, a, h, p, got, replied);
      case Perform(x) => WorkBalances(s, x, h, p, got, replied);
    }
  }
}
