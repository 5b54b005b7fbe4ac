/** The server as a whole: the registry of listeners and connections (server/server.go),
    the connections' pipelines and the worker pools, under every interleaving. */
module Server {
  import opened Wrappers
  import opened Counting
  import P = Pipeline
  import W = WorkerPool

  // ----------------------------------------------- the fields under Server.mtx

  /** Listeners and connection handles are named by numbers. */
  datatype Registry = Registry(shutdown: bool, listeners: map<nat, set<nat>>)

  datatype AddResult = Added | AfterClose | DuplicateListener

  /** addListener. */
  function AddCore(r: Registry, l: nat): (Registry, AddResult) {
    if r.shutdown then (r, AfterClose)
    else if l in r.listeners then (r, DuplicateListener)
    else (r.(listeners := r.listeners[l := {}]), Added)
  }

  datatype SpawnResult = Spawned | Rejected | NilMapPanic

  /** The section of spawn that starts a connection; storing into a missing listener's
      map would panic. */
  function SpawnCore(r: Registry, l: nat, h: nat): (Registry, SpawnResult) {
    if r.shutdown then (r, Rejected)
    else if l !in r.listeners then (r, NilMapPanic)
    else (r.(listeners := r.listeners[l := r.listeners[l] + {h}]), Spawned)
  }

  /** The section of spawn that forgets a connection; a no-op on a missing listener. */
  function ForgetCore(r: Registry, l: nat, h: nat): Registry {
    if l in r.listeners then r.(listeners := r.listeners[l := r.listeners[l] - {h}]) else r
  }

  /** The handles of all listeners. */
  ghost function Handles(listeners: map<nat, set<nat>>): iset<nat> {
    iset h, l | l in listeners && h in listeners[l] :: h
  }

  /** The registry's fields in place. */
  class RegistryObject {
    var shutdown: bool
    var listeners: map<nat, set<nat>>

    function View(): Registry
      reads this
    {
      Registry(shutdown, listeners)
    }

    constructor ()
      ensures View() == Registry(false, map[])
    {
      shutdown, listeners := false, map[];
    }

    method AddListener(l: nat) returns (res: AddResult)
      modifies this
      ensures (View(), res) == AddCore(old(View()), l)
      ensures shutdown == old(shutdown)
      ensures res == AfterClose <==> old(shutdown)
      ensures res == DuplicateListener <==> !old(shutdown) && l in old(listeners)
      ensures listeners == if res.Added? then old(listeners)[l := {}] else old(listeners)
    {
      if shutdown {
        return AfterClose;
      }
      if l in listeners {
        return DuplicateListener;
      }
      listeners := listeners[l := {}];
      return Added;
    }

    method Spawn(l: nat, h: nat) returns (res: SpawnResult)
      modifies this
      ensures (View(), res) == SpawnCore(old(View()), l, h)
      ensures shutdown == old(shutdown)
      ensures res == Rejected <==> old(shutdown)
      ensures res == NilMapPanic <==> !old(shutdown) && l !in old(listeners)
      ensures listeners == if res.Spawned? then old(listeners)[l := old(listeners)[l] + {h}] else old(listeners)
    {
      if shutdown {
        return Rejected;
      }
      if l !in listeners {
        return NilMapPanic;
      }
      listeners := listeners[l := listeners[l] + {h}];
      return Spawned;
    }

    method Forget(l: nat, h: nat)
      modifies this
      ensures View() == ForgetCore(old(View()), l, h)
      ensures shutdown == old(shutdown) && listeners.Keys == old(listeners).Keys
      ensures forall i :: i in listeners ==>
                listeners[i] == if i == l then old(listeners)[i] - {h} else old(listeners)[i]
    {
      if l in listeners {
        listeners := listeners[l := listeners[l] - {h}];
      }
    }

    /** Close: every handle of every listener is destroyed, and no listener is left. */
    method Close() returns (ok: bool, destroyed: set<nat>)
      modifies this
      ensures ok <==> !old(shutdown)
      ensures !ok ==> View() == old(View()) && destroyed == {}
      ensures ok ==> View() == Registry(true, map[])
      ensures ok ==> forall h :: h in destroyed <==> h in old(Handles(listeners))
    {
      destroyed := {};
      if shutdown {
        return false, {};
      }
      shutdown := true;
      while listeners != map[]
        invariant shutdown
        invariant forall l :: l in listeners ==> l in old(listeners) && listeners[l] == old(listeners)[l]
        invariant forall h :: h in destroyed ==> h in old(Handles(listeners))
        invariant forall l, h :: l in old(listeners) && l !in listeners && h in old(listeners)[l] ==> h in destroyed
        decreases listeners.Keys
      {
        assert listeners.Keys != {};
        var l :| l in listeners.Keys;
        var conns := listeners[l];
        listeners := listeners - {l};
        assert forall h :: h in conns ==> h in old(Handles(listeners));
        destroyed := destroyed + conns;
      }
      ok := true;
    }
  }

  // -------------------------------------------------------------- the machine

  /** A job, known by the connection it came from and its number there. */
  datatype Job = Job(conn: nat, id: nat)

  /** A goroutine in spawn: before its locked section, or waiting for its connection. */
  datatype Spawner = Accepted(l: nat) | Serving(l: nat, h: nat)

  /** The call of Close that holds the mutex: tearing down listeners, with these handles
      still to wait for; or destroying the pools. */
  datatype Closer = Open | Tearing(todo: set<nat>) | Draining | Closed

  /** served are the listeners whose Serve got past addListener; home is the listener a
      connection came from. panicked records a store into a missing listener's map, late a
      job submitted to a pool after its Destroy began. */
  datatype State = State(reg: Registry, served: set<nat>, closer: Closer, spawners: map<nat, Spawner>,
                         conns: map<nat, P.State>, home: map<nat, nat>, pools: seq<W.State<Job>>,
                         panicked: bool, late: bool)

  /** Steps of the registry, of Serve and spawn, and of Close. */
  datatype Admin =
    | AddListener(l: nat)
    | Accept(g: nat, l: nat)
    | Spawn(g: nat, h: nat)
    | Forget(g: nat)
    | CloseBegin
    | CloseListener(l: nat)
    | CloseWaited(h: nat)                 // Destroy of a handle returns
    | CloseTornDown
    | CloseEnd

  /** Steps of connections and pools. */
  datatype Work =
    | Conn(h: nat, own: P.Step)           // a step of a connection by itself
    | Submit(h: nat, req: P.Request)      // its getter's job goes into the pool's queue
    | Take(k: nat, w: nat)                // worker w of pool k receives
    | Mark(k: nat, mark: W.Step<Job>)     // a worker changes the busy count
    | Commit(k: nat, w: nat, j: Job)      // a worker sends its response to the job j
    | PoolDestroy(k: nat, part: W.Step<Job>)

  datatype Step = Administer(admin: Admin) | Perform(work: Work)

  /** One pool for each number of workers given. */
  function Init(workers: seq<nat>): State {
    State(Registry(false, map[]), {}, Open, map[], map[], map[],
          seq(|workers|, i requires 0 <= i < |workers| => W.Init(workers[i])), false, false)
  }

  predicate MtxFree(s: State) {
    s.closer.Open? || s.closer.Closed?
  }

  predicate AdminEnabled(s: State, a: Admin) {
    match a
    case AddListener(l) => MtxFree(s)
    case Accept(g, l) => g !in s.spawners && l in s.served
    case Spawn(g, h) => MtxFree(s) && g in s.spawners && s.spawners[g].Accepted? && h !in s.conns
    case Forget(g) =>
      && MtxFree(s) && g in s.spawners && s.spawners[g].Serving?
      && s.spawners[g].h in s.conns && P.Finished(s.conns[s.spawners[g].h])
    case CloseBegin => MtxFree(s)
    case CloseListener(l) => s.closer == Tearing({}) && l in s.reg.listeners
    case CloseWaited(h) => s.closer.Tearing? && h in s.closer.todo && h in s.conns && P.Finished(s.conns[h])
    case CloseTornDown => s.closer == Tearing({}) && s.reg.listeners == map[]
    case CloseEnd =>
      s.closer.Draining? && forall k :: 0 <= k < |s.pools| ==> s.pools[k].destroying ==> s.pools[k].destroyed
  }

  /** The steps a connection takes together with a pool. */
  predicate Shared(step: P.Step) {
    step.Submit? || step.WorkerTake? || step.Commit?
  }

  predicate WorkEnabled(s: State, x: Work) {
    match x
    case Conn(h, own) =>
      && h in s.conns && !Shared(own) && P.Enabled(s.conns[h], own)
      && (own.GetJob? ==> own.req.pool < |s.pools|)
    case Submit(h, req) =>
      && h in s.conns && s.conns[h].getter == P.Submitting(req)
      && req.pool < |s.pools| && |s.pools[req.pool].jobs| < W.JOBS_CAPACITY
    case Take(k, w) => k < |s.pools| && W.Enabled(s.pools[k], W.Receive(w)) && CanTake(s, s.pools[k].jobs[0])
    case Mark(k, mark) => k < |s.pools| && (mark.MarkBusy? || mark.MarkFree?) && W.Enabled(s.pools[k], mark)
    case Commit(k, w, j) =>
      && k < |s.pools| && W.Enabled(s.pools[k], W.Commit(w, j))
      && j.conn in s.conns && P.Enabled(s.conns[j.conn], P.Commit(j.id))
    case PoolDestroy(k, part) =>
      && s.closer.Draining? && k < |s.pools| && (part.StartDestroy? || part.SendSentinel? || part.FinishDestroy?)
      && W.Enabled(s.pools[k], part)
  }

  predicate Enabled(s: State, step: Step) {
    match step
    case Administer(a) => AdminEnabled(s, a)
    case Perform(x) => WorkEnabled(s, x)
  }

  predicate CanTake(s: State, j: Option<Job>) {
    j.Some? ==> j.value.conn in s.conns && P.Enabled(s.conns[j.value.conn], P.WorkerTake)
  }

  function SetConn(s: State, h: nat, step: P.Step): (t: State)
    requires h in s.conns && P.Enabled(s.conns[h], step)
    ensures t.conns.Keys == s.conns.Keys
  {
    s.(conns := s.conns[h := P.Apply(s.conns[h], step)])
  }

  function SetPool(s: State, k: nat, step: W.Step<Job>): (t: State)
    requires k < |s.pools| && W.Enabled(s.pools[k], step)
    ensures |t.pools| == |s.pools|
  {
    s.(pools := s.pools[k := W.Apply(s.pools[k], step)])
  }

  function DoSpawn(s: State, g: nat, h: nat): State
    requires AdminEnabled(s, Spawn(g, h))
  {
    var l := s.spawners[g].l;
    var (reg, res) := SpawnCore(s.reg, l, h);
    match res
    case Rejected => s.(spawners := s.spawners - {g})
    case NilMapPanic => s.(spawners := s.spawners - {g}, panicked := true)
    case Spawned =>
      s.(reg := reg, spawners := s.spawners[g := Serving(l, h)],
         conns := s.conns[h := P.Init(P.MAX_OUTSTANDING_REQUESTS)], home := s.home[h := l])
  }

  function AdminApply(s: State, a: Admin): State
    requires AdminEnabled(s, a)
  {
    match a
    case AddListener(l) =>
      var (reg, res) := AddCore(s.reg, l);
      s.(reg := reg, served := if res.Added? then s.served + {l} else s.served)
    case Accept(g, l) => s.(spawners := s.spawners[g := Accepted(l)])
    case Spawn(g, h) => DoSpawn(s, g, h)
    case Forget(g) => s.(reg := ForgetCore(s.reg, s.spawners[g].l, s.spawners[g].h), spawners := s.spawners - {g})
    case CloseBegin => if s.reg.shutdown then s else s.(reg := s.reg.(shutdown := true), closer := Tearing({}))
    case CloseListener(l) =>
      s.(reg := s.reg.(listeners := s.reg.listeners - {l}), closer := Tearing(s.reg.listeners[l]))
    case CloseWaited(h) => s.(closer := Tearing(s.closer.todo - {h}))
    case CloseTornDown => s.(closer := Draining)
    case CloseEnd => s.(closer := Closed)
  }

  function DoSubmit(s: State, h: nat, req: P.Request): State
    requires WorkEnabled(s, Submit(h, req))
  {
    if s.pools[req.pool].destroying then s.(late := true)
    else SetPool(SetConn(s, h, P.Submit(req)), req.pool, W.Submit(Job(h, req.id)))
  }

  function DoTake(s: State, k: nat, w: nat): State
    requires WorkEnabled(s, Take(k, w))
  {
    var j := s.pools[k].jobs[0];
    var t := SetPool(s, k, W.Receive(w));
    if j.Some? then SetConn(t, j.value.conn, P.WorkerTake) else t
  }

  function DoCommit(s: State, k: nat, w: nat, j: Job): State
    requires WorkEnabled(s, Commit(k, w, j))
  {
    SetConn(SetPool(s, k, W.Commit(w, j)), j.conn, P.Commit(j.id))
  }

  function WorkApply(s: State, x: Work): State
    requires WorkEnabled(s, x)
  {
    match x
    case Conn(h, own) => SetConn(s, h, own)
    case Submit(h, req) => DoSubmit(s, h, req)
    case Take(k, w) => DoTake(s, k, w)
    case Mark(k, mark) => SetPool(s, k, mark)
    case Commit(k, w, j) => DoCommit(s, k, w, j)
    case PoolDestroy(k, part) => SetPool(s, k, part)
  }

  function Apply(s: State, step: Step): State
    requires Enabled(s, step)
  {
    match step
    case Administer(a) => AdminApply(s, a)
    case Perform(x) => WorkApply(s, x)
  }

  function Exec(workers: seq<nat>, steps: seq<Step>): Option<State> {
    if steps == [] then Some(Init(workers))
    else
      var before := Exec(workers, steps[..|steps| - 1]);
      var last := steps[|steps| - 1];
      if before.Some? && Enabled(before.value, last) then Some(Apply(before.value, last)) else None
  }

  lemma ExecSnoc(workers: seq<nat>, steps: seq<Step>, step: Step)
    requires Exec(workers, steps).Some? && Enabled(Exec(workers, steps).value, step)
    ensures Exec(workers, steps + [step]) == Some(Apply(Exec(workers, steps).value, step))
  {
    assert (steps + [step])[..|steps|] == steps;
  }

  // ------------------------- what a step does to one connection and to one pool

  /** The step of connection h that a step of the server is, if it is one. */
  function OwnStep(s: State, x: Work, h: nat): Option<P.Step>
    requires WorkEnabled(s, x)
  {
    match x
    case Conn(g, own) => if g == h then Some(own) else None
    case Submit(g, req) => if g == h && !s.pools[req.pool].destroying then Some(P.Submit(req)) else None
    case Take(k, w) =>
      if s.pools[k].jobs[0].Some? && s.pools[k].jobs[0].value.conn == h then Some(P.WorkerTake) else None
    case Mark(_, _) => None
    case Commit(k, w, j) => if j.conn == h then Some(P.Commit(j.id)) else None
    case PoolDestroy(_, _) => None
  }

  /** The step of pool k that a step of the server is, if it is one. */
  function PoolPart(s: State, step: Step, k: nat): Option<W.Step<Job>>
    requires Enabled(s, step)
  {
    match step
    case Administer(_) => None
    case Perform(Conn(_, _)) => None
    case Perform(Submit(h, req)) =>
      if req.pool == k && !s.pools[k].destroying then Some(W.Submit(Job(h, req.id))) else None
    case Perform(Take(i, w)) => if i == k then Some(W.Receive(w)) else None
    case Perform(Mark(i, mark)) => if i == k then Some(mark) else None
    case Perform(Commit(i, w, j)) => if i == k then Some(W.Commit(w, j)) else None
    case Perform(PoolDestroy(i, part)) => if i == k then Some(part) else None
  }

  /** A work step changes a connection by at most one step of its own, and neither the
      registry nor Close. */
  lemma ConnMoves(s: State, x: Work, h: nat)
    requires WorkEnabled(s, x) && h in s.conns
    ensures var t := WorkApply(s, x); var own := OwnStep(s, x, h);
            && h in t.conns
            && (own.None? ==> t.conns[h] == s.conns[h])
            && (own.Some? ==> P.Enabled(s.conns[h], own.value) && t.conns[h] == P.Apply(s.conns[h], own.value))
            && (own.Some? && own.value.GetJob? ==> own.value.req.pool < |s.pools|)
  {
    match x
    case Conn(_, _) =>
    case Submit(_, _) =>
    case Take(_, _) =>
    case Mark(_, _) =>
    case Commit(_, _, _) =>
    case PoolDestroy(_, _) =>
  }

  lemma WorkFrame(s: State, x: Work)
    requires WorkEnabled(s, x)
    ensures var t := WorkApply(s, x);
            && t.reg == s.reg && t.served == s.served && t.closer == s.closer && t.spawners == s.spawners
            && t.home == s.home && t.panicked == s.panicked
            && t.conns.Keys == s.conns.Keys && |t.pools| == |s.pools|
            && (t.late ==> s.late || (x.Submit? && s.pools[x.req.pool].destroying))
  {
    match x
    case Conn(_, _) =>
    case Submit(_, _) =>
    case Take(_, _) =>
    case Mark(_, _) =>
    case Commit(_, _, _) =>
    case PoolDestroy(_, _) =>
  }

  /** An administrative step leaves the pools alone, and every connection but a new one. */
  lemma AdminFrame(s: State, a: Admin)
    requires AdminEnabled(s, a)
    ensures var t := AdminApply(s, a);
            && t.pools == s.pools && t.late == s.late
            && (forall h :: h in s.conns ==> h in t.conns && t.conns[h] == s.conns[h])
            && (forall h :: h in s.conns && h in s.home ==> h in t.home && t.home[h] == s.home[h])
  {
  }

  /** A step changes a pool by at most one step of its own. */
  lemma PoolMoves(s: State, step: Step, k: nat)
    requires Enabled(s, step) && k < |s.pools|
    ensures var t := Apply(s, step); var part := PoolPart(s, step, k);
            && |t.pools| == |s.pools|
            && (part.None? ==> t.pools[k] == s.pools[k])
            && (part.Some? ==> W.Enabled(s.pools[k], part.value) && t.pools[k] == W.Apply(s.pools[k], part.value))
  {
    match step
    case Administer(a) => AdminFrame(s, a);
    case Perform(x) => WorkMoves(s, x, k);
  }

  lemma WorkMoves(s: State, x: Work, k: nat)
    requires WorkEnabled(s, x) && k < |s.pools|
    ensures var t := WorkApply(s, x); var part := PoolPart(s, Perform(x), k);
            && |t.pools| == |s.pools|
            && (part.None? ==> t.pools[k] == s.pools[k])
            && (part.Some? ==> W.Enabled(s.pools[k], part.value) && t.pools[k] == W.Apply(s.pools[k], part.value))
  {
    match x
    case Conn(_, _) =>
    case Submit(_, _) =>
    case Take(_, _) =>
    case Mark(_, _) =>
    case Commit(_, _, _) =>
    case PoolDestroy(_, _) =>
  }

  // ---------------------------------------------------- the registry's invariant

  predicate TornDown(s: State) {
    s.closer.Draining? || s.closer.Closed?
  }

  ghost predicate RegistryOk(s: State) {
    && !s.panicked
    && (s.reg.shutdown <==> !s.closer.Open?)
    && (!s.reg.shutdown ==> forall l :: l in s.served ==> l in s.reg.listeners)
    && (TornDown(s) ==> s.reg.listeners == map[])
    && (s.closer.Tearing? ==> s.closer.todo <= s.conns.Keys)
    && (forall l :: l in s.reg.listeners ==> s.reg.listeners[l] <= s.conns.Keys)
  }

  /** A goroutine of spawn came through a listener that was served. The connection it
      waits for is in the registry until Close takes the listener out. */
  ghost predicate SpawnerOk(s: State, g: nat)
    requires g in s.spawners
  {
    var x := s.spawners[g];
    && x.l in s.served
    && (x.Serving? ==> x.h in s.conns && (!s.reg.shutdown ==> Registered(s, x.l, x.h)))
  }

  predicate Registered(s: State, l: nat, h: nat) {
    l in s.reg.listeners && h in s.reg.listeners[l]
  }

  ghost predicate Served(s: State, l: nat, h: nat) {
    exists g :: g in s.spawners && s.spawners[g] == Serving(l, h)
  }

  /** No two goroutines wait for the same connection. */
  ghost predicate ApartOk(s: State, g: nat, g': nat)
    requires g in s.spawners && g' in s.spawners
  {
    g != g' && s.spawners[g].Serving? && s.spawners[g'].Serving? ==> s.spawners[g].h != s.spawners[g'].h
  }

  /** The getter's request, if it has one, is for a pool there is. */
  ghost predicate PoolKnown(s: State, h: nat)
    requires h in s.conns
  {
    var g := s.conns[h].getter;
    g.Entering? || g.Blocked? || g.Woken? || g.Submitting? ==> g.req.pool < |s.pools|
  }

  /** A spawned connection is in the registry under its listener, or Close is about to wait
      for it, or its goroutines have quit. */
  ghost predicate ConnOk(s: State, h: nat)
    requires h in s.conns
  {
    && P.Inv(s.conns[h]) && s.conns[h].max == P.MAX_OUTSTANDING_REQUESTS
    && PoolKnown(s, h)
    && h in s.home
    && (|| P.Finished(s.conns[h])
        || (s.home[h] in s.reg.listeners && h in s.reg.listeners[s.home[h]])
        || (s.closer.Tearing? && h in s.closer.todo))
  }

  ghost predicate PoolOk(s: State, k: nat)
    requires k < |s.pools|
  {
    s.pools[k].destroying ==> TornDown(s)
  }

  ghost predicate Safe(s: State) {
    && RegistryOk(s) && !s.late
    && (forall g :: g in s.spawners ==> SpawnerOk(s, g))
    && (forall g, g' :: g in s.spawners && g' in s.spawners ==> ApartOk(s, g, g'))
    && (forall l, h :: Registered(s, l, h) ==> Served(s, l, h))
    && (forall h :: h in s.conns ==> ConnOk(s, h))
    && (forall k :: 0 <= k < |s.pools| ==> PoolOk(s, k))
  }

  lemma RegistryStep(s: State, a: Admin)
    requires RegistryOk(s) && AdminEnabled(s, a)
    requires a.Spawn? ==> SpawnerOk(s, a.g)
    ensures RegistryOk(AdminApply(s, a))
  {
  }

  lemma SpawnerStep(s: State, a: Admin, g: nat)
    requires RegistryOk(s) && AdminEnabled(s, a) && g in AdminApply(s, a).spawners && (g in s.spawners ==> SpawnerOk(s, g))
    requires a.Spawn? ==> SpawnerOk(s, a.g)
    requires a.Forget? && g in s.spawners ==> ApartOk(s, g, a.g)
    ensures SpawnerOk(AdminApply(s, a), g)
  {
    AdminFrame(s, a);
    if a.Spawn? {
      SpawnSpawner(s, a.g, a.h, g);
    }
  }

  lemma SpawnSpawner(s: State, i: nat, h: nat, g: nat)
    requires RegistryOk(s) && AdminEnabled(s, Spawn(i, h)) && SpawnerOk(s, i)
    requires g in DoSpawn(s, i, h).spawners && (g in s.spawners ==> SpawnerOk(s, g))
    ensures SpawnerOk(DoSpawn(s, i, h), g)
  {
  }

  lemma ApartStep(s: State, a: Admin, g: nat, g': nat)
    requires AdminEnabled(s, a) && g in AdminApply(s, a).spawners && g' in AdminApply(s, a).spawners
    requires g in s.spawners ==> SpawnerOk(s, g)
    requires g' in s.spawners ==> SpawnerOk(s, g')
    requires g in s.spawners && g' in s.spawners ==> ApartOk(s, g, g')
    ensures ApartOk(AdminApply(s, a), g, g')
  {
  }

  /** A handle enters the registry with its goroutine, and leaves no later than it. */
  lemma ServedStep(s: State, a: Admin, l: nat, h: nat)
    requires AdminEnabled(s, a) && Registered(AdminApply(s, a), l, h)
    requires Registered(s, l, h) ==> Served(s, l, h)
    ensures Served(AdminApply(s, a), l, h)
  {
    var t := AdminApply(s, a);
    if Registered(s, l, h) {
      var g :| g in s.spawners && s.spawners[g] == Serving(l, h);
      assert g in t.spawners && t.spawners[g] == Serving(l, h);
    } else {
      assert a.Spawn?;
      assert t.spawners[a.g] == Serving(l, h);
    }
  }

  lemma PoolStep(s: State, step: Step, k: nat)
    requires RegistryOk(s) && Enabled(s, step) && k < |s.pools| && PoolOk(s, k)
    ensures k < |Apply(s, step).pools| == |s.pools| && PoolOk(Apply(s, step), k)
  {
    PoolMoves(s, step, k);
    match step
    case Administer(a) =>
    case Perform(x) => WorkFrame(s, x);
  }

  lemma PipelineStep(c: P.State, own: P.Step)
    requires P.Inv(c) && P.Enabled(c, own)
    ensures P.Inv(P.Apply(c, own)) && P.Apply(c, own).max == c.max
    ensures P.Finished(c) ==> P.Finished(P.Apply(c, own))
  {
    P.StepKeepsInv(c, own);
    if P.Finished(c) {
      P.FinishedIsFinal(c, own);
    }
  }

  lemma ConnWork(s: State, x: Work, h: nat)
    requires WorkEnabled(s, x) && h in s.conns && ConnOk(s, h)
    ensures h in WorkApply(s, x).conns && ConnOk(WorkApply(s, x), h)
  {
    ConnMoves(s, x, h);
    WorkFrame(s, x);
    if OwnStep(s, x, h).Some? {
      PipelineStep(s.conns[h], OwnStep(s, x, h).value);
    }
  }

  /** A connection leaves the registry only into Close's list or after its goroutines quit. */
  lemma ConnAdmin(s: State, a: Admin, h: nat)
    requires RegistryOk(s) && AdminEnabled(s, a) && h in s.conns && ConnOk(s, h)
    ensures h in AdminApply(s, a).conns && ConnOk(AdminApply(s, a), h)
  {
    AdminFrame(s, a);
  }

  lemma OnlySpawnAdds(s: State, a: Admin, h: nat)
    requires AdminEnabled(s, a) && h in AdminApply(s, a).conns && h !in s.conns
    ensures a.Spawn? && a.h == h && SpawnCore(s.reg, s.spawners[a.g].l, h).1.Spawned?
  {
  }

  lemma SpawnEffect(s: State, g: nat, h: nat)
    requires AdminEnabled(s, Spawn(g, h)) && SpawnCore(s.reg, s.spawners[g].l, h).1.Spawned?
    ensures var t := DoSpawn(s, g, h); var l := s.spawners[g].l;
            && h in t.conns && t.conns[h] == P.Init(P.MAX_OUTSTANDING_REQUESTS)
            && h in t.home && t.home[h] == l && l in t.reg.listeners && h in t.reg.listeners[l]
  {
  }

  lemma NewConn(s: State, g: nat, h: nat)
    requires AdminEnabled(s, Spawn(g, h)) && SpawnCore(s.reg, s.spawners[g].l, h).1.Spawned?
    ensures h in DoSpawn(s, g, h).conns && ConnOk(DoSpawn(s, g, h), h)
  {
    SpawnEffect(s, g, h);
    P.InitInv(P.MAX_OUTSTANDING_REQUESTS);
  }

  /** A connection that submits has not quit, so no pool it submits to is being destroyed. */
  lemma NeverLate(s: State, x: Work)
    requires Safe(s) && WorkEnabled(s, x)
    ensures x.Submit? ==> !s.pools[x.req.pool].destroying
    ensures !WorkApply(s, x).late
  {
    WorkFrame(s, x);
    if x.Submit? {
      assert ConnOk(s, x.h) && PoolOk(s, x.req.pool);
    }
  }

  lemma StepKeepsSafe(s: State, step: Step)
    requires Safe(s) && Enabled(s, step)
    ensures Safe(Apply(s, step))
  {
    match step
    case Administer(a) => AdminKeepsSafe(s, a);
    case Perform(x) => WorkKeepsSafe(s, x);
  }

  lemma AdminKeepsSafe(s: State, a: Admin)
    requires Safe(s) && AdminEnabled(s, a)
    ensures Safe(AdminApply(s, a))
  {
    var t := AdminApply(s, a);
    AdminFrame(s, a);
    RegistryStep(s, a);
    forall g | g in t.spawners ensures SpawnerOk(t, g) {
      SpawnerStep(s, a, g);
    }
    forall g, g' | g in t.spawners && g' in t.spawners ensures ApartOk(t, g, g') {
      ApartStep(s, a, g, g');
    }
    forall l, h | Registered(t, l, h) ensures Served(t, l, h) {
      ServedStep(s, a, l, h);
    }
    forall h | h in t.conns ensures ConnOk(t, h) {
      if h in s.conns {
        ConnAdmin(s, a, h);
      } else {
        OnlySpawnAdds(s, a, h);
        NewConn(s, a.g, h);
      }
    }
    forall k | 0 <= k < |t.pools| ensures PoolOk(t, k) {
      PoolStep(s, Administer(a), k);
    }
  }

  lemma WorkKeepsSafe(s: State, x: Work)
    requires Safe(s) && WorkEnabled(s, x)
    ensures Safe(WorkApply(s, x))
  {
    var t := WorkApply(s, x);
    WorkFrame(s, x);
    NeverLate(s, x);
    forall g | g in t.spawners ensures SpawnerOk(t, g) {
      assert SpawnerOk(s, g);
      if t.spawners[g].Serving? {
        assert t.spawners[g].h in s.conns.Keys;
      }
    }
    forall g, g' | g in t.spawners && g' in t.spawners ensures ApartOk(t, g, g') {
      assert ApartOk(s, g, g');
    }
    forall l, h | Registered(t, l, h) ensures Served(t, l, h) {
      assert Registered(s, l, h);
      var g :| g in s.spawners && s.spawners[g] == Serving(l, h);
      assert g in t.spawners && t.spawners[g] == Serving(l, h);
    }
    forall h | h in t.conns ensures ConnOk(t, h) {
      assert h in s.conns.Keys;
      ConnWork(s, x, h);
    }
    forall k | 0 <= k < |t.pools| ensures PoolOk(t, k) {
      PoolStep(s, Perform(x), k);
    }
  }

  lemma {:induction false} RunKeepsSafe(workers: seq<nat>, steps: seq<Step>)
    requires Exec(workers, steps).Some?
    ensures Safe(Exec(workers, steps).value)
  {
    if steps != [] {
      RunKeepsSafe(workers, steps[..|steps| - 1]);
      StepKeepsSafe(Exec(workers, steps[..|steps| - 1]).value, steps[|steps| - 1]);
    }
  }

  // --------------------------------- the pools hold what the connections think

  function IsOf(h: nat): Job -> bool {
    (j: Job) => j.conn == h
  }

  function QueuedIn(p: Job -> bool): W.State<Job> -> nat {
    (x: W.State<Job>) => W.Queued(x, p)
  }

  function InHandIn(p: Job -> bool): W.State<Job> -> nat {
    (x: W.State<Job>) => W.InHand(x, p)
  }

  /** The connection's state; one not yet spawned has nothing outstanding. */
  function ConnAt(s: State, h: nat): P.State {
    if h in s.conns then s.conns[h] else P.Init(P.MAX_OUTSTANDING_REQUESTS)
  }

  /** Over all pools together, as many of h's jobs wait and are in workers' hands as h's
      own pipeline counts. */
  ghost predicate Linked(s: State, h: nat) {
    && ConnAt(s, h).queued == Sum(s.pools, QueuedIn(IsOf(h)))
    && ConnAt(s, h).executing == Sum(s.pools, InHandIn(IsOf(h)))
  }

  /** The effect of one pool's step on the totals of the jobs satisfying p. */
  lemma TotalsMove(s: State, k: nat, step: W.Step<Job>, p: Job -> bool)
    requires k < |s.pools| && W.Enabled(s.pools[k], step)
    ensures var t := SetPool(s, k, step);
            var taken := Bit(step.Receive? && s.pools[k].jobs[0].Some? && p(s.pools[k].jobs[0].value));
            && Sum(t.pools, QueuedIn(p)) + taken == Sum(s.pools, QueuedIn(p)) + Bit(step.Submit? && p(step.j))
            && Sum(t.pools, InHandIn(p)) + Bit(step.Commit? && p(step.j)) == Sum(s.pools, InHandIn(p)) + taken
  {
    W.StepMoves(s.pools[k], step, p);
    SumUpdate(s.pools, k, W.Apply(s.pools[k], step), QueuedIn(p));
    SumUpdate(s.pools, k, W.Apply(s.pools[k], step), InHandIn(p));
  }

  /** A connection's own steps leave its jobs in the pools alone. */
  lemma OwnStepKeepsJobs(c: P.State, own: P.Step)
    requires P.Enabled(c, own) && !Shared(own)
    ensures P.Apply(c, own).queued == c.queued && P.Apply(c, own).executing == c.executing
  {
  }

  lemma SubmitLinks(s: State, x: nat, req: P.Request, h: nat)
    requires WorkEnabled(s, Submit(x, req)) && Linked(s, h)
    ensures Linked(DoSubmit(s, x, req), h)
  {
    if !s.pools[req.pool].destroying {
      TotalsMove(SetConn(s, x, P.Submit(req)), req.pool, W.Submit(Job(x, req.id)), IsOf(h));
    }
  }

  lemma TakeLinks(s: State, k: nat, w: nat, h: nat)
    requires WorkEnabled(s, Take(k, w)) && Linked(s, h)
    ensures Linked(DoTake(s, k, w), h)
  {
    TotalsMove(s, k, W.Receive(w), IsOf(h));
  }

  lemma CommitLinks(s: State, k: nat, w: nat, j: Job, h: nat)
    requires WorkEnabled(s, Commit(k, w, j)) && Linked(s, h)
    ensures Linked(DoCommit(s, k, w, j), h)
  {
    TotalsMove(s, k, W.Commit(w, j), IsOf(h));
  }

  lemma LinkWork(s: State, x: Work, h: nat)
    requires WorkEnabled(s, x) && Linked(s, h)
    ensures Linked(WorkApply(s, x), h)
  {
    match x
    case Submit(g, req) => SubmitLinks(s, g, req, h);
    case Take(k, w) => TakeLinks(s, k, w, h);
    case Commit(k, w, j) => CommitLinks(s, k, w, j, h);
    case Mark(k, mark) => TotalsMove(s, k, mark, IsOf(h));
    case PoolDestroy(k, part) => TotalsMove(s, k, part, IsOf(h));
    case Conn(g, own) => OwnStepKeepsJobs(s.conns[g], own);
  }

  lemma LinkAdmin(s: State, a: Admin, h: nat)
    requires AdminEnabled(s, a) && Linked(s, h)
    ensures Linked(AdminApply(s, a), h)
  {
    AdminFrame(s, a);
    if h !in s.conns && h in AdminApply(s, a).conns {
      OnlySpawnAdds(s, a, h);
    }
  }

  lemma InitLinked(workers: seq<nat>, h: nat)
    ensures Linked(Init(workers), h)
  {
    var s := Init(workers);
    forall i | 0 <= i < |s.pools| ensures W.Queued(s.pools[i], IsOf(h)) == 0 && W.InHand(s.pools[i], IsOf(h)) == 0 {
      CountNone(s.pools[i].workers, (w: W.Worker<Job>) => W.Holds(w, IsOf(h)));
    }
    SumZero(s.pools, QueuedIn(IsOf(h)));
    SumZero(s.pools, InHandIn(IsOf(h)));
  }

  lemma {:induction false} RunLinked(workers: seq<nat>, steps: seq<Step>, h: nat)
    requires Exec(workers, steps).Some?
    ensures Linked(Exec(workers, steps).value, h)
  {
    if steps == [] {
      InitLinked(workers, h);
    } else {
      RunLinked(workers, steps[..|steps| - 1], h);
      var s := Exec(workers, steps[..|steps| - 1]).value;
      match steps[|steps| - 1]
      case Administer(a) => LinkAdmin(s, a, h);
      case Perform(x) => LinkWork(s, x, h);
    }
  }

  // ------------------------------------------------- each pool's part of a run

  /** PoolPart as a list of at most one step. */
  function Parts(s: State, step: Step, k: nat): seq<W.Step<Job>>
    requires Enabled(s, step)
  {
    if PoolPart(s, step, k).Some? then [PoolPart(s, step, k).value] else []
  }

  /** The steps of a run that are steps of pool k. */
  function PoolRun(workers: seq<nat>, steps: seq<Step>, k: nat): seq<W.Step<Job>>
    requires Exec(workers, steps).Some?
  {
    if steps == [] then []
    else
      var before := steps[..|steps| - 1];
      PoolRun(workers, before, k) + Parts(Exec(workers, before).value, steps[|steps| - 1], k)
  }

  lemma PartExec(n: nat, run: seq<W.Step<Job>>, s: State, step: Step, k: nat)
    requires Enabled(s, step) && k < |s.pools| && W.Exec(n, run) == Some(s.pools[k])
    ensures |Apply(s, step).pools| == |s.pools|
    ensures W.Exec(n, run + Parts(s, step, k)) == Some(Apply(s, step).pools[k])
  {
    PoolMoves(s, step, k);
    if PoolPart(s, step, k).Some? {
      W.ExecSnoc(n, run, PoolPart(s, step, k).value);
    } else {
      assert run + Parts(s, step, k) == run;
    }
  }

  /** They are a run of a pool by itself, and end in the pool's state. */
  lemma {:induction false} PoolRunExec(workers: seq<nat>, steps: seq<Step>, k: nat)
    requires Exec(workers, steps).Some? && k < |workers|
    ensures var s := Exec(workers, steps).value;
            |s.pools| == |workers| && W.Exec(workers[k], PoolRun(workers, steps, k)) == Some(s.pools[k])
  {
    if steps != [] {
      var before, last := steps[..|steps| - 1], steps[|steps| - 1];
      PoolRunExec(workers, before, k);
      PartExec(workers[k], PoolRun(workers, before, k), Exec(workers, before).value, last, k);
    }
  }

  /** So every pool of a server keeps the pools' own invariants. */
  lemma RunKeepsPools(workers: seq<nat>, steps: seq<Step>, k: nat)
    requires Exec(workers, steps).Some? && k < |workers|
    ensures var s := Exec(workers, steps).value;
            && |s.pools| == |workers| && |s.pools[k].workers| == workers[k]
            && W.QueueOk(s.pools[k]) && W.CountsOk(s.pools[k])
  {
    PoolRunExec(workers, steps, k);
    W.RunKeepsInv(workers[k], PoolRun(workers, steps, k));
  }

  function SubmitsTo(k: nat, p: Job -> bool): Step -> bool {
    (x: Step) => x.Perform? && x.work.Submit? && x.work.req.pool == k && p(Job(x.work.h, x.work.req.id))
  }

  function CommitsIn(k: nat, p: Job -> bool): Step -> bool {
    (x: Step) => x.Perform? && x.work.Commit? && x.work.k == k && p(x.work.j)
  }

  /** How many jobs satisfying p the connections of a run submit to pool k. */
  function SubmittedTo(steps: seq<Step>, k: nat, p: Job -> bool): nat {
    Count(steps, SubmitsTo(k, p))
  }

  /** How many jobs satisfying p the workers of pool k execute and commit. */
  function CommittedIn(steps: seq<Step>, k: nat, p: Job -> bool): nat {
    Count(steps, CommitsIn(k, p))
  }

  /** A step of the server submits or commits a job exactly when its part in the pool does. */
  lemma PartIsStep(s: State, step: Step, k: nat, p: Job -> bool)
    requires Safe(s) && Enabled(s, step) && k < |s.pools|
    ensures var part := PoolPart(s, step, k);
            && (SubmitsTo(k, p)(step) <==> part.Some? && part.value.Submit? && p(part.value.j))
            && (CommitsIn(k, p)(step) <==> part.Some? && part.value.Commit? && p(part.value.j))
  {
    if step.Perform? {
      NeverLate(s, step.work);
    }
  }

  lemma PartCounts(run: seq<W.Step<Job>>, s: State, step: Step, k: nat, p: Job -> bool)
    requires Safe(s) && Enabled(s, step) && k < |s.pools|
    ensures W.Submitted(run + Parts(s, step, k), p) == W.Submitted(run, p) + Bit(SubmitsTo(k, p)(step))
    ensures W.Executed(run + Parts(s, step, k), p) == W.Executed(run, p) + Bit(CommitsIn(k, p)(step))
  {
    PartIsStep(s, step, k, p);
    if PoolPart(s, step, k).Some? {
      W.CountsSnoc(run, PoolPart(s, step, k).value, p);
    } else {
      assert run + Parts(s, step, k) == run;
    }
  }

  lemma {:induction false} PoolRunCounts(workers: seq<nat>, steps: seq<Step>, k: nat, p: Job -> bool)
    requires Exec(workers, steps).Some? && k < |workers|
    ensures W.Submitted(PoolRun(workers, steps, k), p) == SubmittedTo(steps, k, p)
    ensures W.Executed(PoolRun(workers, steps, k), p) == CommittedIn(steps, k, p)
  {
    if steps != [] {
      var before, last := steps[..|steps| - 1], steps[|steps| - 1];
      PoolRunCounts(workers, before, k, p);
      RunKeepsSafe(workers, before);
      PoolRunExec(workers, before, k);
      PartCounts(PoolRun(workers, before, k), Exec(workers, before).value, last, k, p);
    }
  }

  // ------------------------------------------------------------------ theorems

  /** A worker holding a job of h is one of h's executing jobs. */
  lemma HeldCounts(s: State, k: nat, w: nat, h: nat)
    requires k < |s.pools| && w < |s.pools[k].workers| && W.Holds(s.pools[k].workers[w], IsOf(h)) && Linked(s, h)
    ensures h in s.conns && s.conns[h].executing > 0
  {
    W.HeldIsInHand(s.pools[k], w, IsOf(h));
    SumMember(s.pools, k, InHandIn(IsOf(h)));
  }

  lemma HeadCounts(s: State, k: nat, h: nat)
    requires k < |s.pools| && s.pools[k].jobs != [] && s.pools[k].jobs[0].Some?
    requires s.pools[k].jobs[0].value.conn == h && Linked(s, h)
    ensures h in s.conns && s.conns[h].queued > 0
  {
    W.HeadIsQueued(s.pools[k], IsOf(h));
    SumMember(s.pools, k, QueuedIn(IsOf(h)));
  }

  lemma BusyCanCommit(s: State, k: nat, w: nat)
    requires k < |s.pools| && w < |s.pools[k].workers| && s.pools[k].workers[w].Busy?
    requires var h := s.pools[k].workers[w].job.conn; Linked(s, h) && (h in s.conns ==> ConnOk(s, h))
    ensures WorkEnabled(s, Commit(k, w, s.pools[k].workers[w].job))
  {
    HeldCounts(s, k, w, s.pools[k].workers[w].job.conn);
  }

  lemma HeadCanBeTaken(s: State, k: nat, w: nat)
    requires k < |s.pools| && W.Enabled(s.pools[k], W.Receive(w))
    requires s.pools[k].jobs[0].Some? ==> Linked(s, s.pools[k].jobs[0].value.conn)
    ensures WorkEnabled(s, Take(k, w))
  {
    if s.pools[k].jobs[0].Some? {
      HeadCounts(s, k, s.pools[k].jobs[0].value.conn);
    }
  }

  /** In every run of the whole server, no worker of any pool ever blocks: one with a
      finished job can send its response, and one that has a job or sentinel to receive can
      go on. */
  lemma NoWorkerBlocks(workers: seq<nat>, steps: seq<Step>, k: nat, w: nat)
    requires Exec(workers, steps).Some?
    requires var s := Exec(workers, steps).value; k < |s.pools| && w < |s.pools[k].workers|
    ensures var s := Exec(workers, steps).value;
            && (s.pools[k].workers[w].Busy? ==> WorkEnabled(s, Commit(k, w, s.pools[k].workers[w].job)))
            && (W.Enabled(s.pools[k], W.Receive(w)) ==> WorkEnabled(s, Take(k, w)))
  {
    RunKeepsSafe(workers, steps);
    var s := Exec(workers, steps).value;
    if s.pools[k].workers[w].Busy? {
      RunLinked(workers, steps, s.pools[k].workers[w].job.conn);
      BusyCanCommit(s, k, w);
    }
    if W.Enabled(s.pools[k], W.Receive(w)) {
      if s.pools[k].jobs[0].Some? {
        RunLinked(workers, steps, s.pools[k].jobs[0].value.conn);
      }
      HeadCanBeTaken(s, k, w);
    }
  }

  /** In every run of the whole server, no connection ever has more than 1024 jobs queued,
      executing and unread together, over all pools. */
  lemma OutstandingBound(workers: seq<nat>, steps: seq<Step>, h: nat)
    requires Exec(workers, steps).Some? && h in Exec(workers, steps).value.conns
    ensures var s := Exec(workers, steps).value;
            Sum(s.pools, QueuedIn(IsOf(h))) + Sum(s.pools, InHandIn(IsOf(h))) + |s.conns[h].responses| <= 1024
  {
    RunKeepsSafe(workers, steps);
    RunLinked(workers, steps, h);
    assert ConnOk(Exec(workers, steps).value, h);
  }

  /** In every run, spawn never stores into a missing listener's map, no connection starts
      and no listener is served after Close has begun, and no job reaches a pool after its Destroy has begun. */
  lemma RegistrySafe(workers: seq<nat>, steps: seq<Step>, step: Step)
    requires Exec(workers, steps).Some? && Enabled(Exec(workers, steps).value, step)
    ensures var s := Exec(workers, steps).value; var t := Apply(s, step);
            && !t.panicked && !t.late
            && (s.reg.shutdown ==> t.conns.Keys == s.conns.Keys && t.served == s.served)
  {
    RunKeepsSafe(workers, steps);
    var s := Exec(workers, steps).value;
    StepKeepsSafe(s, step);
    match step
    case Administer(a) =>
      if s.reg.shutdown {
        ConnsFixed(s, a);
      }
    case Perform(x) => WorkFrame(s, x);
  }

  /** The registry is exact: every handle in it has a goroutine of spawn that serves it, and
      until Close begins the converse holds too, so a handle is in it from the spawning of
      its connection until the goroutine has seen it end. */
  lemma RegistryExact(workers: seq<nat>, steps: seq<Step>, l: nat, h: nat)
    requires Exec(workers, steps).Some?
    ensures var s := Exec(workers, steps).value;
            && (Registered(s, l, h) ==> Served(s, l, h))
            && (!s.reg.shutdown ==> (Registered(s, l, h) <==> Served(s, l, h)))
  {
    RunKeepsSafe(workers, steps);
    var s := Exec(workers, steps).value;
    if Served(s, l, h) {
      var g :| g in s.spawners && s.spawners[g] == Serving(l, h);
      assert SpawnerOk(s, g);
    }
  }

  /** A connection accepted by a listener is spawned, with both its goroutines at their
      start, unless Close has begun; then its goroutine of spawn ends. When a spawned
      connection has quit, the goroutine forgets it and ends. */
  lemma SpawnDecides(workers: seq<nat>, steps: seq<Step>, g: nat, h: nat)
    requires Exec(workers, steps).Some?
    ensures var s := Exec(workers, steps).value;
            AdminEnabled(s, Spawn(g, h)) ==>
              var t := AdminApply(s, Spawn(g, h));
              if s.reg.shutdown then g !in t.spawners && t.conns == s.conns
              else
                && g in t.spawners && t.spawners[g] == Serving(s.spawners[g].l, h)
                && t.conns == s.conns[h := P.Init(P.MAX_OUTSTANDING_REQUESTS)]
                && Registered(t, s.spawners[g].l, h)
    ensures var s := Exec(workers, steps).value;
            AdminEnabled(s, Forget(g)) ==>
              var t := AdminApply(s, Forget(g)); g !in t.spawners && !Registered(t, s.spawners[g].l, s.spawners[g].h)
  {
    RunKeepsSafe(workers, steps);
    var s := Exec(workers, steps).value;
    if g in s.spawners {
      assert SpawnerOk(s, g);
    }
  }

  lemma ConnsFixed(s: State, a: Admin)
    requires AdminEnabled(s, a) && s.reg.shutdown
    ensures AdminApply(s, a).conns == s.conns && AdminApply(s, a).served == s.served
  {
  }

  /** Once Close has torn down the listeners, both goroutines of every connection ever
      spawned have quit, and no pool was being destroyed before that. */
  lemma AllQuitBeforePools(workers: seq<nat>, steps: seq<Step>)
    requires Exec(workers, steps).Some?
    ensures var s := Exec(workers, steps).value;
            && (TornDown(s) ==> forall h :: h in s.conns ==> P.Finished(s.conns[h]))
            && (forall k :: 0 <= k < |s.pools| && s.pools[k].destroying ==> TornDown(s))
  {
    RunKeepsSafe(workers, steps);
    var s := Exec(workers, steps).value;
    if TornDown(s) {
      forall h | h in s.conns ensures P.Finished(s.conns[h]) {
        assert ConnOk(s, h);
      }
    }
    forall k | 0 <= k < |s.pools| && s.pools[k].destroying ensures TornDown(s) {
      assert PoolOk(s, k);
    }
  }

  /** Once Close has destroyed a pool, every job that any connection ever submitted to it
      has been executed and committed exactly once, if and only if the pool has a worker or
      there was no such job; for every way p of picking jobs out, a single one included. */
  lemma JobsDone(workers: seq<nat>, steps: seq<Step>, k: nat, p: Job -> bool)
    requires Exec(workers, steps).Some? && k < |workers|
    requires k < |Exec(workers, steps).value.pools| && Exec(workers, steps).value.pools[k].destroyed
    ensures CommittedIn(steps, k, p) == SubmittedTo(steps, k, p) <==> workers[k] > 0 || SubmittedTo(steps, k, p) == 0
  {
    PoolRunExec(workers, steps, k);
    PoolRunCounts(workers, steps, k, p);
    W.DrainedByDestroy(workers[k], PoolRun(workers, steps, k), p);
  }
}
