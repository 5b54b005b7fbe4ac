/** The client connection (conn/conn.go): many operations share one connection through a
    map from request IDs to response channels. The atomic steps are the sections under
    a mutex and the channel operations, in any interleaving. */
module Multiplexer {
  import opened Wrappers

  /** Request IDs are uint32. */
  const ID_SPACE: int := 0x1_0000_0000

  // ------------------------------------------------- the fields under mapMtx

  /** The fields guarded by mapMtx. A response channel is named by the operation that
      made it. */
  datatype Core = Core(closed: bool, nextID: nat, listeners: map<nat, nat>)

  datatype Registration = RefusedClosed | Collision(id: nat) | Allocated(id: nat)

  /** The first section of DoOperation: an ID is allocated and the channel entered. */
  function RegisterCore(c: Core, chan: nat): (Core, Registration) {
    if c.closed then (c, RefusedClosed)
    else
      var id := c.nextID;
      var next := (c.nextID + 1) % ID_SPACE;
      if id in c.listeners then (c.(nextID := next), Collision(id))
      else (c.(nextID := next, listeners := c.listeners[id := chan]), Allocated(id))
  }

  /** extractChannel: the entry is removed and its channel returned. */
  function ExtractCore(c: Core, id: nat): (Core, Option<nat>) {
    if c.closed then (c, None)
    else if id !in c.listeners then (c, None)
    else (c.(listeners := c.listeners - {id}), Some(c.listeners[id]))
  }

  // -------------------------------------------------------------- the machine

  /** A packet from the server: its ID, and the operation whose request it answers, if it
      is an answer at all. */
  datatype Packet = Packet(id: nat, origin: Option<nat>)

  /** What is sent on a response channel: Close's nil, the error of the timer of an
      operation, or a reply. Timers and replies record how many IDs had been allocated when
      the channel was looked up. */
  datatype Delivery = Nil | TimedOut(timer: nat, allocs: nat) | Reply(pkt: Packet, allocs: nat)

  /** The operation a delivery was meant for, if it was meant for one. */
  function OriginOf(d: Delivery): Option<nat> {
    match d
    case Nil => None
    case TimedOut(p, _) => Some(p)
    case Reply(pkt, _) => pkt.origin
  }

  datatype Outcome = Failed | Got(delivery: Delivery)

  /** Where a call of DoOperation is. */
  datatype Pc = Start | Collided | Registered | Writing | Written | Waiting | Returned(outcome: Outcome)

  /** A call of DoOperation. serial numbers its ID allocation; chan is the buffer of its
      response channel and sends counts the values ever sent on it; holder is the actor
      that has extracted the channel and not sent yet; timer is its timeout actor. */
  datatype Op = Op(pc: Pc, serial: Option<nat>, chan: seq<Delivery>, sends: nat,
                   holder: Option<nat>, timer: Option<nat>)

  /** A goroutine in DoRead with a packet, in timeoutRequest, or about to send. */
  datatype Actor = Reader(pkt: Packet) | Timer(op: nat) | Sending(op: nat, delivery: Delivery)

  /** Progress of the Close call that holds writeMtx; Sweeping also holds mapMtx and has
      these entries still to notify. */
  datatype Closer = Idle | HasWrite | Sweeping(remaining: set<nat>)

  datatype State = State(core: Core, allocs: nat, ops: map<nat, Op>, actors: map<nat, Actor>,
                         writer: Option<nat>, closer: Closer)

  const INIT: State := State(Core(false, 0, map[]), 0, map[], map[], None, Idle)

  datatype Step =
    | Begin(o: nat)
    | Register(o: nat)
    | CollideReturn(o: nat)
    | WriteBegin(o: nat)
    | WriteEnd(o: nat, ok: bool)
    | StartTimer(o: nat, a: nat)
    | Receive(o: nat)
    | Arrive(a: nat, pkt: Packet)
    | Extract(a: nat)
    | Send(a: nat)
    | CloseLock
    | CloseMap
    | CloseSend(id: nat)
    | CloseDone

  predicate MapFree(s: State) {
    !s.closer.Sweeping?
  }

  predicate WriteFree(s: State) {
    s.writer.None? && s.closer.Idle?
  }

  predicate At(s: State, o: nat, pc: Pc) {
    o in s.ops && s.ops[o].pc == pc
  }

  /** The ID of a registered operation. */
  function IdOf(op: Op): nat
    requires op.serial.Some?
  {
    op.serial.value % ID_SPACE
  }

  /** A channel of capacity one has room. */
  predicate Room(s: State, o: nat) {
    o in s.ops && |s.ops[o].chan| < 1
  }

  predicate Enabled(s: State, step: Step) {
    match step
    case Begin(o) => o !in s.ops
    case Register(o) => At(s, o, Start) && MapFree(s)
    case CollideReturn(o) => At(s, o, Collided) && s.core.closed && s.closer.Idle?
    case WriteBegin(o) => At(s, o, Registered) && WriteFree(s)
    case WriteEnd(o, ok) => At(s, o, Writing) && s.writer == Some(o)
    case StartTimer(o, a) => At(s, o, Written) && a !in s.actors
    case Receive(o) => At(s, o, Waiting) && s.ops[o].chan != []
    case Arrive(a, pkt) =>
      && a !in s.actors
      && (pkt.origin.Some? ==>
            && pkt.origin.value in s.ops && s.ops[pkt.origin.value].serial.Some?
            && pkt.id == IdOf(s.ops[pkt.origin.value]))
    case Extract(a) =>
      && a in s.actors && !s.actors[a].Sending? && MapFree(s)
      && (s.actors[a].Timer? ==> s.actors[a].op in s.ops && s.ops[s.actors[a].op].serial.Some?)
    case Send(a) => a in s.actors && s.actors[a].Sending? && Room(s, s.actors[a].op)
    case CloseLock => WriteFree(s)
    case CloseMap => s.closer.HasWrite?
    case CloseSend(id) =>
      && s.closer.Sweeping? && id in s.closer.remaining && id in s.core.listeners
      && Room(s, s.core.listeners[id])
    case CloseDone => s.closer.Sweeping? && s.closer.remaining == {}
  }

  function SetPc(s: State, o: nat, pc: Pc): State
    requires o in s.ops
  {
    s.(ops := s.ops[o := s.ops[o].(pc := pc)])
  }

  /** A send on o's channel. */
  function Put(s: State, o: nat, d: Delivery): State
    requires o in s.ops
  {
    var op := s.ops[o];
    s.(ops := s.ops[o := op.(chan := op.chan + [d], sends := op.sends + 1, holder := None)])
  }

  function DoRegister(s: State, o: nat): State
    requires At(s, o, Start)
  {
    var (core, r) := RegisterCore(s.core, o);
    match r
    case RefusedClosed => SetPc(s, o, Returned(Failed))
    case Collision(_) => SetPc(s, o, Collided).(core := core, allocs := s.allocs + 1)
    case Allocated(_) =>
      s.(core := core, allocs := s.allocs + 1,
         ops := s.ops[o := s.ops[o].(pc := Registered, serial := Some(s.allocs))])
  }

  /** The ID an actor looks up, and what it will send if it finds the channel. */
  function Wanted(s: State, a: nat): (nat, Delivery)
    requires Enabled(s, Extract(a))
  {
    match s.actors[a]
    case Reader(pkt) => (pkt.id, Reply(pkt, s.allocs))
    case Timer(o) => (IdOf(s.ops[o]), TimedOut(o, s.allocs))
  }

  function DoExtract(s: State, a: nat): State
    requires Enabled(s, Extract(a))
  {
    var (id, d) := Wanted(s, a);
    var (core, found) := ExtractCore(s.core, id);
    if found.None? || found.value !in s.ops then s.(actors := s.actors - {a})
    else
      var o := found.value;
      s.(core := core, actors := s.actors[a := Sending(o, d)], ops := s.ops[o := s.ops[o].(holder := Some(a))])
  }

  function Apply(s: State, step: Step): State
    requires Enabled(s, step)
  {
    match step
    case Begin(o) => s.(ops := s.ops[o := Op(Start, None, [], 0, None, None)])
    case Register(o) => DoRegister(s, o)
    case CollideReturn(o) => SetPc(s, o, Returned(Failed))
    case WriteBegin(o) =>
      if s.core.closed then SetPc(s, o, Returned(Failed)) else SetPc(s, o, Writing).(writer := Some(o))
    case WriteEnd(o, ok) => SetPc(s, o, if ok then Written else Returned(Failed)).(writer := None)
    case StartTimer(o, a) =>
      s.(actors := s.actors[a := Timer(o)], ops := s.ops[o := s.ops[o].(pc := Waiting, timer := Some(a))])
    case Receive(o) =>
      s.(ops := s.ops[o := s.ops[o].(pc := Returned(Got(s.ops[o].chan[0])), chan := s.ops[o].chan[1..])])
    case Arrive(a, pkt) => s.(actors := s.actors[a := Reader(pkt)])
    case Extract(a) => DoExtract(s, a)
    case Send(a) => Put(s, s.actors[a].op, s.actors[a].delivery).(actors := s.actors - {a})
    case CloseLock => s.(closer := HasWrite)
    case CloseMap =>
      if s.core.closed then s.(closer := Idle)
      else s.(core := s.core.(closed := true), closer := Sweeping(s.core.listeners.Keys))
    case CloseSend(id) =>
      Put(s, s.core.listeners[id], Nil).(closer := Sweeping(s.closer.remaining - {id}))
    case CloseDone => s.(closer := Idle)
  }

  /** The state after a run from a new connection, if each step was enabled in turn. */
  function Exec(steps: seq<Step>): Option<State> {
    if steps == [] then Some(INIT)
    else
      var before := Exec(steps[..|steps| - 1]);
      var last := steps[|steps| - 1];
      if before.Some? && Enabled(before.value, last) then Some(Apply(before.value, last)) else None
  }

  // -------------------------------------------------------------- the invariant

  /** o's channel is in the listeners map, under o's ID. */
  ghost predicate Listed(s: State, o: nat) {
    && o in s.ops && s.ops[o].serial.Some?
    && IdOf(s.ops[o]) in s.core.listeners && s.core.listeners[IdOf(s.ops[o])] == o
  }

  /** The entry has not been notified by Close. */
  ghost predicate Unswept(s: State, id: nat) {
    !s.core.closed || (s.closer.Sweeping? && id in s.closer.remaining)
  }

  ghost predicate GotReply(op: Op) {
    op.pc.Returned? && op.pc.outcome.Got?
  }

  ghost predicate HeldBy(s: State, o: nat, a: nat) {
    a in s.actors && s.actors[a].Sending? && s.actors[a].op == o
  }

  /** Each value ever sent on o's channel is accounted for. */
  ghost predicate OpOk(s: State, o: nat)
    requires o in s.ops
  {
    var op := s.ops[o];
    && (op.serial.None? ==> op.sends == 0 && op.holder.None? && op.pc in {Start, Collided, Returned(Failed)})
    && (op.serial.Some? ==> op.serial.value < s.allocs && op.pc != Start && op.pc != Collided)
    && (Listed(s, o) ==> op.holder.None? && op.sends == if Unswept(s, IdOf(op)) then 0 else 1)
    && (op.serial.Some? && !Listed(s, o) ==> op.sends == if op.holder.Some? then 0 else 1)
    && |op.chan| == (if GotReply(op) then 0 else op.sends)
    && (GotReply(op) ==> op.sends == 1)
    && (op.holder.Some? ==> HeldBy(s, o, op.holder.value))
    && (op.pc.Waiting? && Listed(s, o) && !s.core.closed ==>
          op.timer.Some? && op.timer.value in s.actors && s.actors[op.timer.value] == Timer(o))
  }

  /** A reply carries the operation's ID; and what was meant for an operation is for this
      one, unless 2^32 IDs were allocated in between. */
  ghost predicate Matches(s: State, o: nat, d: Delivery) {
    !d.Nil? ==>
      && o in s.ops && s.ops[o].serial.Some?
      && (d.Reply? ==> d.pkt.id == IdOf(s.ops[o]))
      && (OriginOf(d).Some? ==>
            var p := OriginOf(d).value;
            && p in s.ops && s.ops[p].serial.Some? && IdOf(s.ops[p]) == IdOf(s.ops[o])
            && (d.allocs - (s.ops[p].serial.value + 1) < ID_SPACE ==> p == o))
  }

  ghost predicate DeliveriesOk(s: State, o: nat)
    requires o in s.ops
  {
    && (forall i :: 0 <= i < |s.ops[o].chan| ==> Matches(s, o, s.ops[o].chan[i]))
    && (GotReply(s.ops[o]) ==> Matches(s, o, s.ops[o].pc.outcome.delivery))
  }

  ghost predicate ActorOk(s: State, a: nat)
    requires a in s.actors
  {
    match s.actors[a]
    case Reader(pkt) =>
      pkt.origin.Some? ==>
        && pkt.origin.value in s.ops && s.ops[pkt.origin.value].serial.Some?
        && pkt.id == IdOf(s.ops[pkt.origin.value])
    case Timer(o) => o in s.ops && s.ops[o].serial.Some?
    case Sending(o, d) => o in s.ops && s.ops[o].serial.Some? && s.ops[o].holder == Some(a) && Matches(s, o, d)
  }

  ghost predicate EntryOk(s: State, id: nat)
    requires id in s.core.listeners
  {
    var o := s.core.listeners[id];
    o in s.ops && s.ops[o].serial.Some? && IdOf(s.ops[o]) == id
  }

  /** Two operations have different serial numbers, and if the second is listed and has
      the first one's ID, it is the later one. */
  ghost predicate SerialsOk(s: State, o: nat, p: nat)
    requires o in s.ops && p in s.ops
  {
    && (s.ops[o].serial.Some? && s.ops[o].serial == s.ops[p].serial ==> o == p)
    && (s.ops[o].serial.Some? && Listed(s, p) && IdOf(s.ops[o]) == IdOf(s.ops[p]) ==>
          s.ops[o].serial.value <= s.ops[p].serial.value)
  }

  ghost predicate CoreOk(s: State) {
    && s.core.nextID == s.allocs % ID_SPACE
    && (s.closer.Sweeping? ==> s.core.closed && s.closer.remaining <= s.core.listeners.Keys)
  }

  ghost predicate AllEntries(s: State) {
    forall id :: id in s.core.listeners ==> EntryOk(s, id)
  }

  ghost predicate AllSerials(s: State) {
    forall o, p :: o in s.ops && p in s.ops ==> SerialsOk(s, o, p)
  }

  ghost predicate AllOps(s: State) {
    forall o :: o in s.ops ==> OpOk(s, o)
  }

  ghost predicate AllDeliveries(s: State) {
    forall o :: o in s.ops ==> DeliveriesOk(s, o)
  }

  ghost predicate AllActors(s: State) {
    forall a :: a in s.actors ==> ActorOk(s, a)
  }

  ghost predicate Inv(s: State) {
    CoreOk(s) && AllEntries(s) && AllSerials(s) && AllOps(s) && AllDeliveries(s) && AllActors(s)
  }

  // ------------------------------------------------- preservation, op by op

  lemma RegisterOp(s: State, x: nat, o: nat)
    requires Enabled(s, Register(x)) && CoreOk(s) && o in s.ops && OpOk(s, o) && OpOk(s, x)
    ensures o in DoRegister(s, x).ops && OpOk(DoRegister(s, x), o)
  {
  }

  /** Changing only program counters, short of delivering, keeps the accounting. */
  lemma PcOp(s: State, t: State, x: nat, o: nat)
    requires o in s.ops && x in s.ops && OpOk(s, o) && OpOk(s, x)
    requires t.core == s.core && t.closer == s.closer && t.actors == s.actors && t.allocs == s.allocs
    requires x in t.ops && t.ops == s.ops[x := s.ops[x].(pc := t.ops[x].pc)]
    requires !GotReply(s.ops[x]) && !GotReply(t.ops[x])
    requires t.ops[x].pc in {Writing, Written, Returned(Failed)}
    requires s.ops[x].serial.None? ==> t.ops[x].pc == Returned(Failed)
    ensures OpOk(t, o)
  {
  }

  lemma StartTimerOp(s: State, x: nat, a: nat, o: nat)
    requires Enabled(s, StartTimer(x, a)) && o in s.ops && OpOk(s, o) && OpOk(s, x)
    ensures OpOk(Apply(s, StartTimer(x, a)), o)
  {
  }

  lemma ReceiveOp(s: State, x: nat, o: nat)
    requires Enabled(s, Receive(x)) && o in s.ops && OpOk(s, o) && OpOk(s, x)
    ensures OpOk(Apply(s, Receive(x)), o)
  {
  }

  lemma ArriveOp(s: State, a: nat, pkt: Packet, o: nat)
    requires Enabled(s, Arrive(a, pkt)) && o in s.ops && OpOk(s, o)
    ensures OpOk(Apply(s, Arrive(a, pkt)), o)
  {
  }

  lemma ExtractOp(s: State, a: nat, o: nat)
    requires Enabled(s, Extract(a)) && o in s.ops && OpOk(s, o)
    requires var id := Wanted(s, a).0; id in s.core.listeners ==> EntryOk(s, id) && OpOk(s, s.core.listeners[id])
    ensures o in DoExtract(s, a).ops && OpOk(DoExtract(s, a), o)
  {
  }

  lemma SendOp(s: State, a: nat, o: nat)
    requires Enabled(s, Send(a)) && o in s.ops && OpOk(s, o) && ActorOk(s, a)
    requires OpOk(s, s.actors[a].op)
    ensures OpOk(Apply(s, Send(a)), o)
  {
  }

  lemma CloseMapOp(s: State, o: nat)
    requires Enabled(s, CloseMap) && o in s.ops && OpOk(s, o)
    ensures OpOk(Apply(s, CloseMap), o)
  {
  }

  lemma CloseSendOp(s: State, id: nat, o: nat)
    requires Enabled(s, CloseSend(id)) && CoreOk(s) && o in s.ops && OpOk(s, o) && EntryOk(s, id)
    requires OpOk(s, s.core.listeners[id])
    ensures OpOk(Apply(s, CloseSend(id)), o)
  {
  }

  lemma CloseDoneOp(s: State, o: nat)
    requires Enabled(s, CloseDone) && CoreOk(s) && o in s.ops && OpOk(s, o)
    ensures OpOk(Apply(s, CloseDone), o)
  {
  }

  /** The accounting of one operation survives every step. */
  lemma OpStep(s: State, step: Step, o: nat)
    requires Inv(s) && Enabled(s, step) && o in Apply(s, step).ops
    ensures OpOk(Apply(s, step), o)
  {
    match step
    case Begin(x) => BeginOp(s, x, o);
    case Register(x) => RegisterOp(s, x, o);
    case CollideReturn(x) => CallerOp(s, step, o);
    case WriteBegin(x) => CallerOp(s, step, o);
    case WriteEnd(x, ok) => CallerOp(s, step, o);
    case StartTimer(x, a) => CallerOp(s, step, o);
    case Receive(x) => CallerOp(s, step, o);
    case Arrive(a, pkt) => ActorsOp(s, step, o);
    case Extract(a) => ActorsOp(s, step, o);
    case Send(a) => ActorsOp(s, step, o);
    case CloseLock => CloserOp(s, step, o);
    case CloseMap => CloserOp(s, step, o);
    case CloseSend(id) => CloserOp(s, step, o);
    case CloseDone => CloserOp(s, step, o);
  }

  /** Steps of a call of DoOperation after its registration. */
  lemma CallerOp(s: State, step: Step, o: nat)
    requires AllOps(s) && Enabled(s, step) && o in s.ops
    requires step.CollideReturn? || step.WriteBegin? || step.WriteEnd? || step.StartTimer? || step.Receive?
    ensures o in Apply(s, step).ops && OpOk(Apply(s, step), o)
  {
    match step
    case CollideReturn(x) => PcOp(s, Apply(s, step), x, o);
    case WriteBegin(x) => PcOp(s, Apply(s, step), x, o);
    case WriteEnd(x, ok) => PcOp(s, Apply(s, step), x, o);
    case StartTimer(x, a) => StartTimerOp(s, x, a, o);
    case Receive(x) => ReceiveOp(s, x, o);
  }

  /** Steps of readers and timers. */
  lemma ActorsOp(s: State, step: Step, o: nat)
    requires Inv(s) && Enabled(s, step) && o in s.ops && (step.Arrive? || step.Extract? || step.Send?)
    ensures o in Apply(s, step).ops && OpOk(Apply(s, step), o)
  {
    match step
    case Arrive(a, pkt) => ArriveOp(s, a, pkt, o);
    case Extract(a) => ExtractOp(s, a, o);
    case Send(a) => SendOp(s, a, o);
  }

  /** Steps of Close. */
  lemma CloserOp(s: State, step: Step, o: nat)
    requires Inv(s) && Enabled(s, step) && o in s.ops
    requires step.CloseLock? || step.CloseMap? || step.CloseSend? || step.CloseDone?
    ensures o in Apply(s, step).ops && OpOk(Apply(s, step), o)
  {
    match step
    case CloseLock =>
    case CloseMap => CloseMapOp(s, o);
    case CloseSend(id) => CloseSendOp(s, id, o);
    case CloseDone => CloseDoneOp(s, o);
  }

  lemma BeginOp(s: State, x: nat, o: nat)
    requires Enabled(s, Begin(x)) && (o in s.ops ==> OpOk(s, o)) && o in Apply(s, Begin(x)).ops
    ensures OpOk(Apply(s, Begin(x)), o)
  {
  }

  // ------------------------------------------- serial numbers and map entries

  /** A serial number once given stays. */
  ghost predicate Kept(s: State, t: State, o: nat)
    requires o in s.ops
  {
    o in t.ops && (s.ops[o].serial.Some? ==> t.ops[o].serial == s.ops[o].serial)
  }

  lemma StepKeepsSerial(s: State, step: Step, o: nat)
    requires Enabled(s, step) && o in s.ops && OpOk(s, o)
    ensures Kept(s, Apply(s, step), o)
  {
  }

  lemma RegisterSerials(s: State, x: nat, o: nat, p: nat)
    requires Enabled(s, Register(x)) && CoreOk(s) && o in s.ops && p in s.ops
    requires OpOk(s, o) && OpOk(s, p) && OpOk(s, x) && SerialsOk(s, o, p)
    ensures o in DoRegister(s, x).ops && p in DoRegister(s, x).ops && SerialsOk(DoRegister(s, x), o, p)
  {
  }

  lemma BeginSerials(s: State, x: nat, o: nat, p: nat)
    requires Enabled(s, Begin(x)) && o in Apply(s, Begin(x)).ops && p in Apply(s, Begin(x)).ops
    requires o in s.ops && p in s.ops ==> SerialsOk(s, o, p)
    ensures SerialsOk(Apply(s, Begin(x)), o, p)
  {
  }

  lemma OtherSerials(s: State, step: Step, o: nat, p: nat)
    requires Enabled(s, step) && !step.Begin? && !step.Register? && o in s.ops && p in s.ops && SerialsOk(s, o, p)
    ensures var t := Apply(s, step); o in t.ops && p in t.ops && SerialsOk(t, o, p)
  {
    OtherListed(s, step, p);
    OtherSerial(s, step, o);
    OtherSerial(s, step, p);
  }

  /** Only Register and Begin touch serial numbers, and nothing else lists an operation. */
  lemma OtherSerial(s: State, step: Step, o: nat)
    requires Enabled(s, step) && !step.Begin? && !step.Register? && o in s.ops
    ensures var t := Apply(s, step); o in t.ops && t.ops[o].serial == s.ops[o].serial
  {
  }

  lemma OtherListed(s: State, step: Step, p: nat)
    requires Enabled(s, step) && !step.Begin? && !step.Register? && p in s.ops
    ensures Listed(Apply(s, step), p) ==> Listed(s, p)
  {
    OtherSerial(s, step, p);
  }

  lemma SerialStep(s: State, step: Step, o: nat, p: nat)
    requires Inv(s) && Enabled(s, step) && o in Apply(s, step).ops && p in Apply(s, step).ops
    ensures SerialsOk(Apply(s, step), o, p)
  {
    match step
    case Begin(x) => BeginSerials(s, x, o, p);
    case Register(x) => RegisterSerials(s, x, o, p);
    case _ =>
      SameOps(s, step);
      OtherSerials(s, step, o, p);
  }

  lemma SameOps(s: State, step: Step)
    requires Enabled(s, step) && !step.Begin?
    ensures Apply(s, step).ops.Keys == s.ops.Keys
  {
  }

  lemma EntryStep(s: State, step: Step, id: nat)
    requires Enabled(s, step) && CoreOk(s) && id in Apply(s, step).core.listeners
    requires id in s.core.listeners ==> EntryOk(s, id) && OpOk(s, s.core.listeners[id])
    requires step.Register? ==> OpOk(s, step.o)
    ensures EntryOk(Apply(s, step), id)
  {
    if id in s.core.listeners && Apply(s, step).core.listeners[id] == s.core.listeners[id] {
      StepKeepsSerial(s, step, s.core.listeners[id]);
    }
  }

  lemma CoreStep(s: State, step: Step)
    requires CoreOk(s) && Enabled(s, step)
    ensures CoreOk(Apply(s, step))
  {
  }

  // ------------------------------------------------- deliveries and actors

  lemma MatchesKept(s: State, t: State, o: nat, d: Delivery)
    requires Matches(s, o, d)
    requires o in s.ops ==> Kept(s, t, o)
    requires OriginOf(d).Some? && OriginOf(d).value in s.ops ==> Kept(s, t, OriginOf(d).value)
    ensures Matches(t, o, d)
  {
  }

  lemma StepMatches(s: State, step: Step, o: nat, d: Delivery)
    requires AllOps(s) && Enabled(s, step) && Matches(s, o, d)
    ensures Matches(Apply(s, step), o, d)
  {
    if o in s.ops {
      StepKeepsSerial(s, step, o);
    }
    if OriginOf(d).Some? && OriginOf(d).value in s.ops {
      StepKeepsSerial(s, step, OriginOf(d).value);
    }
    MatchesKept(s, Apply(s, step), o, d);
  }

  /** The heart of the matter: a packet found under its ID goes to the operation it
      answers, if that operation's allocation is less than 2^32 allocations back. */
  lemma FoundMatches(s: State, a: nat)
    requires Inv(s) && Enabled(s, Extract(a))
    requires Wanted(s, a).0 in s.core.listeners
    ensures Matches(s, s.core.listeners[Wanted(s, a).0], Wanted(s, a).1)
  {
    var (id, d) := Wanted(s, a);
    var o := s.core.listeners[id];
    assert EntryOk(s, id) && OpOk(s, o) && ActorOk(s, a);
    if OriginOf(d).Some? {
      var p := OriginOf(d).value;
      assert OpOk(s, p) && SerialsOk(s, p, o) && Listed(s, o);
      if d.allocs - (s.ops[p].serial.value + 1) < ID_SPACE {
        SameResidue(s.ops[p].serial.value, s.ops[o].serial.value);
      }
    }
  }

  lemma SameResidue(j: nat, k: nat)
    requires j <= k && j % ID_SPACE == k % ID_SPACE && k - j < ID_SPACE
    ensures j == k
  {
  }

  /** What a step newly puts on a channel or returns matches its operation. */
  lemma DeliveryStep(s: State, step: Step, o: nat)
    requires Inv(s) && Enabled(s, step) && o in Apply(s, step).ops
    ensures DeliveriesOk(Apply(s, step), o)
  {
    var t := Apply(s, step);
    forall i | 0 <= i < |t.ops[o].chan| ensures Matches(t, o, t.ops[o].chan[i]) {
      NewOnChannel(s, step, o, i);
      if Matches(s, o, t.ops[o].chan[i]) {
        StepMatches(s, step, o, t.ops[o].chan[i]);
      }
    }
    if GotReply(t.ops[o]) {
      NewlyReturned(s, step, o);
      StepMatches(s, step, o, t.ops[o].pc.outcome.delivery);
    }
  }

  lemma NewOnChannel(s: State, step: Step, o: nat, i: nat)
    requires Enabled(s, step) && o in Apply(s, step).ops && i < |Apply(s, step).ops[o].chan|
    requires o in s.ops ==> DeliveriesOk(s, o)
    requires step.Send? ==> ActorOk(s, step.a)
    ensures Matches(s, o, Apply(s, step).ops[o].chan[i])
  {
  }

  lemma NewlyReturned(s: State, step: Step, o: nat)
    requires Enabled(s, step) && o in Apply(s, step).ops && GotReply(Apply(s, step).ops[o])
    requires o in s.ops ==> DeliveriesOk(s, o)
    ensures Matches(s, o, Apply(s, step).ops[o].pc.outcome.delivery)
  {
  }

  /** An actor that a step leaves alone is still sound. */
  lemma ActorFrame(s: State, step: Step, a: nat)
    requires Enabled(s, step) && AllOps(s) && a in s.actors && ActorOk(s, a)
    requires a in Apply(s, step).actors && Apply(s, step).actors[a] == s.actors[a]
    requires HolderKept(s, step, a)
    ensures ActorOk(Apply(s, step), a)
  {
    match s.actors[a]
    case Reader(pkt) =>
      if pkt.origin.Some? {
        StepKeepsSerial(s, step, pkt.origin.value);
      }
    case Timer(o) =>
      StepKeepsSerial(s, step, o);
    case Sending(o, d) =>
      StepKeepsSerial(s, step, o);
      StepMatches(s, step, o, d);
  }

  ghost predicate HolderKept(s: State, step: Step, a: nat)
    requires Enabled(s, step) && a in s.actors
  {
    s.actors[a].Sending? && s.actors[a].op in s.ops && s.ops[s.actors[a].op].holder == Some(a) ==>
      var o := s.actors[a].op;
      o in Apply(s, step).ops && Apply(s, step).ops[o].holder == Some(a)
  }

  /** A channel has one holder, so no step takes it from a goroutine about to send. */
  lemma HolderStep(s: State, step: Step, a: nat)
    requires Inv(s) && Enabled(s, step) && a in s.actors
    requires a in Apply(s, step).actors && Apply(s, step).actors[a] == s.actors[a]
    ensures HolderKept(s, step, a)
  {
    assert ActorOk(s, a);
    if s.actors[a].Sending? {
      assert OpOk(s, s.actors[a].op);
      if step.Extract? && Wanted(s, step.a).0 in s.core.listeners {
        assert EntryOk(s, Wanted(s, step.a).0);
      } else if step.Send? {
        assert ActorOk(s, step.a);
      } else if step.CloseSend? {
        assert EntryOk(s, step.id);
      }
      HeldStays(s, step, a);
    }
  }

  lemma HeldStays(s: State, step: Step, a: nat)
    requires Enabled(s, step) && a in s.actors && s.actors[a].Sending? && ActorOk(s, a) && OpOk(s, s.actors[a].op)
    requires a in Apply(s, step).actors && Apply(s, step).actors[a] == s.actors[a]
    requires step.Extract? && Wanted(s, step.a).0 in s.core.listeners ==> EntryOk(s, Wanted(s, step.a).0)
    requires step.Send? ==> ActorOk(s, step.a)
    requires step.CloseSend? ==> EntryOk(s, step.id)
    ensures HolderKept(s, step, a)
  {
  }

  lemma ActorStep(s: State, step: Step, a: nat)
    requires Inv(s) && Enabled(s, step) && a in Apply(s, step).actors
    ensures ActorOk(Apply(s, step), a)
  {
    var t := Apply(s, step);
    if a in s.actors && t.actors[a] == s.actors[a] {
      HolderStep(s, step, a);
      ActorFrame(s, step, a);
    } else if step.Extract? {
      FoundMatches(s, a);
      var o := s.core.listeners[Wanted(s, a).0];
      assert EntryOk(s, Wanted(s, a).0);
      StepKeepsSerial(s, step, o);
      StepMatches(s, step, o, Wanted(s, a).1);
    } else {
      NewActor(s, step, a);
    }
  }

  lemma NewActor(s: State, step: Step, a: nat)
    requires Enabled(s, step) && AllOps(s) && a in Apply(s, step).actors && !step.Extract?
    requires !(a in s.actors && Apply(s, step).actors[a] == s.actors[a])
    ensures ActorOk(Apply(s, step), a)
  {
    if step.StartTimer? {
      assert OpOk(s, step.o);
    }
  }

  // ---------------------------------------------------------------- every run

  lemma StepKeepsInv(s: State, step: Step)
    requires Inv(s) && Enabled(s, step)
    ensures Inv(Apply(s, step))
  {
    var t := Apply(s, step);
    CoreStep(s, step);
    forall id | id in t.core.listeners ensures EntryOk(t, id) {
      EntryStep(s, step, id);
    }
    forall o, p | o in t.ops && p in t.ops ensures SerialsOk(t, o, p) {
      SerialStep(s, step, o, p);
    }
    forall o | o in t.ops ensures OpOk(t, o) && DeliveriesOk(t, o) {
      OpStep(s, step, o);
      DeliveryStep(s, step, o);
    }
    forall a | a in t.actors ensures ActorOk(t, a) {
      ActorStep(s, step, a);
    }
  }

  lemma {:induction false} RunKeepsInv(steps: seq<Step>)
    requires Exec(steps).Some?
    ensures Inv(Exec(steps).value)
  {
    if steps != [] {
      RunKeepsInv(steps[..|steps| - 1]);
      StepKeepsInv(Exec(steps[..|steps| - 1]).value, steps[|steps| - 1]);
    }
  }

  /** In every run a response channel is sent at most one value, so a goroutine about to
      send never blocks, and neither does Close while it holds both mutexes. */
  lemma NoSenderBlocks(steps: seq<Step>)
    requires Exec(steps).Some?
    ensures var s := Exec(steps).value;
            && (forall o :: o in s.ops ==> s.ops[o].sends <= 1 && |s.ops[o].chan| <= 1)
            && (forall a :: a in s.actors && s.actors[a].Sending? ==> Enabled(s, Send(a)))
            && (s.closer.Sweeping? ==> forall id :: id in s.closer.remaining ==> Enabled(s, CloseSend(id)))
  {
    RunKeepsInv(steps);
    var s := Exec(steps).value;
    forall o | o in s.ops ensures s.ops[o].sends <= 1 && |s.ops[o].chan| <= 1 {
      assert OpOk(s, o);
    }
    forall a | a in s.actors && s.actors[a].Sending? ensures Enabled(s, Send(a)) {
      assert ActorOk(s, a) && OpOk(s, s.actors[a].op);
    }
    if s.closer.Sweeping? {
      forall id | id in s.closer.remaining ensures Enabled(s, CloseSend(id)) {
        assert EntryOk(s, id) && OpOk(s, s.core.listeners[id]);
      }
    }
  }

  /** In every run, an operation waiting for its result has it, or a goroutine is about to
      send it, or Close is about to, or the connection is open with its entry still in the
      map and its own timer pending. */
  lemma NoWaiterStranded(steps: seq<Step>, o: nat)
    requires Exec(steps).Some? && At(Exec(steps).value, o, Waiting)
    ensures var s := Exec(steps).value; var op := s.ops[o];
            || Enabled(s, Receive(o))
            || (op.holder.Some? && HeldBy(s, o, op.holder.value) && Enabled(s, Send(op.holder.value)))
            || (Listed(s, o) && s.closer.Sweeping? && Enabled(s, CloseSend(IdOf(op))))
            || (Listed(s, o) && !s.core.closed && op.timer.Some? && op.timer.value in s.actors
                && s.actors[op.timer.value] == Timer(o) && Enabled(s, Extract(op.timer.value))
                && HeldBy(Apply(s, Extract(op.timer.value)), o, op.timer.value))
  {
    RunKeepsInv(steps);
    NoSenderBlocks(steps);
    var s := Exec(steps).value;
    assert OpOk(s, o);
  }

  /** In every run, what an operation returns was meant for it: a reply carries its ID, and
      a reply to a request or the error of a timer is that of its own request or timer,
      provided fewer than 2^32 IDs were allocated in between. */
  lemma RepliesMatch(steps: seq<Step>, o: nat)
    requires Exec(steps).Some? && o in Exec(steps).value.ops
    ensures var s := Exec(steps).value;
            GotReply(s.ops[o]) && !s.ops[o].pc.outcome.delivery.Nil? ==>
              var d := s.ops[o].pc.outcome.delivery;
              && s.ops[o].serial.Some?
              && (d.Reply? ==> d.pkt.id == IdOf(s.ops[o]))
              && (OriginOf(d).Some? ==>
                    var p := OriginOf(d).value;
                    && p in s.ops && s.ops[p].serial.Some?
                    && (d.allocs - (s.ops[p].serial.value + 1) < 0x1_0000_0000 ==> p == o))
  {
    RunKeepsInv(steps);
    assert DeliveriesOk(Exec(steps).value, o);
  }

  /** In every run, an entry's operation has the entry's ID, and two entries are of two
      operations. */
  lemma EntriesDistinct(steps: seq<Step>, i: nat, j: nat)
    requires Exec(steps).Some?
    requires var l := Exec(steps).value.core.listeners; i in l && j in l && i != j
    ensures var s := Exec(steps).value;
            EntryOk(s, i) && EntryOk(s, j) && s.core.listeners[i] != s.core.listeners[j]
  {
    RunKeepsInv(steps);
    var s := Exec(steps).value;
    assert EntryOk(s, i) && EntryOk(s, j);
  }

  // ------------------------------------------------------- the sections in place

  datatype CloseResult = ClosedNow | AlreadyClosed | Blocked(chan: nat)

  /** Conn: the fields that the sections under mapMtx update, and the one-slot buffers of
      the response channels. */
  class Conn {
    var closed: bool
    var nextID: nat
    var listeners: map<nat, nat>
    var channels: map<nat, seq<Delivery>>

    function View(): Core
      reads this
    {
      Core(closed, nextID, listeners)
    }

    /** Every entry's channel exists. */
    ghost predicate Valid()
      reads this
    {
      forall id :: id in listeners ==> listeners[id] in channels
    }

    constructor ()
      ensures View() == INIT.core && channels == map[] && Valid()
    {
      closed, nextID, listeners, channels := false, 0, map[], map[];
    }

    /** DoOperation up to the release of mapMtx, with a new channel. */
    method Register(chan: nat) returns (r: Registration)
      requires Valid() && chan !in channels
      modifies this
      ensures Valid()
      ensures (View(), r) == RegisterCore(old(View()), chan)
      ensures channels == old(channels)[chan := []] && closed == old(closed)
      ensures r == RefusedClosed <==> old(closed)
      ensures r == Collision(old(nextID)) <==> !old(closed) && old(nextID) in old(listeners)
      ensures nextID == if old(closed) then old(nextID) else (old(nextID) + 1) % 0x1_0000_0000
      ensures listeners == if r == Allocated(old(nextID)) then old(listeners)[old(nextID) := chan] else old(listeners)
    {
      channels := channels[chan := []];
      if closed {
        return RefusedClosed;
      }
      var id := nextID;
      nextID := (nextID + 1) % ID_SPACE;
      if id in listeners {
        return Collision(id);
      }
      listeners := listeners[id := chan];
      return Allocated(id);
    }

    /** extractChannel. */
    method ExtractChannel(id: nat) returns (chan: Option<nat>)
      requires Valid()
      modifies this`listeners
      ensures Valid()
      ensures (View(), chan) == ExtractCore(old(View()), id)
      ensures chan == if !closed && id in old(listeners) then Some(old(listeners)[id]) else None
      ensures listeners == if closed then old(listeners) else old(listeners) - {id}
    {
      if closed {
        return None;
      }
      var found := id in listeners;
      chan := if found then Some(listeners[id]) else None;
      assert !found ==> listeners - {id} == listeners;
      listeners := listeners - {id};
    }

    /** Close: every listener's channel is sent nil. The sweep gets through exactly when
        all those channels are empty and different, and then each holds just nil; if not,
        it is stuck at a full channel. */
    method Close() returns (r: CloseResult)
      requires Valid()
      modifies this`closed, this`channels
      ensures Valid() && closed
      ensures r == AlreadyClosed <==> old(closed)
      ensures old(closed) ==> channels == old(channels)
      ensures !old(closed) && Sweepable(listeners, old(channels)) ==>
                && r == ClosedNow
                && channels.Keys == old(channels).Keys
                && forall c :: c in channels ==> channels[c] == if Lists(listeners, c) then [Nil] else old(channels)[c]
      ensures !old(closed) && !Sweepable(listeners, old(channels)) ==> r.Blocked?
    {
      if closed {
        return AlreadyClosed;
      }
      closed := true;
      var todo := listeners.Keys;
      ghost var done: set<nat> := {};
      while todo != {}
        invariant todo + done == listeners.Keys && todo !! done
        invariant channels.Keys == old(channels).Keys && Valid() && closed
        invariant forall i :: i in done ==> old(channels)[listeners[i]] == []
        invariant forall i, j :: i in done && j in done && i != j ==> listeners[i] != listeners[j]
        invariant forall c :: c in channels ==>
                    channels[c] == if Notified(listeners, done, c) then [Nil] else old(channels)[c]
        decreases todo
      {
        var id :| id in todo;
        var l := listeners[id];
        if |channels[l]| >= 1 {
          assert !Sweepable(listeners, old(channels));
          return Blocked(l);
        }
        channels := channels[l := channels[l] + [Nil]];
        todo := todo - {id};
        done := done + {id};
      }
      assert forall i :: i in listeners ==> i in done;
      assert Sweepable(listeners, old(channels));
      assert forall c :: Notified(listeners, done, c) <==> Lists(listeners, c);
      return ClosedNow;
    }
  }

  ghost predicate Lists(listeners: map<nat, nat>, c: nat) {
    exists i :: i in listeners && listeners[i] == c
  }

  ghost predicate Notified(listeners: map<nat, nat>, done: set<nat>, c: nat) {
    exists i :: i in done && i in listeners && listeners[i] == c
  }

  /** All listed channels are empty and no two entries share one. */
  ghost predicate Sweepable(listeners: map<nat, nat>, channels: map<nat, seq<Delivery>>)
    requires forall id :: id in listeners ==> listeners[id] in channels
  {
    && (forall i :: i in listeners ==> channels[listeners[i]] == [])
    && (forall i, j :: i in listeners && j in listeners && i != j ==> listeners[i] != listeners[j])
  }

  /** The channel buffers of a state. */
  function Buffers(s: State): map<nat, seq<Delivery>> {
    map o | o in s.ops :: s.ops[o].chan
  }

  /** In every run of an open connection, Close would get through. */
  lemma CloseNeverStuck(steps: seq<Step>)
    requires Exec(steps).Some? && !Exec(steps).value.core.closed
    ensures var s := Exec(steps).value;
            && (forall id :: id in s.core.listeners ==> s.core.listeners[id] in Buffers(s))
            && Sweepable(s.core.listeners, Buffers(s))
  {
    RunKeepsInv(steps);
    var s := Exec(steps).value;
    forall i | i in s.core.listeners
      ensures s.core.listeners[i] in s.ops && s.ops[s.core.listeners[i]].chan == []
    {
      assert EntryOk(s, i) && OpOk(s, s.core.listeners[i]);
    }
    forall i, j | i in s.core.listeners && j in s.core.listeners && i != j
      ensures s.core.listeners[i] != s.core.listeners[j]
    {
      EntriesDistinct(steps, i, j);
    }
  }
}
