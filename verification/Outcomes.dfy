/** Where the result of a call of DoOperation comes from (conn/conn.go): which steps of a
    run stand behind each outcome. */
module Outcomes {
  import opened Wrappers
  import opened Multiplexer

  /** A reader brought the packet. */
  ghost predicate Arrived(steps: seq<Step>, pkt: Packet) {
    exists a :: Arrive(a, pkt) in steps
  }

  /** The operation started its timer, having written its request. */
  ghost predicate Started(steps: seq<Step>, o: nat) {
    exists a :: StartTimer(o, a) in steps
  }

  /** What stands behind a delivery. */
  ghost predicate Sound(steps: seq<Step>, s: State, d: Delivery) {
    match d
    case Nil => s.core.closed
    case TimedOut(p, _) => Started(steps, p)
    case Reply(pkt, _) => Arrived(steps, pkt)
  }

  ghost predicate ActorTraced(steps: seq<Step>, s: State, a: nat)
    requires a in s.actors
  {
    match s.actors[a]
    case Reader(pkt) => Arrived(steps, pkt)
    case Timer(o) => Started(steps, o)
    case Sending(_, d) => Sound(steps, s, d)
  }

  ghost predicate OpTraced(steps: seq<Step>, s: State, o: nat)
    requires o in s.ops
  {
    && (forall i :: 0 <= i < |s.ops[o].chan| ==> Sound(steps, s, s.ops[o].chan[i]))
    && (GotReply(s.ops[o]) ==> Sound(steps, s, s.ops[o].pc.outcome.delivery))
    && (s.ops[o].pc == Returned(Failed) ==> s.core.closed || WriteEnd(o, false) in steps)
  }

  ghost predicate Traced(steps: seq<Step>, s: State) {
    && (forall a :: a in s.actors ==> ActorTraced(steps, s, a))
    && (forall o :: o in s.ops ==> OpTraced(steps, s, o))
    && (s.core.closed ==> CloseMap in steps)
  }

  lemma ClosedStays(s: State, step: Step)
    requires Enabled(s, step)
    ensures s.core.closed ==> Apply(s, step).core.closed
    ensures !s.core.closed && Apply(s, step).core.closed ==> step == CloseMap
  {
  }

  lemma SoundStays(steps: seq<Step>, s: State, step: Step, d: Delivery)
    requires Enabled(s, step) && Sound(steps, s, d)
    ensures Sound(steps + [step], Apply(s, step), d)
  {
    ClosedStays(s, step);
    match d
    case Nil =>
    case TimedOut(p, _) =>
      var a :| StartTimer(p, a) in steps;
      assert StartTimer(p, a) in steps + [step];
    case Reply(pkt, _) =>
      var a :| Arrive(a, pkt) in steps;
      assert Arrive(a, pkt) in steps + [step];
  }

  /** What an actor has after a step it had before, or brings with the step, or found with
      what it was. */
  lemma ActorChange(s: State, step: Step, a: nat)
    requires Enabled(s, step) && a in Apply(s, step).actors
    ensures var x := Apply(s, step).actors[a];
            || (a in s.actors && s.actors[a] == x)
            || (x.Reader? && step == Arrive(a, x.pkt))
            || (x.Timer? && step == StartTimer(x.op, a))
            || (x.Sending? && step == Extract(a) && x.delivery == Wanted(s, a).1)
  {
  }

  lemma ActorStays(steps: seq<Step>, s: State, step: Step, a: nat)
    requires Enabled(s, step) && a in Apply(s, step).actors && (a in s.actors ==> ActorTraced(steps, s, a))
    ensures ActorTraced(steps + [step], Apply(s, step), a)
  {
    ActorChange(s, step, a);
    var t, all := Apply(s, step), steps + [step];
    if a in s.actors && s.actors[a] == t.actors[a] {
      match s.actors[a]
      case Reader(pkt) => SoundStays(steps, s, step, Reply(pkt, 0));
      case Timer(o) => SoundStays(steps, s, step, TimedOut(o, 0));
      case Sending(_, d) => SoundStays(steps, s, step, d);
    } else if step.Extract? {
      SoundStays(steps, s, step, Wanted(s, a).1);
    } else {
      assert step in all;
    }
  }

  /** What a channel or a returned call has after a step. */
  lemma ChannelChange(s: State, step: Step, o: nat, i: nat)
    requires Enabled(s, step) && o in Apply(s, step).ops && i < |Apply(s, step).ops[o].chan|
    ensures var d := Apply(s, step).ops[o].chan[i];
            || (o in s.ops && d in s.ops[o].chan)
            || (step.Send? && s.actors[step.a].delivery == d)
            || (step.CloseSend? && d == Nil)
  {
  }

  lemma ReturnChange(s: State, step: Step, o: nat)
    requires Enabled(s, step) && o in Apply(s, step).ops && Apply(s, step).ops[o].pc.Returned?
    ensures var r := Apply(s, step).ops[o].pc;
            || (o in s.ops && s.ops[o].pc == r)
            || (step == Receive(o) && s.ops[o].chan != [] && r == Returned(Got(s.ops[o].chan[0])))
            || (r == Returned(Failed) && (s.core.closed || step == WriteEnd(o, false)))
  {
  }

  lemma ChannelStays(steps: seq<Step>, s: State, step: Step, o: nat, i: nat)
    requires Traced(steps, s) && CoreOk(s) && Enabled(s, step) && o in Apply(s, step).ops && i < |Apply(s, step).ops[o].chan|
    ensures Sound(steps + [step], Apply(s, step), Apply(s, step).ops[o].chan[i])
  {
    ChannelChange(s, step, o, i);
    var d := Apply(s, step).ops[o].chan[i];
    if o in s.ops && d in s.ops[o].chan {
      assert OpTraced(steps, s, o);
    } else if step.Send? {
      assert ActorTraced(steps, s, step.a);
    }
    SoundStays(steps, s, step, d);
  }

  lemma OpStays(steps: seq<Step>, s: State, step: Step, o: nat)
    requires Traced(steps, s) && CoreOk(s) && Enabled(s, step) && o in Apply(s, step).ops
    ensures OpTraced(steps + [step], Apply(s, step), o)
  {
    var t := Apply(s, step);
    ClosedStays(s, step);
    forall i | 0 <= i < |t.ops[o].chan| ensures Sound(steps + [step], t, t.ops[o].chan[i]) {
      ChannelStays(steps, s, step, o, i);
    }
    if t.ops[o].pc.Returned? {
      ReturnChange(s, step, o);
      if o in s.ops {
        assert OpTraced(steps, s, o);
      }
      if GotReply(t.ops[o]) {
        SoundStays(steps, s, step, t.ops[o].pc.outcome.delivery);
      }
    }
  }

  lemma {:induction false} RunTraced(steps: seq<Step>)
    requires Exec(steps).Some?
    ensures Traced(steps, Exec(steps).value)
  {
    if steps != [] {
      var before, last := steps[..|steps| - 1], steps[|steps| - 1];
      RunTraced(before);
      RunKeepsInv(before);
      var s, t := Exec(before).value, Exec(steps).value;
      assert steps == before + [last];
      forall a | a in t.actors ensures ActorTraced(steps, t, a) {
        ActorStays(before, s, last, a);
      }
      forall o | o in t.ops ensures OpTraced(steps, t, o) {
        OpStays(before, s, last, o);
      }
      ClosedStays(s, last);
    }
  }

  /** In every run: an operation that returns a reply returns a packet that a reader took
      off the connection; one that returns a timeout does so through a timer that was
      started; one that returns the closing error, or fails otherwise, does so because the
      connection was closed or its write failed. */
  lemma OutcomesHaveCauses(steps: seq<Step>, o: nat)
    requires Exec(steps).Some? && o in Exec(steps).value.ops && Exec(steps).value.ops[o].pc.Returned?
    ensures match Exec(steps).value.ops[o].pc.outcome
            case Got(Reply(pkt, _)) => exists a :: Arrive(a, pkt) in steps
            case Got(TimedOut(p, _)) => exists a :: StartTimer(p, a) in steps
            case Got(Nil) => CloseMap in steps
            case Failed => CloseMap in steps || WriteEnd(o, false) in steps
  {
    RunTraced(steps);
    assert OpTraced(steps, Exec(steps).value, o);
  }

  /** A call whose write has failed has returned the failure, and one whose write has gone
      through waits or has got a delivery. */
  lemma {:induction false} WriteDecides(steps: seq<Step>, o: nat)
    requires Exec(steps).Some?
    ensures var s := Exec(steps).value;
            && (WriteEnd(o, false) in steps ==> At(s, o, Returned(Failed)))
            && (WriteEnd(o, true) in steps ==>
                  o in s.ops && (s.ops[o].pc in {Written, Waiting} || GotReply(s.ops[o])))
  {
    if steps != [] {
      var before, last := steps[..|steps| - 1], steps[|steps| - 1];
      WriteDecides(before, o);
      WriteStays(Exec(before).value, last, o);
      assert steps == before + [last];
    }
  }

  lemma WriteStays(s: State, step: Step, o: nat)
    requires Enabled(s, step)
    ensures var t := Apply(s, step);
            && (At(s, o, Returned(Failed)) || step == WriteEnd(o, false) ==> At(t, o, Returned(Failed)))
            && ((o in s.ops && (s.ops[o].pc in {Written, Waiting} || GotReply(s.ops[o]))) || step == WriteEnd(o, true) ==>
                  o in t.ops && (t.ops[o].pc in {Written, Waiting} || GotReply(t.ops[o])))
  {
  }

  // ------------------------------------------------------------------- progress

  /** How far a call of DoOperation is from returning. */
  function Rank(pc: Pc): nat {
    match pc
    case Start => 5
    case Registered => 4
    case Writing => 3
    case Written => 2
    case Waiting => 1
    case Collided => 1
    case Returned(_) => 0
  }

  /** The steps of the call itself. */
  predicate OwnCall(step: Step, o: nat) {
    || step == Register(o) || step == CollideReturn(o) || step == WriteBegin(o) || step == WriteEnd(o, true)
    || step == WriteEnd(o, false) || step == Receive(o) || (step.StartTimer? && step.o == o)
  }

  /** A call goes forward with each of its own steps, and stands still with every other. */
  lemma CallMoves(s: State, step: Step, o: nat)
    requires Enabled(s, step) && o in s.ops
    ensures var t := Apply(s, step);
            && o in t.ops
            && (OwnCall(step, o) ==> Rank(t.ops[o].pc) < Rank(s.ops[o].pc))
            && (!OwnCall(step, o) ==> t.ops[o].pc == s.ops[o].pc)
  {
    match step
    case Begin(_) =>
    case Register(_) =>
    case CollideReturn(_) =>
    case WriteBegin(_) =>
    case WriteEnd(_, _) =>
    case StartTimer(_, _) =>
    case Receive(_) =>
    case Arrive(_, _) =>
    case Extract(_) =>
    case Send(_) =>
    case CloseLock =>
    case CloseMap =>
    case CloseSend(_) =>
    case CloseDone =>
  }

  /** On a closed connection a call that comes to register or to write returns at once. */
  lemma ClosedRefuses(s: State, o: nat)
    requires s.core.closed
    ensures Enabled(s, Register(o)) ==> At(Apply(s, Register(o)), o, Returned(Failed))
    ensures Enabled(s, WriteBegin(o)) ==> At(Apply(s, WriteBegin(o)), o, Returned(Failed))
  {
  }

  /** A call writes exactly while it holds the write mutex, and then the connection is
      open. */
  ghost predicate WriterOk(s: State) {
    && (forall o: nat :: At(s, o, Writing) <==> s.writer == Some(o))
    && (s.writer.Some? ==> !s.core.closed && s.closer.Idle?)
  }

  lemma WriterStep(s: State, step: Step)
    requires WriterOk(s) && Enabled(s, step)
    ensures WriterOk(Apply(s, step))
  {
    var t := Apply(s, step);
    forall o: nat ensures At(t, o, Writing) <==> t.writer == Some(o) {
      assert At(s, o, Writing) <==> s.writer == Some(o);
      if o in s.ops {
        CallMoves(s, step, o);
      }
    }
  }

  /** In every run at most one request is being written at a time, none of them on a closed
      connection. */
  lemma {:induction false} OneWriter(steps: seq<Step>, o: nat, p: nat)
    requires Exec(steps).Some?
    ensures var s := Exec(steps).value;
            && WriterOk(s)
            && (At(s, o, Writing) ==> !s.core.closed)
            && (At(s, o, Writing) && At(s, p, Writing) ==> o == p)
  {
    if steps != [] {
      OneWriter(steps[..|steps| - 1], o, p);
      WriterStep(Exec(steps[..|steps| - 1]).value, steps[|steps| - 1]);
    }
  }

  /** A reader or timer that looks its ID up goes on to send if the connection is open and
      the ID is listed, and ends otherwise; one that has sent ends. */
  lemma ActorsEnd(steps: seq<Step>, a: nat)
    requires Exec(steps).Some?
    ensures var s := Exec(steps).value;
            Enabled(s, Extract(a)) ==>
              var t := Apply(s, Extract(a));
              if !s.core.closed && Wanted(s, a).0 in s.core.listeners
              then a in t.actors && t.actors[a] == Sending(s.core.listeners[Wanted(s, a).0], Wanted(s, a).1)
              else a !in t.actors
    ensures var s := Exec(steps).value; Enabled(s, Send(a)) ==> a !in Apply(s, Send(a)).actors
  {
    RunKeepsInv(steps);
    var s := Exec(steps).value;
    if Enabled(s, Extract(a)) && Wanted(s, a).0 in s.core.listeners {
      assert EntryOk(s, Wanted(s, a).0);
    }
  }

  /** What the Close that holds the write mutex still has to do. */
  function ToClose(c: Closer): (nat, nat) {
    match c
    case Idle => (0, 0)
    case HasWrite => (1, 0)
    case Sweeping(remaining) => (0, 1 + |remaining|)
  }

  predicate CloseStep(step: Step) {
    step.CloseMap? || step.CloseSend? || step.CloseDone?
  }

  lemma CloseMoves(s: State, step: Step)
    requires Enabled(s, step) && !s.closer.Idle?
    ensures var x, y := ToClose(s.closer), ToClose(Apply(s, step).closer);
            && (CloseStep(step) ==> y.0 < x.0 || (y.0 == x.0 && y.1 < x.1))
            && (!CloseStep(step) ==> Apply(s, step).closer == s.closer)
  {
  }

  /** In every reachable state a Close that holds a mutex can take a step, each of its steps
      brings it nearer to releasing them, and nothing else changes where it is. */
  lemma CloseEnds(steps: seq<Step>, step: Step)
    requires Exec(steps).Some? && !Exec(steps).value.closer.Idle?
    ensures var s := Exec(steps).value;
            Enabled(s, CloseMap) || Enabled(s, CloseDone) || exists id :: Enabled(s, CloseSend(id))
    ensures var s := Exec(steps).value;
            Enabled(s, step) ==>
              var x, y := ToClose(s.closer), ToClose(Apply(s, step).closer);
              && (CloseStep(step) ==> y.0 < x.0 || (y.0 == x.0 && y.1 < x.1))
              && (!CloseStep(step) ==> Apply(s, step).closer == s.closer)
  {
    NoSenderBlocks(steps);
    var s := Exec(steps).value;
    if s.closer.Sweeping? && s.closer.remaining != {} {
      var id :| id in s.closer.remaining;
      assert Enabled(s, CloseSend(id));
    }
    if Enabled(s, step) {
      CloseMoves(s, step);
    }
  }

  /** No call is ever stuck: it can take its next step, or someone who holds a mutex it
      needs can, or it has collided and Close can begin, or it waits for a result. */
  lemma CallNeverStuck(steps: seq<Step>, o: nat)
    requires Exec(steps).Some? && o in Exec(steps).value.ops && !Exec(steps).value.ops[o].pc.Returned?
    ensures var s := Exec(steps).value; var pc := s.ops[o].pc;
            || !s.closer.Idle?
            || (s.writer.Some? && Enabled(s, WriteEnd(s.writer.value, true)))
            || (pc == Start && Enabled(s, Register(o)))
            || (pc == Collided && (Enabled(s, CollideReturn(o)) || (!s.core.closed && Enabled(s, CloseLock))))
            || (pc == Registered && Enabled(s, WriteBegin(o)))
            || (pc == Written && exists a :: Enabled(s, StartTimer(o, a)))
            || pc == Waiting
  {
    OneWriter(steps, o, o);
    var s := Exec(steps).value;
    var a := Fresh(s.actors.Keys);
    if s.writer.Some? {
      assert At(s, s.writer.value, Writing);
      assert Enabled(s, WriteEnd(s.writer.value, true));
    } else if s.closer.Idle? {
      match s.ops[o].pc
      case Start => assert Enabled(s, Register(o));
      case Collided => assert Enabled(s, CollideReturn(o)) || (!s.core.closed && Enabled(s, CloseLock));
      case Registered => assert Enabled(s, WriteBegin(o));
      case Writing => assert At(s, o, Writing);
      case Written => assert Enabled(s, StartTimer(o, a));
      case Waiting =>
    }
  }

  /** A number outside a finite set. */
  lemma {:induction false} Fresh(s: set<nat>) returns (a: nat)
    ensures a !in s && forall x :: x in s ==> x < a
    decreases |s|
  {
    a := 0;
    if s != {} {
      var x :| x in s;
      var b := Fresh(s - {x});
      a := if x < b then b else x + 1;
      forall y | y in s ensures y < a {
        assert y == x || y in s - {x};
      }
    }
  }
}
