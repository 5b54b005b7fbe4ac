/** The bound of 2^32 allocations is tight: runs of the client connection in which a late
    reply, and a late timer, are delivered to another operation, exactly 2^32 allocations
    after their own. */
module IdReuse {
  import opened Wrappers
  import opened Multiplexer

  lemma Extend(steps: seq<Step>, step: Step) returns (run: seq<Step>)
    requires Exec(steps).Some? && Enabled(Exec(steps).value, step)
    ensures Exec(run) == Some(Apply(Exec(steps).value, step))
  {
    run := steps + [step];
    assert run[..|steps|] == steps;
  }

  /** Operations 0 to n - 1 have been given IDs and none of them is listed any more; the
      actors are those of base. */
  ghost predicate Quiet(s: State, n: nat, base: map<nat, Actor>) {
    && s.core == Core(false, n % ID_SPACE, map[]) && s.allocs == n
    && s.actors == base && s.writer == None && s.closer == Idle
    && (forall o :: o in s.ops ==> o < n)
    && (0 < n ==> 0 in s.ops && s.ops[0].serial == Some(0))
  }

  /** Operation n has sent its request and waits, with actor a for its timer. */
  ghost predicate Waits(s: State, n: nat, base: map<nat, Actor>, a: nat) {
    && s.core == Core(false, (n + 1) % ID_SPACE, map[n % ID_SPACE := n]) && s.allocs == n + 1
    && s.actors == base[a := Timer(n)] && s.writer == None && s.closer == Idle
    && (forall o :: o in s.ops ==> o <= n)
    && n in s.ops && s.ops[n] == Op(Waiting, Some(n), [], 0, None, Some(a))
    && 0 in s.ops && s.ops[0].serial == Some(0)
  }

  lemma NextId(n: nat)
    ensures (n % ID_SPACE + 1) % ID_SPACE == (n + 1) % ID_SPACE
  {
  }

  lemma Registers(steps: seq<Step>, n: nat, base: map<nat, Actor>) returns (run: seq<Step>)
    requires Exec(steps).Some? && Quiet(Exec(steps).value, n, base)
    ensures Exec(run).Some?
    ensures var s, t := Exec(steps).value, Exec(run).value;
            && t.core == Core(false, (n + 1) % ID_SPACE, map[n % ID_SPACE := n])
            && t == s.(core := t.core, allocs := n + 1, ops := s.ops[n := Op(Registered, Some(n), [], 0, None, None)])
  {
    NextId(n);
    run := Extend(steps, Begin(n));
    run := Extend(run, Register(n));
  }

  lemma Requests(steps: seq<Step>, n: nat, base: map<nat, Actor>, a: nat) returns (run: seq<Step>)
    requires Exec(steps).Some? && Quiet(Exec(steps).value, n, base) && a !in base
    ensures Exec(run).Some? && Waits(Exec(run).value, n, base, a)
  {
    run := Registers(steps, n, base);
    run := Extend(run, WriteBegin(n));
    run := Extend(run, WriteEnd(n, true));
    run := Extend(run, StartTimer(n, a));
  }

  lemma TimesOut(steps: seq<Step>, n: nat, base: map<nat, Actor>, a: nat) returns (run: seq<Step>)
    requires Exec(steps).Some? && Waits(Exec(steps).value, n, base, a) && a !in base
    ensures Exec(run).Some? && Quiet(Exec(run).value, n + 1, base)
  {
    run := Extend(steps, Extract(a));
    assert map[n % ID_SPACE := n] - {n % ID_SPACE} == map[];
    run := Extend(run, Send(a));
    assert Exec(run).value.actors == base;
    run := Extend(run, Receive(n));
  }

  /** From operation m on, operations that time out one after the other bring the next ID
      to n modulo 2^32. */
  lemma {:induction false} Rounds(steps: seq<Step>, m: nat, n: nat, base: map<nat, Actor>, a: nat)
    returns (run: seq<Step>)
    requires Exec(steps).Some? && Quiet(Exec(steps).value, m, base) && m <= n && a !in base
    ensures Exec(run).Some? && Quiet(Exec(run).value, n, base)
    decreases n, m
  {
    run := steps;
    if m < n {
      run := Rounds(steps, m, n - 1, base, a);
      run := Requests(run, n - 1, base, a);
      run := TimesOut(run, n - 1, base, a);
    }
  }

  /** A reader b finds operation n's channel with a reply to operation p. */
  lemma Delivers(steps: seq<Step>, n: nat, p: nat, base: map<nat, Actor>, a: nat, b: nat) returns (run: seq<Step>)
    requires Exec(steps).Some? && Waits(Exec(steps).value, n, base, a) && a !in base && b !in base && a != b
    requires var s := Exec(steps).value; p in s.ops && s.ops[p].serial == Some(p) && p % ID_SPACE == n % ID_SPACE
    ensures Exec(run).Some?
    ensures var t := Exec(run).value;
            && t.core == Core(false, (n + 1) % ID_SPACE, map[]) && t.allocs == n + 1
            && t.actors == base[a := Timer(n)] && t.writer == None && t.closer == Idle
            && (forall o :: o in t.ops ==> o <= n)
            && At(t, n, Waiting) && t.ops[n].serial == Some(n)
            && t.ops[n].chan == [Reply(Packet(n % ID_SPACE, Some(p)), n + 1)]
            && p in t.ops && t.ops[p].serial == Some(p) && 0 in t.ops && t.ops[0].serial == Some(0)
  {
    run := Finds(steps, n, p, base, a, b);
    run := Extend(run, Send(b));
    assert Exec(run).value.actors == base[a := Timer(n)];
  }

  lemma Finds(steps: seq<Step>, n: nat, p: nat, base: map<nat, Actor>, a: nat, b: nat) returns (run: seq<Step>)
    requires Exec(steps).Some? && Waits(Exec(steps).value, n, base, a) && a !in base && b !in base && a != b
    requires var s := Exec(steps).value; p in s.ops && s.ops[p].serial == Some(p) && p % ID_SPACE == n % ID_SPACE
    ensures Exec(run).Some?
    ensures var s, t := Exec(steps).value, Exec(run).value;
            && t.core == Core(false, (n + 1) % ID_SPACE, map[])
            && t == s.(core := t.core, actors := t.actors, ops := s.ops[n := s.ops[n].(holder := Some(b))])
            && t.actors == base[a := Timer(n)][b := Sending(n, Reply(Packet(n % ID_SPACE, Some(p)), n + 1))]
  {
    run := Extend(steps, Arrive(b, Packet(n % ID_SPACE, Some(p))));
    run := Extend(run, Extract(b));
    assert map[n % ID_SPACE := n] - {n % ID_SPACE} == map[];
  }

  /** The reply to operation p arrives while operation n, which has the same ID, waits. */
  lemma Answered(steps: seq<Step>, n: nat, p: nat, base: map<nat, Actor>, a: nat, b: nat) returns (run: seq<Step>)
    requires Exec(steps).Some? && Waits(Exec(steps).value, n, base, a) && a !in base && b !in base && a != b
    requires var s := Exec(steps).value; p in s.ops && s.ops[p].serial == Some(p) && p % ID_SPACE == n % ID_SPACE
    ensures Exec(run).Some? && Quiet(Exec(run).value, n + 1, base[a := Timer(n)])
    ensures var s := Exec(run).value;
            && p in s.ops && s.ops[p].serial == Some(p)
            && n in s.ops && s.ops[n].pc == Returned(Got(Reply(Packet(n % ID_SPACE, Some(p)), n + 1)))
  {
    run := Delivers(steps, n, p, base, a, b);
    run := Extend(run, Receive(n));
  }

  /** Operation 0 and 2^32 - 1 further ones time out; operation 2^32 then gets the same ID
      as operation 0, and operation 0's late reply. */
  lemma LateReply() returns (run: seq<Step>, p: nat, o: nat)
    ensures Exec(run).Some?
    ensures var s := Exec(run).value;
            && p in s.ops && o in s.ops && p != o
            && GotReply(s.ops[o]) && s.ops[o].pc.outcome.delivery.Reply?
            && var d := s.ops[o].pc.outcome.delivery;
               && OriginOf(d) == Some(p) && s.ops[p].serial.Some?
               && d.allocs - (s.ops[p].serial.value + 1) == 0x1_0000_0000
  {
    p, o := 0, ID_SPACE;
    run := Rounds([], 0, o, map[], 0);
    run := Requests(run, o, map[], 0);
    run := Answered(run, o, p, map[], 0, 1);
  }

  /** Operation 0 is answered while its timer still runs, 2^32 - 1 further operations time
      out; operation 2^32 then gets the same ID, and operation 0's timer ends it. */
  lemma LateTimer() returns (run: seq<Step>, p: nat, o: nat)
    ensures Exec(run).Some?
    ensures var s := Exec(run).value;
            && p in s.ops && o in s.ops && p != o
            && GotReply(s.ops[o]) && s.ops[o].pc.outcome.delivery.TimedOut?
            && var d := s.ops[o].pc.outcome.delivery;
               && OriginOf(d) == Some(p) && s.ops[p].serial.Some?
               && d.allocs - (s.ops[p].serial.value + 1) == 0x1_0000_0000
  {
    p, o := 0, ID_SPACE;
    run := Requests([], 0, map[], 0);
    run := Answered(run, 0, 0, map[], 0, 1);
    run := Rounds(run, 1, o, map[0 := Timer(0)], 1);
    run := Requests(run, o, map[0 := Timer(0)], 1);
    run := Extend(run, Extract(0));
    run := Extend(run, Send(0));
    run := Extend(run, Receive(o));
  }
}
