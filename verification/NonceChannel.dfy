/** SyncRandBuffer (server/internal/ecdsa/ecdsa.go): precomputed nonces in a channel
    shared by any number of concurrent fillers and signers. One step is one channel
    operation or one generation. */
module NonceChannel {
  import opened Wrappers

  /** The channel's buffer, and the nonces of the Fill calls now in their select. */
  datatype State<N> = State(cap: nat, buf: seq<N>, inHand: multiset<N>)

  datatype Step<N> =
    | Generate(x: N)  // Fill makes a nonce
    | Send(x: N)      // Fill's send goes through
    | Cancel(x: N)    // Fill's context is cancelled
    | Receive(x: N)   // gen receives from the buffer
    | Handoff(x: N)   // gen receives from a waiting Fill, without a buffer
    | Direct(x: N)    // gen finds nothing and makes a nonce itself

  predicate Enabled<N(==)>(s: State<N>, step: Step<N>) {
    match step
    case Generate(x) => true
    case Send(x) => x in s.inHand && |s.buf| < s.cap
    case Cancel(x) => x in s.inHand
    case Receive(x) => s.buf != [] && s.buf[0] == x
    case Handoff(x) => s.cap == 0 && x in s.inHand
    case Direct(x) => s.buf == []
  }

  function Apply<N>(s: State<N>, step: Step<N>): State<N>
    requires Enabled(s, step)
  {
    match step
    case Generate(x) => s.(inHand := s.inHand + multiset{x})
    case Send(x) => s.(inHand := s.inHand - multiset{x}, buf := s.buf + [x])
    case Cancel(x) => s.(inHand := s.inHand - multiset{x})
    case Receive(x) => s.(buf := s.buf[1..])
    case Handoff(x) => s.(inHand := s.inHand - multiset{x})
    case Direct(x) => s
  }

  /** The state after a run from a new buffer, if each step was enabled in turn. */
  function Exec<N>(cap: nat, steps: seq<Step<N>>): Option<State<N>> {
    if steps == [] then Some(State(cap, [], multiset{}))
    else
      var before := Exec(cap, steps[..|steps| - 1]);
      var last := steps[|steps| - 1];
      if before.Some? && Enabled(before.value, last) then Some(Apply(before.value, last)) else None
  }

  // ------------------------------------------------- what a run's steps say

  /** How often a run makes the nonce y. */
  function Generated<N(==)>(steps: seq<Step<N>>, y: N): nat {
    if steps == [] then 0
    else
      var last := steps[|steps| - 1];
      Generated(steps[..|steps| - 1], y) + if (last.Generate? || last.Direct?) && last.x == y then 1 else 0
  }

  /** How often a run returns y from gen. */
  function HandedOut<N(==)>(steps: seq<Step<N>>, y: N): nat {
    if steps == [] then 0
    else
      var last := steps[|steps| - 1];
      HandedOut(steps[..|steps| - 1], y)
      + if (last.Receive? || last.Handoff? || last.Direct?) && last.x == y then 1 else 0
  }

  /** How often a run drops y because its Fill was cancelled. */
  function Cancelled<N(==)>(steps: seq<Step<N>>, y: N): nat {
    if steps == [] then 0
    else
      var last := steps[|steps| - 1];
      Cancelled(steps[..|steps| - 1], y) + if last.Cancel? && last.x == y then 1 else 0
  }

  function Held<N>(s: State<N>, y: N): nat {
    multiset(s.buf)[y] + s.inHand[y]
  }

  lemma CountAppend<N>(s: seq<N>, x: N, y: N)
    ensures multiset(s + [x])[y] == multiset(s)[y] + if x == y then 1 else 0
  {
  }

  lemma CountHead<N>(s: seq<N>, y: N)
    requires s != []
    ensures multiset(s)[y] == multiset(s[1..])[y] + if s[0] == y then 1 else 0
  {
    assert s == [s[0]] + s[1..];
  }

  lemma StepBalance<N>(s: State<N>, step: Step<N>, y: N)
    requires |s.buf| <= s.cap && Enabled(s, step)
    ensures var t := Apply(s, step);
            && |t.buf| <= t.cap == s.cap
            && Held(s, y) + Generated([step], y) == Held(t, y) + HandedOut([step], y) + Cancelled([step], y)
  {
    assert [step][..0] == [];
    if step.Send? {
      CountAppend(s.buf, step.x, y);
    } else if step.Receive? {
      CountHead(s.buf, y);
    }
  }

  /** After every run, the copies of a nonce made are exactly those buffered, in hand,
      handed out and cancelled. */
  lemma {:induction false} Conservation<N>(cap: nat, steps: seq<Step<N>>, y: N)
    requires Exec(cap, steps).Some?
    ensures var s := Exec(cap, steps).value;
            && |s.buf| <= s.cap == cap
            && Generated(steps, y) == multiset(s.buf)[y] + s.inHand[y] + HandedOut(steps, y) + Cancelled(steps, y)
  {
    if steps != [] {
      var before, last := steps[..|steps| - 1], steps[|steps| - 1];
      Conservation(cap, before, y);
      StepBalance(Exec(cap, before).value, last, y);
      assert [last][..0] == [];
    }
  }

  /** No nonce is handed out more often than it was made: one made once is handed out at
      most once, and then is no longer buffered, in hand or cancelled. */
  lemma NoReuse<N>(cap: nat, steps: seq<Step<N>>, y: N)
    requires Exec(cap, steps).Some?
    ensures HandedOut(steps, y) <= Generated(steps, y)
    ensures Generated(steps, y) == 1 == HandedOut(steps, y) ==>
              var s := Exec(cap, steps).value; y !in s.buf && y !in s.inHand && Cancelled(steps, y) == 0
  {
    Conservation(cap, steps, y);
    var s := Exec(cap, steps).value;
    if y in s.buf {
      assert y in multiset(s.buf);
    }
  }

  /** The nonces that Fill puts into the buffer, in order. */
  function Stored<N>(steps: seq<Step<N>>): seq<N> {
    if steps == [] then []
    else
      var last := steps[|steps| - 1];
      Stored(steps[..|steps| - 1]) + if last.Send? then [last.x] else []
  }

  /** The nonces that gen takes from the buffer, in order. */
  function Fetched<N>(steps: seq<Step<N>>): seq<N> {
    if steps == [] then []
    else
      var last := steps[|steps| - 1];
      Fetched(steps[..|steps| - 1]) + if last.Receive? then [last.x] else []
  }

  /** The oldest nonce is used first, and gen makes one itself only when every stored one
      has been taken. */
  lemma {:induction false} OldestFirst<N>(cap: nat, steps: seq<Step<N>>, x: N)
    requires Exec(cap, steps).Some?
    ensures Stored(steps) == Fetched(steps) + Exec(cap, steps).value.buf
    ensures Enabled(Exec(cap, steps).value, Direct(x)) ==> Stored(steps) == Fetched(steps)
  {
    if steps != [] {
      var before, last := steps[..|steps| - 1], steps[|steps| - 1];
      OldestFirst(cap, before, x);
      var s := Exec(cap, before).value;
      if last.Receive? {
        assert s.buf == [s.buf[0]] + s.buf[1..];
      }
    }
  }
}
