/**
 * Until the producer has gone once around the slots since the last reset, the packet ring is
 * exactly a bounded first-in first-out queue.
 */
module RingFifo {
  import opened RingModel
  import opened RingAtomic

  /** The reference: a queue of at most `capacity` packets, and what was passed on from it. */
  datatype Fifo = Fifo(queue: seq<Packet>, sent: seq<Packet>)

  function FifoRound(f: Fifo, capacity: nat, op: Op): Fifo {
    match op
    case Produce(len, frame) =>
      if |f.queue| < capacity then f.(queue := f.queue + [Packet(len, frame)]) else f
    case Consume =>
      if f.queue == [] then f
      else f.(queue := f.queue[1..],
              sent := if f.queue[0].len > SHORTEST then f.sent + [f.queue[0]] else f.sent)
  }

  function FifoRounds(f: Fifo, capacity: nat, ops: seq<Op>): Fifo
    decreases |ops|
  {
    if ops == [] then f else FifoRounds(FifoRound(f, capacity, ops[0]), capacity, ops[1..])
  }

  /** Packets accepted since the last reset, or else since the start. */
  function SinceReset(s: State): int {
    |s.log.accepted| - s.log.base
  }

  /** The producer has not yet come past the last slot since then. */
  predicate FirstLap(s: State) {
    s.log.origin + SinceReset(s) <= s.rsz - 1
  }

  /** `out` has not passed `in`, and `sz` is how many slots lie between them. */
  predicate InStep(s: State) {
    s.outPos <= s.inPos && s.sz == s.inPos - s.outPos
  }

  predicate Lapped(s: State) {
    FirstLap(s) ==> s.inPos == s.log.origin + SinceReset(s) && InStep(s)
  }

  /** What the slots from `out` up to `in` hold. */
  function Abstraction(s: State): Fifo
    requires Bounded(s) && InStep(s)
  {
    Fifo(seq(s.sz, k requires 0 <= k < s.sz => Packet(s.lens[s.outPos + k], s.frames[s.outPos + k])), s.log.sent)
  }

  lemma RoundLapped(s: State, op: Op)
    requires Bounded(s) && Lapped(s)
    ensures Lapped(Round(s, op))
  {
  }

  lemma {:induction false} RoundsLapped(s: State, ops: seq<Op>)
    requires Bounded(s) && Lapped(s)
    ensures Lapped(Rounds(s, ops))
    decreases |ops|
  {
    if ops != [] {
      RoundLapped(s, ops[0]);
      RoundsLapped(Round(s, ops[0]), ops[1..]);
    }
  }

  /** Every round on the first lap is the queue's. */
  lemma RoundRefinesFifo(s: State, op: Op)
    requires Bounded(s) && Lapped(s) && FirstLap(s) && FirstLap(Round(s, op))
    ensures InStep(s) && InStep(Round(s, op))
    ensures Abstraction(Round(s, op)) == FifoRound(Abstraction(s), s.rsz - 1, op)
  {
    RoundLapped(s, op);
    var t, q := Round(s, op), Abstraction(s).queue;
    match op
    case Produce(len, frame) =>
      if !Refused(s) {
        assert Abstraction(t).queue == q + [Packet(len, frame)];
      }
    case Consume =>
      if !Dormant(s) && !Empty(s) {
        assert Abstraction(t).queue == q[1..];
      }
  }

  /** No state of the run leaves the first lap. */
  predicate StaysOnFirstLap(s: State, ops: seq<Op>)
    requires Bounded(s)
    decreases |ops|
  {
    FirstLap(s) && (ops != [] ==> StaysOnFirstLap(Round(s, ops[0]), ops[1..]))
  }

  /**
   * For every mix of rounds that stays on the first lap (resets included, each of which starts
   * a new lap), the ring accepts, refuses, passes on and ignores exactly what a queue bounded
   * by rsz - 1 does.
   */
  lemma {:induction false} RefinesBoundedFifo(s: State, ops: seq<Op>)
    requires Bounded(s) && Lapped(s) && StaysOnFirstLap(s, ops)
    ensures InStep(s) && InStep(Rounds(s, ops))
    ensures Abstraction(Rounds(s, ops)) == FifoRounds(Abstraction(s), s.rsz - 1, ops)
    decreases |ops|
  {
    if ops != [] {
      RoundRefinesFifo(s, ops[0]);
      RoundLapped(s, ops[0]);
      RefinesBoundedFifo(Round(s, ops[0]), ops[1..]);
    }
  }

  /** The starts that are in step, as after a reset. */
  predicate InStepStart(inPos: nat, outPos: nat, sz: nat) {
    outPos <= inPos && sz == inPos - outPos
  }

  /** The slots such a start counts as filled hold nothing the consumer would pass on. */
  function Blanks(n: nat): (r: seq<Packet>)
    ensures |r| == n
  {
    seq(n, _ => Packet(0, []))
  }

  /** So it is from every start in step: the queue first holds as many blanks as `sz` says. */
  lemma StartRefinesFifo(rsz: nat, inPos: nat, outPos: nat, sz: nat, ops: seq<Op>)
    requires ValidStart(rsz, inPos, outPos, sz) && inPos < rsz && InStepStart(inPos, outPos, sz)
    requires StaysOnFirstLap(Started(rsz, inPos, outPos, sz), ops)
    ensures var s := Rounds(Started(rsz, inPos, outPos, sz), ops);
            InStep(s) && Abstraction(s) == FifoRounds(Fifo(Blanks(sz), []), rsz - 1, ops)
  {
    var start := Started(rsz, inPos, outPos, sz);
    RefinesBoundedFifo(start, ops);
    assert Abstraction(start).queue == Blanks(sz);
  }

  /** And after every reset, whatever the start was: the queue is then empty. */
  lemma ResetRefinesFifo(s: State, ops: seq<Op>)
    requires Bounded(s) && StaysOnFirstLap(ResetRing(s), ops)
    ensures var t := Rounds(ResetRing(s), ops);
            InStep(t) && Abstraction(t) == FifoRounds(Fifo([], s.log.sent), s.rsz - 1, ops)
  {
    RefinesBoundedFifo(ResetRing(s), ops);
    assert Abstraction(ResetRing(s)).queue == [];
  }

  /** Exactly the starts in step stay in step for the first lap. */
  lemma FirstLapShape(rsz: nat, inPos: nat, outPos: nat, sz: nat)
    requires ValidStart(rsz, inPos, outPos, sz) && inPos < rsz
    ensures (forall ops :: FirstLap(Rounds(Started(rsz, inPos, outPos, sz), ops)) ==>
                             InStep(Rounds(Started(rsz, inPos, outPos, sz), ops))) <==>
              InStepStart(inPos, outPos, sz)
  {
    var start := Started(rsz, inPos, outPos, sz);
    if InStepStart(inPos, outPos, sz) {
      forall ops: seq<Op> ensures FirstLap(Rounds(start, ops)) ==> InStep(Rounds(start, ops)) {
        RoundsLapped(start, ops);
      }
    } else {
      var none: seq<Op> := [];
      assert Rounds(start, none) == start;
      assert FirstLap(Rounds(start, none)) && !InStep(Rounds(start, none));
    }
  }
}
