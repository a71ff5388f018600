/**
 * Order in interleaved runs of the packet ring: the one event that can break it, and that
 * without it the consumer passes packets on in the order in which they were read.
 */
module RingOrder {
  import opened Bytes
  import opened RingModel
  import opened RingSafety
  import opened RingAtomic

  /** The event: `push` steps over a slot that the consumer holds. */
  predicate StepsOver(s: State, a: Action) {
    a == Push && s.producer.Free? && ConsumerHolds(s, s.inPos)
  }

  /** A run without this event. */
  predicate Undisturbed(s: State, actions: seq<Action>)
    requires WellFormed(s)
    decreases |actions|
  {
    actions == [] ||
    (!StepsOver(s, actions[0]) &&
     (StepWellFormed(s, actions[0]);
      Step(s, actions[0]).Running? ==> Undisturbed(Step(s, actions[0]).state, actions[1..])))
  }

  /** Slot i holds a committed packet and neither thread holds the slot. */
  predicate Committed(s: State, i: nat)
    requires WellFormed(s)
  {
    i < s.rsz - 1 && s.lens[i] > SHORTEST && !ProducerHolds(s, i) && !ConsumerHolds(s, i)
  }

  /** Slot i lies in the cyclic range from `out` up to `in`. */
  predicate InRange(s: State, i: nat) {
    if s.outPos <= s.inPos then s.outPos <= i < s.inPos else s.outPos <= i || i < s.inPos
  }

  /** Distance from `out` to slot i, going upward and around. */
  function Distance(s: State, i: nat): int {
    if s.outPos <= i then i - s.outPos else i - s.outPos + s.rsz
  }

  /** And the consumer will come to it, because it lies in the range from `out` up to `in`. */
  predicate Awaiting(s: State, i: nat)
    requires WellFormed(s)
  {
    Committed(s, i) && InRange(s, i)
  }

  /**
   * A packet behind `in` that nobody visits before the producer comes round and writes over it:
   * one read into a slot while a reset moved `in` away, or one the producer has lapped because
   * `out` and `sz` started with values that do not agree with `in`.
   */
  predicate Stray(s: State, i: nat) {
    s.outPos <= s.inPos <= i
  }

  ghost predicate AwaitingOrStray(s: State)
    requires WellFormed(s)
  {
    forall i: nat :: Committed(s, i) ==> InRange(s, i) || Stray(s, i)
  }

  ghost predicate AwaitingByDistance(s: State)
    requires WellFormed(s)
  {
    forall i: nat, j: nat :: Awaiting(s, i) && Awaiting(s, j) && Distance(s, i) < Distance(s, j) ==>
      s.log.stamps[i] < s.log.stamps[j]
  }

  ghost predicate AwaitingAfterSent(s: State)
    requires WellFormed(s)
  {
    forall i: nat, k :: Awaiting(s, i) && 0 <= k < |s.log.ids| ==> s.log.ids[k] < s.log.stamps[i]
  }

  /** The packet the consumer holds comes after those sent and before those awaiting it. */
  ghost predicate HeldIsNext(s: State)
    requires WellFormed(s)
  {
    s.consumer.Reading? ==>
      var c := s.consumer.slot;
      && s.outPos == c + 1
      && (Live(s, c) ==>
            && (forall i: nat :: Awaiting(s, i) ==> s.log.stamps[c] < s.log.stamps[i])
            && (forall k :: 0 <= k < |s.log.ids| ==> s.log.ids[k] < s.log.stamps[c]))
  }

  /** A reset has come between push and commit: the consumer sleeps until the commit. */
  ghost predicate Displaced(s: State)
    requires WellFormed(s)
  {
    s.inPos == 0 && s.outPos == 0 && s.sz == 0 && s.consumer.Asleep? && forall i: nat :: !Committed(s, i)
  }

  /** While the producer holds a slot, `in` stays there and `out` does not come to just after it. */
  ghost predicate RoomAhead(s: State)
    requires WellFormed(s)
  {
    s.producer.Holding? ==> (s.producer.slot == s.inPos && s.outPos != s.inPos + 1) || Displaced(s)
  }

  /** `out` started outside the ring: nothing has been taken and nothing reset. */
  predicate Beyond(s: State) {
    s.outPos >= s.rsz
  }

  /** Distance from `in` to slot i: the slots in the order in which the producer came by. */
  function Lap(s: State, i: nat): int {
    if s.inPos <= i then i - s.inPos else i - s.inPos + s.rsz
  }

  /** `in` and `out` are where they were, so all distances are. */
  lemma SameDistances(s: State, t: State)
    requires t.rsz == s.rsz && t.inPos == s.inPos && t.outPos == s.outPos
    ensures forall i: nat :: InRange(t, i) == InRange(s, i)
    ensures forall i: nat :: Distance(t, i) == Distance(s, i) && Lap(t, i) == Lap(s, i)
  {
  }

  ghost predicate CommittedByLap(s: State)
    requires WellFormed(s)
  {
    forall i: nat, j: nat :: Committed(s, i) && Committed(s, j) && Lap(s, i) < Lap(s, j) ==>
      s.log.stamps[i] < s.log.stamps[j]
  }

  ghost predicate Untaken(s: State)
    requires WellFormed(s)
  {
    !s.consumer.Reading? && s.log.ids == [] && CommittedByLap(s)
  }

  ghost predicate Arranged(s: State)
    requires WellFormed(s)
  {
    && RoomAhead(s)
    && Ascending(s.log.ids)
    && if Beyond(s) then Untaken(s)
       else HeldIsNext(s) && AwaitingOrStray(s) && AwaitingByDistance(s) && AwaitingAfterSent(s)
  }

  ghost predicate Orderly(s: State) {
    Safe(s) && Arranged(s)
  }

  lemma StartOrderly(rsz: nat, inPos: nat, outPos: nat, sz: nat)
    requires ValidStart(rsz, inPos, outPos, sz) && inPos < rsz
    ensures Orderly(Started(rsz, inPos, outPos, sz))
  {
    StartSafe(rsz, inPos, outPos, sz);
    var s := Started(rsz, inPos, outPos, sz);
    assert forall i: nat :: !Committed(s, i);
  }

  /** Nothing that order depends on has changed, except that slots may no longer hold a packet. */
  ghost predicate SameOrder(s: State, t: State)
    requires WellFormed(s) && WellFormed(t)
  {
    && t.rsz == s.rsz && t.inPos == s.inPos && t.outPos == s.outPos && t.log.stamps == s.log.stamps
    && (forall i: nat :: Committed(t, i) ==> Committed(s, i))
  }

  lemma SameOrderArranged(s: State, t: State)
    requires Orderly(s) && WellFormed(t) && SameOrder(s, t) && RoomAhead(t)
    requires t.log.ids == s.log.ids && t.consumer == s.consumer
    requires s.consumer.Reading? ==> (Live(t, s.consumer.slot) ==> Live(s, s.consumer.slot))
    ensures Arranged(t)
  {
    SameDistances(s, t);
  }

  lemma PushArranged(s: State)
    requires Orderly(s) && s.producer.Free? && !ConsumerHolds(s, s.inPos)
    ensures DoPush(s).Running? && WellFormed(DoPush(s).state) && Arranged(DoPush(s).state)
  {
    PushSearchBounded(s);
    SameOrderArranged(s, DoPush(s).state);
  }

  lemma FillArranged(s: State, len: int, frame: Frame, kept: bool)
    requires Orderly(s) && s.producer.Holding?
    ensures Arranged(DoFill(s, len, frame, kept))
  {
    var t := DoFill(s, len, frame, kept);
    assert ProducerHolds(s, s.producer.slot) && ProducerHolds(t, s.producer.slot);
    assert forall i: nat :: Committed(t, i) <==> Committed(s, i);
    SameOrderArranged(s, t);
  }

  /** After a reset moved `in` away, the packet committed next is the only one, perhaps a stray. */
  lemma DisplacedCommitArranged(s: State)
    requires Orderly(s) && s.producer.Holding? && Displaced(s)
    ensures Arranged(DoCommit(s))
  {
    var t := DoCommit(s);
    assert forall i: nat :: Committed(t, i) && i != s.producer.slot ==> Committed(s, i);
    assert forall i: nat :: Committed(t, i) ==> i == s.producer.slot;
    assert AwaitingOrStray(t);
  }

  /** A commit leaves the other packets where they are. */
  lemma CommitAmongOthers(s: State, i: nat)
    requires Orderly(s) && s.producer.Holding? && !Displaced(s)
    requires i != s.producer.slot && Committed(DoCommit(s), i)
    ensures var t, p := DoCommit(s), s.producer.slot;
            && Committed(s, i)
            && s.log.stamps[i] < |s.log.accepted|
            && Lap(t, i) == Lap(s, i) - 1 && (p < s.rsz - 1 ==> Lap(t, i) < Lap(t, p))
            && (!Beyond(s) ==> InRange(t, i) || Stray(t, i))
            && (!Beyond(s) && InRange(t, i) ==>
                  && InRange(s, i) && Distance(t, i) == Distance(s, i)
                  && (p < s.rsz - 1 ==> Distance(t, i) < Distance(t, p)))
  {
    assert Committed(s, i);
    assert Live(s, i) && Stamped(s, i);
  }

  lemma BeyondCommitArranged(s: State)
    requires Orderly(s) && s.producer.Holding? && Beyond(s)
    ensures Arranged(DoCommit(s))
  {
    var t, p := DoCommit(s), s.producer.slot;
    forall i: nat | Committed(t, i) && i != p
      ensures Committed(s, i) && s.log.stamps[i] < |s.log.accepted|
      ensures Lap(t, i) == Lap(s, i) - 1 && (p < s.rsz - 1 ==> Lap(t, i) < Lap(t, p))
    {
      CommitAmongOthers(s, i);
    }
    assert CommittedByLap(t);
  }

  lemma CommitArranged(s: State)
    requires Orderly(s) && s.producer.Holding?
    ensures Arranged(DoCommit(s))
  {
    if Displaced(s) {
      DisplacedCommitArranged(s);
    } else if Beyond(s) {
      BeyondCommitArranged(s);
    } else {
      VisitedCommitArranged(s);
    }
  }

  /** The packet the consumer holds stays the next one. */
  lemma CommitHeld(s: State)
    requires Orderly(s) && s.producer.Holding? && !Displaced(s) && !Beyond(s)
    ensures HeldIsNext(DoCommit(s))
  {
    if s.consumer.Reading? {
      var t, p, c := DoCommit(s), s.producer.slot, s.consumer.slot;
      assert ConsumerHolds(s, c) && ProducerHolds(s, p) && c != p;
      assert Live(t, c) ==> Live(s, c) && Stamped(s, c);
      forall i: nat | Awaiting(t, i) && i != p ensures Awaiting(s, i) {
        CommitAmongOthers(s, i);
      }
    }
  }

  lemma VisitedCommitArranged(s: State)
    requires Orderly(s) && s.producer.Holding? && !Displaced(s) && !Beyond(s)
    ensures Arranged(DoCommit(s))
  {
    var t, p := DoCommit(s), s.producer.slot;
    assert ProducerHolds(s, p);
    CommitHeld(s);
    forall i: nat | Committed(t, i) && i != p
      ensures Committed(s, i) && s.log.stamps[i] < |s.log.accepted|
      ensures InRange(t, i) || Stray(t, i)
      ensures InRange(t, i) ==>
                && InRange(s, i) && Distance(t, i) == Distance(s, i)
                && (p < s.rsz - 1 ==> Distance(t, i) < Distance(t, p))
    {
      CommitAmongOthers(s, i);
    }
    assert AwaitingOrStray(t);
    assert AwaitingByDistance(t);
  }

  lemma ReleaseArranged(s: State)
    requires Orderly(s) && s.consumer.Reading?
    ensures Arranged(DoRelease(s))
  {
    var t := DoRelease(s);
    var c := s.consumer.slot;
    assert ConsumerHolds(s, c) && !ProducerHolds(s, c);
    assert forall i: nat :: Committed(t, i) ==> Committed(s, i) && InRange(t, i) == InRange(s, i);
    assert forall i: nat :: Distance(t, i) == Distance(s, i);
  }

  lemma RecheckArranged(s: State)
    requires Orderly(s) && s.consumer.Drained?
    ensures Arranged(Step(s, Recheck).state)
  {
    var t := Step(s, Recheck).state;
    if s.full {
      assert forall i: nat :: !Committed(t, i);
    } else {
      assert SameOrder(s, t);
      SameDistances(s, t);
    }
  }

  lemma WakeArranged(s: State)
    requires Orderly(s)
    ensures Arranged(Step(s, Wake).state)
  {
    var t := Step(s, Wake).state;
    assert SameOrder(s, t);
    SameDistances(s, t);
  }

  /** The first packet taken when `out` started outside the ring: the oldest of the last lap. */
  lemma FirstPopArranged(s: State)
    requires Orderly(s) && s.consumer.Ready? && Beyond(s) && s.sz >= 1
    ensures DoPop(s).Running? && WellFormed(DoPop(s).state) && Arranged(DoPop(s).state)
  {
    PopSearchBounded(s);
    var t := DoPop(s).state;
    var c := t.consumer.slot;
    forall i: nat | Committed(t, i)
      ensures Committed(s, i) && (InRange(t, i) || Stray(t, i))
      ensures InRange(t, i) ==> Lap(s, c) < Lap(s, i) && Distance(t, i) == Lap(s, i) - Lap(s, c) - 1
    {
      assert Committed(s, i);
    }
    assert Live(t, c) ==> Committed(s, c);
  }

  lemma PopArranged(s: State)
    requires Orderly(s) && s.consumer.Ready?
    ensures DoPop(s).Running? && WellFormed(DoPop(s).state) && Arranged(DoPop(s).state)
  {
    if s.sz < 1 || s.inPos == s.outPos {
      var t := DoPop(s).state;
      assert SameOrder(s, t);
      SameDistances(s, t);
    } else if Beyond(s) {
      FirstPopArranged(s);
    } else {
      NextPopArranged(s);
    }
  }

  lemma NextPopArranged(s: State)
    requires Orderly(s) && s.consumer.Ready? && !Beyond(s) && s.sz >= 1 && s.inPos != s.outPos
    ensures DoPop(s).Running? && WellFormed(DoPop(s).state) && Arranged(DoPop(s).state)
  {
    PopSearchBounded(s);
    var t := DoPop(s).state;
    var c := t.consumer.slot;
    forall i: nat | Committed(t, i)
      ensures Committed(s, i) && InRange(t, i) == InRange(s, i) && (Stray(s, i) ==> Stray(t, i))
      ensures InRange(t, i) ==> Distance(s, c) < Distance(s, i)
      ensures InRange(t, i) ==> Distance(t, i) == Distance(s, i) - if s.outPos == s.rsz - 1 then 2 else 1
    {
      assert Committed(s, i);
    }
    assert Live(t, c) ==> Awaiting(s, c);
  }

  lemma StepOrderly(s: State, a: Action)
    requires Orderly(s) && !StepsOver(s, a)
    ensures Step(s, a).Running? && Orderly(Step(s, a).state)
  {
    StepSafe(s, a);
    match a
    case Push => if s.producer.Free? { PushArranged(s); }
    case Fill(len, frame, kept) => if s.producer.Holding? { FillArranged(s, len, frame, kept); }
    case Commit => if s.producer.Holding? { CommitArranged(s); }
    case Pop => if s.consumer.Ready? { PopArranged(s); }
    case Recheck => if s.consumer.Drained? { RecheckArranged(s); }
    case Wake => WakeArranged(s);
    case Release => if s.consumer.Reading? { ReleaseArranged(s); }
  }

  lemma {:induction false} RunOrderly(s: State, actions: seq<Action>)
    requires Orderly(s) && Undisturbed(s, actions)
    ensures Run(s, actions).Running? && Orderly(Run(s, actions).state)
    decreases |actions|
  {
    if actions != [] {
      StepOrderly(s, actions[0]);
      RunOrderly(Step(s, actions[0]).state, actions[1..]);
    }
  }

  /** Packets sent in order of acceptance come from reads in order. */
  lemma SentInReadOrder(s: State, fills: seq<Packet>, at: seq<nat>)
    requires WellFormed(s) && Traced(s, fills, at)
    requires EmbedsAt(s.log.sent, s.log.accepted, s.log.ids)
    requires forall k :: 0 <= k < |s.log.sent| ==> s.log.sent[k].len > SHORTEST
    ensures Subsequence(s.log.sent, fills)
  {
    var ids := s.log.ids;
    var source := seq(|ids|, k requires 0 <= k < |ids| => at[ids[k]]);
    forall k | 0 <= k < |ids| ensures source[k] < |fills| && s.log.sent[k] == fills[source[k]] {
      assert FromFill(s.log.accepted[ids[k]], fills, at[ids[k]]);
    }
    assert EmbedsAt(s.log.sent, fills, source);
  }

  /**
   * In every interleaving of the two threads' steps in which no push steps over the slot that
   * the consumer holds, resets included, from every start with `in` inside the ring, the
   * consumer passes on what was accepted, and what the producer read, in order and without
   * repetition.
   */
  lemma InterleavedOrder(rsz: nat, inPos: nat, outPos: nat, sz: nat, actions: seq<Action>)
    requires ValidStart(rsz, inPos, outPos, sz) && inPos < rsz
    requires Undisturbed(Started(rsz, inPos, outPos, sz), actions)
    ensures Run(Started(rsz, inPos, outPos, sz), actions).Running?
    ensures var log := Run(Started(rsz, inPos, outPos, sz), actions).state.log;
            && Subsequence(log.sent, log.accepted)
            && Subsequence(log.sent, Fills(actions))
            && forall k :: 0 <= k < |log.sent| ==> log.sent[k].len > SHORTEST
  {
    var start := Started(rsz, inPos, outPos, sz);
    StartOrderly(rsz, inPos, outPos, sz);
    RunOrderly(start, actions);
    OrderlySent(Run(start, actions).state);
    var at := RunTraced(start, [], [], actions);
    assert [] + Fills(actions) == Fills(actions);
    SentInReadOrder(Run(start, actions).state, Fills(actions), at);
  }

  lemma OrderlySent(s: State)
    requires Orderly(s)
    ensures EmbedsAt(s.log.sent, s.log.accepted, s.log.ids)
    ensures forall k :: 0 <= k < |s.log.sent| ==> s.log.sent[k].len > SHORTEST
  {
  }

  // ----- Whole rounds never step over a held slot -----

  lemma {:induction false} UndisturbedAppend(s: State, xs: seq<Action>, ys: seq<Action>)
    requires WellFormed(s) && Undisturbed(s, xs)
    requires Run(s, xs).Running? ==> WellFormed(Run(s, xs).state) && Undisturbed(Run(s, xs).state, ys)
    ensures Undisturbed(s, xs + ys)
    decreases |xs|
  {
    if xs == [] {
      assert xs + ys == ys;
    } else {
      assert (xs + ys)[1..] == xs[1..] + ys;
      StepWellFormed(s, xs[0]);
      if Step(s, xs[0]).Running? {
        UndisturbedAppend(Step(s, xs[0]).state, xs[1..], ys);
      }
    }
  }

  lemma {:induction false} RoundsUndisturbed(s: State, ops: seq<Op>)
    requires Safe(s) && Quiet(s)
    ensures Undisturbed(s, AllActions(ops))
    decreases |ops|
  {
    if ops != [] {
      RoundIsActions(s, ops[0]);
      RoundUndisturbed(s, ops[0]);
      RoundsUndisturbed(Round(s, ops[0]), ops[1..]);
      UndisturbedAppend(s, Actions(ops[0]), AllActions(ops[1..]));
    }
  }

  /**
   * So in every run of whole rounds, from every start with `in` inside the ring, the consumer
   * passes packets on in the order in which they were accepted, none twice: what comes out is
   * the input with some packets missing.
   */
  lemma RoundsInOrder(rsz: nat, inPos: nat, outPos: nat, sz: nat, ops: seq<Op>)
    requires ValidStart(rsz, inPos, outPos, sz) && inPos < rsz
    ensures var log := Rounds(Started(rsz, inPos, outPos, sz), ops).log;
            && Subsequence(log.sent, log.accepted)
            && Subsequence(log.accepted, Offered(ops))
            && Subsequence(log.sent, Offered(ops))
  {
    var start := Started(rsz, inPos, outPos, sz);
    StartSafe(rsz, inPos, outPos, sz);
    RoundsAreActions(start, ops);
    RoundsUndisturbed(start, ops);
    InterleavedOrder(rsz, inPos, outPos, sz, AllActions(ops));
    var more := RoundsAccept(start, ops);
    assert [] + more == more;
    var log := Rounds(start, ops).log;
    SubsequenceTransitive(log.sent, log.accepted, Offered(ops));
  }

  lemma RoundUndisturbed(s: State, op: Op)
    requires Safe(s) && Quiet(s)
    ensures Undisturbed(s, Actions(op))
  {
    var xs := Actions(op);
    assert !StepsOver(s, xs[0]);
    StepSafe(s, xs[0]);
    NoPushUndisturbed(Step(s, xs[0]).state, xs[1..]);
  }

  lemma {:induction false} NoPushUndisturbed(s: State, actions: seq<Action>)
    requires WellFormed(s) && Push !in actions
    ensures Undisturbed(s, actions)
    decreases |actions|
  {
    if actions != [] {
      StepWellFormed(s, actions[0]);
      if Step(s, actions[0]).Running? {
        NoPushUndisturbed(Step(s, actions[0]).state, actions[1..]);
      }
    }
  }
}
