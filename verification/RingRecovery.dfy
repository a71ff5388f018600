/** When a full packet ring recovers, and when it is stuck for good. */
module RingRecovery {
  import opened Bytes
  import opened RingModel
  import opened RingSafety
  import opened RingAtomic

  function ConsumerRounds(k: nat): seq<Op> {
    if k == 0 then [] else [Consume] + ConsumerRounds(k - 1)
  }

  /** Within `limit` consumer rounds the ring takes a packet again. */
  ghost predicate HealsWithin(s: State, limit: nat)
    requires Bounded(s)
  {
    exists k: nat :: k <= limit && !Refused(Rounds(s, ConsumerRounds(k)))
  }

  /** The producer is turned away while the consumer sleeps on a counter that is 0. */
  predicate Stalled(s: State) {
    s.producer.Free? && Dormant(s) && Refused(s)
  }

  /** With `full` set, sz + 1 rounds of a consumer that is awake are enough. */
  lemma {:induction false} HealingRounds(s: State) returns (k: nat)
    requires Bounded(s) && s.full && !Dormant(s)
    ensures k <= s.sz + 1 && !Refused(Rounds(s, ConsumerRounds(k)))
    decreases s.sz
  {
    if !Refused(s) {
      return 0;
    }
    var t := Consumed(s);
    if Empty(s) {
      FirstConsumerRound(s, 0);
      return 1;
    }
    k := HealingRounds(t);
    FirstConsumerRound(s, k);
    k := k + 1;
  }

  lemma FirstConsumerRound(s: State, k: nat)
    requires Bounded(s)
    ensures Rounds(s, ConsumerRounds(k + 1)) == Rounds(Consumed(s), ConsumerRounds(k))
  {
    assert ConsumerRounds(k + 1)[1..] == ConsumerRounds(k);
  }

  /** A stalled ring does nothing more, whatever its two threads do next. */
  lemma {:induction false} StallIsPermanent(s: State, actions: seq<Action>)
    requires Safe(s) && Stalled(s)
    ensures var end := Run(s, actions);
            end == Running(s) || end == Running(s.(full := true))
    decreases |actions|
  {
    if actions != [] {
      StepSafe(s, actions[0]);
      if actions[0].Push? {
        PushSearchBounded(s);
        assert !ConsumerHolds(s, s.inPos);
      }
      StallIsPermanent(Step(s, actions[0]).state, actions[1..]);
    }
  }

  lemma StallRefusesForever(s: State, k: nat)
    requires Safe(s) && Stalled(s)
    ensures Refused(Rounds(s, ConsumerRounds(k)))
  {
    RoundsAreActions(s, ConsumerRounds(k));
    StallIsPermanent(s, AllActions(ConsumerRounds(k)));
  }

  /**
   * Exactly when a refused ring heals. Take any state that whole rounds reach from any start
   * with `in` inside the ring, and in which the producer is turned away, which sets `full`.
   * Within sz + 1 consumer rounds (rsz of them, unless `sz` started above that) a packet is
   * accepted again, unless the consumer is asleep while `sz` is 0; then it never is.
   */
  lemma HealsUnlessDormant(s: State, len: int, frame: Frame)
    requires Reachable(s) && Bounded(s) && Refused(s)
    ensures var t := Produced(s, len, frame);
            && (HealsWithin(t, s.sz + 1) <==> !Dormant(s))
            && (s.sz <= s.rsz - 1 ==> (HealsWithin(t, s.rsz) <==> !Dormant(s)))
            && (Dormant(s) ==> forall k: nat :: Refused(Rounds(t, ConsumerRounds(k))))
  {
    ReachableSafe(s);
    var t := Produced(s, len, frame);
    RoundIsActions(s, Produce(len, frame));
    if Dormant(s) {
      forall k: nat ensures Refused(Rounds(t, ConsumerRounds(k))) {
        StallRefusesForever(t, k);
      }
    } else {
      var k := HealingRounds(t);
      assert k <= s.sz + 1;
    }
  }

  /**
   * Exactly which rings are dead before their first packet: those whose `sz` starts as 0 and
   * whose `out` starts just after `in`. A look by the consumer stalls them.
   */
  lemma StalledAtOnce(rsz: nat, inPos: nat, outPos: nat, sz: nat)
    requires ValidStart(rsz, inPos, outPos, sz) && inPos < rsz
    ensures Stalled(Consumed(Started(rsz, inPos, outPos, sz))) <==> sz == 0 && outPos == inPos + 1
  {
  }

  // ----- What a reset does, and what has to come before it -----

  /** A look at `full` that finds it set empties the ring: positions, counter, flag and lengths. */
  lemma RecheckEmpties(s: State)
    requires WellFormed(s) && s.consumer.Drained? && s.full
    ensures Step(s, Recheck).Running?
    ensures var t := Step(s, Recheck).state;
            && WellFormed(t) && t.inPos == 0 && t.outPos == 0 && t.sz == 0 && !t.full
            && (forall i :: 0 <= i < s.rsz ==> t.lens[i] == 0)
            && t.locks == s.locks && t.frames == s.frames && t.producer == s.producer && t.consumer.Asleep?
            && Waiting(t) == {} && t.log.dropped == s.log.dropped + Waiting(s)
            && t.log.base == |s.log.accepted| && t.log.accepted == s.log.accepted && t.log.sent == s.log.sent
            && t.log.lost == s.log.lost && t.log.parked == s.log.parked
  {
  }

  /** The producer is turned away. */
  predicate TurnedAway(s: State, a: Action)
    requires WellFormed(s)
  {
    a == Push && s.producer.Free? && Step(s, a).Running? && Step(s, a).state.producer.Free?
  }

  /** A run in which the producer is never turned away. */
  predicate NeverTurnedAway(s: State, actions: seq<Action>)
    requires WellFormed(s)
    decreases |actions|
  {
    actions == [] ||
    (!TurnedAway(s, actions[0]) &&
     (StepWellFormed(s, actions[0]);
      Step(s, actions[0]).Running? ==> NeverTurnedAway(Step(s, actions[0]).state, actions[1..])))
  }

  /**
   * Until the producer is turned away there is no reset, and after one none until it is turned
   * away again: from every state with `full` clear no step of such a run sets it, throws a
   * packet away or begins a new lap.
   */
  lemma {:induction false} NoResetUnlessTurnedAway(s: State, actions: seq<Action>)
    requires WellFormed(s) && !s.full && NeverTurnedAway(s, actions)
    ensures var r := Run(s, actions);
            r.Running? ==>
              && !r.state.full
              && r.state.log.base == s.log.base && r.state.log.origin == s.log.origin
              && r.state.log.dropped == s.log.dropped
    decreases |actions|
  {
    if actions != [] {
      StepWellFormed(s, actions[0]);
      if Step(s, actions[0]).Running? {
        NoResetUnlessTurnedAway(Step(s, actions[0]).state, actions[1..]);
      }
    }
  }

  /** A push that is turned away sets `full`, and nothing else clears it but a reset. */
  lemma TurnedAwaySetsFull(s: State, a: Action)
    requires WellFormed(s) && Step(s, a).Running?
    ensures TurnedAway(s, a) ==> Step(s, a).state.full
    ensures s.full && !Step(s, a).state.full ==> a == Recheck && s.consumer.Drained?
  {
  }

  // ----- Interleaved runs -----

  /** The run takes at least one more packet. */
  predicate Gains(s: State, actions: seq<Action>)
    requires WellFormed(s)
  {
    var r := Run(s, actions);
    r.Running? && |r.state.log.accepted| > |s.log.accepted|
  }

  /** A run that gains after a run that takes nothing back. */
  lemma GainsAfter(s: State, xs: seq<Action>, t: State, ys: seq<Action>)
    requires WellFormed(s) && Run(s, xs) == Running(t) && WellFormed(t)
    requires |t.log.accepted| >= |s.log.accepted| && Gains(t, ys)
    ensures Gains(s, xs + ys)
  {
    RunAppend(s, xs, ys);
  }

  lemma RunOne(s: State, a: Action)
    requires Safe(s)
    ensures Step(s, a).Running? && Safe(Step(s, a).state) && Run(s, [a]) == Step(s, a)
  {
    StepSafe(s, a);
    assert [a][1..] == [];
  }

  lemma HoldingGains(s: State) returns (actions: seq<Action>)
    requires Safe(s) && s.producer.Holding?
    ensures Gains(s, actions)
  {
    var fill := Fill(20, [], true);
    RunOne(s, fill);
    var t := Step(s, fill).state;
    RunOne(t, Commit);
    actions := [fill] + [Commit];
    GainsAfter(s, [fill], t, [Commit]);
  }

  lemma UnrefusedGains(s: State)
    requires Safe(s) && Quiet(s) && !Refused(s)
    ensures Gains(s, Actions(Produce(20, [])))
  {
    RoundIsActions(s, Produce(20, []));
  }

  lemma {:induction false} ConsumersAccept(s: State, k: nat)
    requires Bounded(s)
    ensures Rounds(s, ConsumerRounds(k)).log.accepted == s.log.accepted
    decreases k
  {
    if k > 0 {
      FirstConsumerRound(s, k - 1);
      ConsumersAccept(Consumed(s), k - 1);
    }
  }

  lemma QuietGains(s: State) returns (actions: seq<Action>)
    requires Safe(s) && Quiet(s) && !Stalled(s)
    ensures Gains(s, actions)
  {
    var produce := Actions(Produce(20, []));
    UnrefusedOrFull(s);
    if !Refused(s) {
      return produce;
    }
    var t := Produced(s, 20, []);
    var k := HealingRounds(t);
    var rounds := ConsumerRounds(k);
    RoundsAreActions(t, rounds);
    ConsumersAccept(t, k);
    UnrefusedGains(Rounds(t, rounds));
    GainsAfter(t, AllActions(rounds), Rounds(t, rounds), produce);
    actions := produce + (AllActions(rounds) + produce);
    GainsAfter(s, produce, t, AllActions(rounds) + produce);
  }

  lemma UnrefusedOrFull(s: State)
    requires Safe(s) && Quiet(s)
    ensures if !Refused(s) then Gains(s, Actions(Produce(20, [])))
            else
              var t := Produced(s, 20, []);
              && Run(s, Actions(Produce(20, []))) == Running(t) && Safe(t) && Quiet(t)
              && t == s.(full := true)
  {
    RoundIsActions(s, Produce(20, []));
  }

  /** The producer tries, and the consumer that has found the ring empty looks at `full`. */
  lemma DrainedGains(s: State) returns (actions: seq<Action>)
    requires Safe(s) && s.producer.Free? && s.consumer.Drained?
    ensures Gains(s, actions)
  {
    RunOne(s, Push);
    var t := Step(s, Push).state;
    if t.producer.Holding? {
      actions := HoldingGains(t);
    } else {
      RunOne(t, Recheck);
      var u := Step(t, Recheck).state;
      UnrefusedGains(u);
      GainsAfter(t, [Recheck], u, Actions(Produce(20, [])));
      actions := [Recheck] + Actions(Produce(20, []));
    }
    GainsAfter(s, [Push], t, actions);
    actions := [Push] + actions;
  }

  /**
   * Exactly when the ring can go on: from every state that interleaved runs reach, some
   * interleaving accepts another packet unless the ring is stalled, and then none does.
   */
  lemma GainsUnlessStalled(s: State)
    requires Safe(s)
    ensures (exists actions :: Gains(s, actions)) <==> !Stalled(s)
  {
    if Stalled(s) {
      forall actions: seq<Action> ensures !Gains(s, actions) {
        StallIsPermanent(s, actions);
      }
    } else if s.producer.Holding? {
      var actions := HoldingGains(s);
    } else if s.consumer.Drained? {
      var actions := DrainedGains(s);
    } else if s.consumer.Reading? {
      RunOne(s, Release);
      var t := Step(s, Release).state;
      var actions := QuietGains(t);
      GainsAfter(s, [Release], t, actions);
    } else {
      var actions := QuietGains(s);
    }
  }

  // ----- The stall is reachable in a ring of any size -----

  /** n times over: one packet in, one packet out. */
  function Pairs(n: nat, len: int, frame: Frame): seq<Op> {
    if n == 0 then [] else [Produce(len, frame), Consume] + Pairs(n - 1, len, frame)
  }

  /** An empty ring whose two positions have both moved to j. */
  predicate EmptyAt(s: State, j: nat) {
    Bounded(s) && s.inPos == j == s.outPos && s.sz == 0 && !s.full && s.producer.Free? && s.consumer.Ready?
  }

  lemma TwoRounds(s: State, a: Op, b: Op, rest: seq<Op>)
    requires Bounded(s)
    ensures Rounds(s, [a, b] + rest) == Rounds(Round(Round(s, a), b), rest)
  {
    assert ([a, b] + rest)[1..] == [b] + rest;
    assert ([b] + rest)[1..] == rest;
    assert Rounds(s, [a, b] + rest) == Rounds(Round(s, a), [b] + rest);
  }

  lemma {:induction false} PairsAdvance(s: State, j: nat, n: nat, len: int, frame: Frame, rest: seq<Op>)
    returns (t: State)
    requires EmptyAt(s, j) && j + n <= s.rsz - 1
    ensures EmptyAt(t, j + n) && t.rsz == s.rsz
    ensures Rounds(s, Pairs(n, len, frame) + rest) == Rounds(t, rest)
    decreases n
  {
    if n == 0 {
      assert Pairs(0, len, frame) + rest == rest;
      return s;
    }
    var tail := Pairs(n - 1, len, frame) + rest;
    assert Pairs(n, len, frame) + rest == [Produce(len, frame), Consume] + tail;
    TwoRounds(s, Produce(len, frame), Consume, tail);
    var u := Round(Round(s, Produce(len, frame)), Consume);
    t := PairsAdvance(u, j + 1, n - 1, len, frame, rest);
  }

  /** rsz - 1 packets go through one at a time; the next one is lost and the ring is stuck. */
  function StallingOps(rsz: nat, len: int, frame: Frame): seq<Op>
    requires rsz >= 1
  {
    Pairs(rsz - 1, len, frame) + ([Produce(len, frame), Consume] + [Consume])
  }

  /**
   * In a ring of any size, with packets of any kind, sending rsz packets one at a time and
   * polling once more stalls the ring for good, with its last packet never passed on.
   */
  lemma StallReachable(rsz: nat, len: int, frame: Frame)
    requires 3 <= rsz < TWO_TO_THE_31
    ensures Stalled(Rounds(Init(rsz), StallingOps(rsz, len, frame)))
  {
    var last := [Produce(len, frame), Consume] + [Consume];
    var s := PairsAdvance(Init(rsz), 0, rsz - 1, len, frame, last);
    TwoRounds(s, Produce(len, frame), Consume, [Consume]);
    var t := Round(Round(s, Produce(len, frame)), Consume);
    assert [Consume][1..] == [];
    assert Rounds(t, [Consume]) == Rounds(Round(t, Consume), []);
  }
}
