/**
 * Conservation: where every packet that the ring accepted is, in every interleaved run, and
 * when none is lost to the producer writing over it.
 */
module RingAccounts {
  import opened Bytes
  import opened RingModel
  import opened RingSafety
  import opened RingAtomic
  import opened RingOrder

  // ----- Every packet is in one place -----

  function One(b: bool): nat {
    if b then 1 else 0
  }

  /** In how many of the five places a packet is. */
  ghost function Places(s: State, id: nat): nat
    requires WellFormed(s)
  {
    One(id in s.log.ids) + One(id in Waiting(s)) + One(id in s.log.parked) + One(id in s.log.dropped)
    + One(id in s.log.lost)
  }

  ghost predicate Accountable(s: State)
    requires WellFormed(s)
  {
    && (forall id: nat :: Places(s, id) > 0 ==> id < |s.log.accepted|)
    && (forall id: nat :: id < |s.log.accepted| && s.log.accepted[id].len > SHORTEST ==> Places(s, id) == 1)
  }

  lemma UnsentIsLive(s: State)
    requires Safe(s)
    ensures forall i: nat :: i < s.rsz && Unsent(s, i) ==> Live(s, i) && s.log.stamps[i] in Waiting(s)
    ensures forall i: nat, j: nat :: i < j < s.rsz && Unsent(s, i) && Unsent(s, j) ==>
              s.log.stamps[i] != s.log.stamps[j]
  {
  }

  /** What a step does to the waiting packets when it changes slot p alone. */
  lemma WaitingWithout(s: State, t: State, p: nat)
    requires Safe(s) && WellFormed(t) && t.rsz == s.rsz && p < s.rsz
    requires forall i: nat :: i < s.rsz && i != p ==>
               Unsent(t, i) == Unsent(s, i) && t.log.stamps[i] == s.log.stamps[i]
    requires !Unsent(t, p)
    ensures Waiting(t) == Waiting(s) - if Unsent(s, p) then {s.log.stamps[p]} else {}
  {
    UnsentIsLive(s);
    forall id | id in Waiting(s) && !(Unsent(s, p) && id == s.log.stamps[p]) ensures id in Waiting(t) {
      var i: nat :| i < s.rsz && Unsent(s, i) && s.log.stamps[i] == id;
      assert Unsent(t, i);
    }
    forall id | id in Waiting(t) ensures id in Waiting(s) && !(Unsent(s, p) && id == s.log.stamps[p]) {
      var i: nat :| i < s.rsz && Unsent(t, i) && t.log.stamps[i] == id;
      assert Unsent(s, i);
    }
  }

  lemma PushAccountable(s: State)
    requires Safe(s) && Accountable(s) && s.producer.Free?
    ensures DoPush(s).Running? && WellFormed(DoPush(s).state) && Accountable(DoPush(s).state)
  {
    PushSearchBounded(s);
    var p, t := PushScan(s.locks, s.inPos), DoPush(s).state;
    if t.producer.Holding? {
      assert !Unsent(t, p);
      WaitingWithout(s, t, p);
      UnsentIsLive(s);
    } else {
      assert Waiting(t) == Waiting(s);
    }
    assert forall id: nat :: Places(t, id) == Places(s, id);
  }

  lemma FillAccountable(s: State, len: int, frame: Frame, kept: bool)
    requires Safe(s) && Accountable(s) && s.producer.Holding?
    ensures Accountable(DoFill(s, len, frame, kept))
  {
    var t := DoFill(s, len, frame, kept);
    WaitingWithout(s, t, s.producer.slot);
    assert forall id: nat :: Places(t, id) == Places(s, id);
  }

  lemma CommitAccountable(s: State)
    requires Safe(s) && Accountable(s) && s.producer.Holding?
    ensures Accountable(DoCommit(s))
    ensures var p, t, id := s.producer.slot, DoCommit(s), |s.log.accepted|;
            && t.log.accepted[..id] == s.log.accepted
            && Waiting(t) == Waiting(s) + (if p < s.rsz - 1 && s.lens[p] > SHORTEST then {id} else {})
            && t.log.parked == s.log.parked + (if p == s.rsz - 1 then {id} else {})
            && t.log.ids == s.log.ids && t.log.dropped == s.log.dropped && t.log.lost == s.log.lost
            && forall k: nat :: k != id ==> Places(t, k) == Places(s, k)
  {
    var p, t, id := s.producer.slot, DoCommit(s), |s.log.accepted|;
    assert Waiting(t) == Waiting(s) + if Unsent(t, p) then {id} else {} by {
      assert ProducerHolds(s, p);
      forall i: nat | i < s.rsz && i != p ensures Unsent(t, i) == Unsent(s, i) {
      }
      forall k | k in Waiting(s) ensures k in Waiting(t) {
        var i: nat :| i < s.rsz && Unsent(s, i) && s.log.stamps[i] == k;
        assert Unsent(t, i) && t.log.stamps[i] == k;
      }
    }
    assert Places(s, id) == 0;
    assert forall k: nat :: k != id ==> Places(t, k) == Places(s, k);
    assert t.log.accepted[id].len > SHORTEST ==> Unsent(t, p) || p == s.rsz - 1;
  }

  lemma ReleaseAccountable(s: State)
    requires Safe(s) && Accountable(s) && s.consumer.Reading?
    ensures Accountable(DoRelease(s))
    ensures var c, t := s.consumer.slot, DoRelease(s);
            && (s.lens[c] > SHORTEST ==>
                  && s.log.stamps[c] in Waiting(s)
                  && Waiting(t) == Waiting(s) - {s.log.stamps[c]}
                  && t.log.ids == s.log.ids + [s.log.stamps[c]])
            && (s.lens[c] <= SHORTEST ==> Waiting(t) == Waiting(s) && t.log.ids == s.log.ids)
            && t.log.parked == s.log.parked && t.log.dropped == s.log.dropped && t.log.lost == s.log.lost
            && forall k: nat :: Places(t, k) == Places(s, k)
  {
    var c, t := s.consumer.slot, DoRelease(s);
    assert ConsumerHolds(s, c) && !ProducerHolds(s, c);
    WaitingWithout(s, t, c);
    UnsentIsLive(s);
    assert Unsent(s, c) == (s.lens[c] > SHORTEST);
    forall id: nat ensures Places(t, id) == Places(s, id) {
      if s.lens[c] > SHORTEST {
        assert Stamped(s, c);
        assert id in t.log.ids <==> id in s.log.ids || id == s.log.stamps[c];
      }
    }
  }

  /** A reset moves the waiting packets to the dropped ones. */
  lemma OthersAccountable(s: State, a: Action)
    requires Safe(s) && Accountable(s)
    requires a.Pop? || a.Recheck? || a.Wake?
    ensures Step(s, a).Running? && WellFormed(Step(s, a).state) && Accountable(Step(s, a).state)
  {
    StepSafe(s, a);
    var t := Step(s, a).state;
    if a.Recheck? && s.consumer.Drained? && s.full {
      assert Waiting(t) == {};
      assert t.log.dropped == s.log.dropped + Waiting(s);
    } else {
      assert t.log == s.log;
      assert forall i: nat :: i < s.rsz ==> Unsent(t, i) == Unsent(s, i);
      assert Waiting(t) == Waiting(s);
      assert forall id: nat :: Places(t, id) == Places(s, id);
    }
  }

  lemma StepAccountable(s: State, a: Action)
    requires Safe(s) && Accountable(s)
    ensures Step(s, a).Running? && WellFormed(Step(s, a).state) && Accountable(Step(s, a).state)
  {
    match a
    case Push => if s.producer.Free? { PushAccountable(s); }
    case Fill(len, frame, kept) => if s.producer.Holding? { FillAccountable(s, len, frame, kept); }
    case Commit => if s.producer.Holding? && s.producer.filled { CommitAccountable(s); }
    case Release => if s.consumer.Reading? { ReleaseAccountable(s); }
    case _ => OthersAccountable(s, a);
  }

  lemma {:induction false} RunAccountable(s: State, actions: seq<Action>)
    requires Safe(s) && Accountable(s)
    ensures Run(s, actions).Running? && Safe(Run(s, actions).state) && Accountable(Run(s, actions).state)
    decreases |actions|
  {
    if actions != [] {
      StepSafe(s, actions[0]);
      StepAccountable(s, actions[0]);
      RunAccountable(Step(s, actions[0]).state, actions[1..]);
    }
  }

  /**
   * Nothing vanishes: in every interleaving of the two threads, whatever they do, from every
   * start with `in` inside the ring, each accepted packet longer than 14 bytes was sent, or
   * lies in a slot the consumer visits, or went into the ring's last slot, or was thrown away
   * by a reset, or was written over by the producer; and only one of these.
   */
  lemma Conservation(rsz: nat, inPos: nat, outPos: nat, sz: nat, actions: seq<Action>, id: nat)
    requires ValidStart(rsz, inPos, outPos, sz) && inPos < rsz
    requires Run(Started(rsz, inPos, outPos, sz), actions).Running?
    requires var log := Run(Started(rsz, inPos, outPos, sz), actions).state.log;
             id < |log.accepted| && log.accepted[id].len > SHORTEST
    ensures var s := Run(Started(rsz, inPos, outPos, sz), actions).state;
            WellFormed(s) && Places(s, id) == 1
  {
    StartSafe(rsz, inPos, outPos, sz);
    assert Waiting(Started(rsz, inPos, outPos, sz)) == {};
    RunAccountable(Started(rsz, inPos, outPos, sz), actions);
  }

  // ----- When nothing is lost -----

  /** A reset falls between a push and its commit. */
  predicate Displaces(s: State, a: Action) {
    a == Recheck && s.consumer.Drained? && s.full && s.producer.Holding?
  }

  /** A run in which no push steps over a held slot and no reset falls between push and commit. */
  predicate Calm(s: State, actions: seq<Action>)
    requires WellFormed(s)
    decreases |actions|
  {
    actions == [] ||
    (!StepsOver(s, actions[0]) && !Displaces(s, actions[0]) &&
     (StepWellFormed(s, actions[0]);
      Step(s, actions[0]).Running? ==> Calm(Step(s, actions[0]).state, actions[1..])))
  }

  /** A run in which no reset falls between a push and its commit. */
  predicate Undisplaced(s: State, actions: seq<Action>)
    requires WellFormed(s)
    decreases |actions|
  {
    actions == [] ||
    (!Displaces(s, actions[0]) &&
     (StepWellFormed(s, actions[0]);
      Step(s, actions[0]).Running? ==> Undisplaced(Step(s, actions[0]).state, actions[1..])))
  }

  /** Calm runs are those with neither event. */
  lemma {:induction false} CalmIsBoth(s: State, actions: seq<Action>)
    requires WellFormed(s)
    ensures Calm(s, actions) <==> Undisturbed(s, actions) && Undisplaced(s, actions)
    decreases |actions|
  {
    if actions != [] {
      StepWellFormed(s, actions[0]);
      if Step(s, actions[0]).Running? {
        CalmIsBoth(Step(s, actions[0]).state, actions[1..]);
      }
    }
  }

  /**
   * The starts whose `out` and `sz` leave no way around the guard of `push`: it compares `in`
   * with `out - 1`, which is never equal while `out` is 0 or more than rsz, so that until the
   * first packet is taken only `sz` keeps the producer from lapping the consumer.
   */
  predicate GoodStart(rsz: nat, inPos: nat, outPos: nat, sz: nat) {
    && (outPos == 0 ==> inPos <= sz || inPos == rsz - 1)
    && (outPos > rsz ==> inPos <= sz + 1 || inPos == rsz - 1)
  }

  ghost predicate NoneCommitted(s: State)
    requires WellFormed(s)
  {
    forall i: nat :: !Committed(s, i)
  }

  /** While the guard is out of action, `sz` stops the producer before it laps the consumer. */
  ghost predicate Counting(s: State)
    requires WellFormed(s)
  {
    && (s.outPos == 0 ==> s.inPos <= s.sz || (s.inPos == s.rsz - 1 && NoneCommitted(s)))
    && (s.outPos > s.rsz ==> s.inPos <= s.sz + 1 || (s.inPos == s.rsz - 1 && NoneCommitted(s)))
  }

  /** Before anything was taken, packets lie below `in`, or the producer has just wrapped and `sz` is full. */
  predicate Below(s: State, i: nat) {
    i < s.inPos || (s.inPos == 0 && s.sz >= s.rsz - 1)
  }

  ghost predicate Tidy(s: State) {
    && Safe(s)
    && s.log.lost == {}
    && (s.producer.Holding? ==> s.producer.slot == s.inPos && s.outPos != s.inPos + 1)
    && (s.consumer.Reading? ==> s.outPos == s.consumer.slot + 1)
    && Counting(s)
    && (forall i: nat :: Committed(s, i) ==> if Beyond(s) then Below(s, i) else InRange(s, i))
  }

  lemma StartTidy(rsz: nat, inPos: nat, outPos: nat, sz: nat)
    requires ValidStart(rsz, inPos, outPos, sz) && inPos < rsz && GoodStart(rsz, inPos, outPos, sz)
    ensures Tidy(Started(rsz, inPos, outPos, sz))
  {
    StartSafe(rsz, inPos, outPos, sz);
    assert NoneCommitted(Started(rsz, inPos, outPos, sz));
  }

  /** A push that is accepted never claims a slot whose packet is still waiting. */
  lemma NoOverwrite(s: State)
    requires Tidy(s) && s.producer.Free? && !ConsumerHolds(s, s.inPos)
    ensures DoPush(s).Running?
    ensures DoPush(s).state.producer.Holding? ==> !Unsent(s, DoPush(s).state.producer.slot)
  {
    PushSearchBounded(s);
    if Unsent(s, s.inPos) {
      assert Committed(s, s.inPos);
    }
  }

  lemma PushTidy(s: State)
    requires Tidy(s) && s.producer.Free? && !ConsumerHolds(s, s.inPos)
    ensures DoPush(s).Running? && Tidy(DoPush(s).state)
  {
    PushSafe(s);
    NoOverwrite(s);
    PushSearchBounded(s);
    var t := DoPush(s).state;
    assert forall i: nat :: Committed(t, i) ==> Committed(s, i) && InRange(t, i) == InRange(s, i);
  }

  lemma FillTidy(s: State, len: int, frame: Frame, kept: bool)
    requires Tidy(s) && s.producer.Holding?
    ensures Tidy(DoFill(s, len, frame, kept))
  {
    FillSafe(s, len, frame, kept);
    var t := DoFill(s, len, frame, kept);
    assert ProducerHolds(s, s.producer.slot) && ProducerHolds(t, s.producer.slot);
    assert forall i: nat :: Committed(t, i) <==> Committed(s, i);
    assert forall i: nat :: InRange(t, i) == InRange(s, i) && Below(t, i) == Below(s, i);
  }

  lemma CommitTidy(s: State)
    requires Tidy(s) && s.producer.Holding?
    ensures Tidy(DoCommit(s))
  {
    CommitSafe(s);
    var t, p := DoCommit(s), s.producer.slot;
    assert ProducerHolds(s, p);
    assert forall i: nat :: Committed(t, i) && i != p ==> Committed(s, i);
    forall i: nat | Committed(t, i)
      ensures if Beyond(t) then Below(t, i) else InRange(t, i)
    {
      if i != p {
        assert Committed(s, i);
      }
    }
  }

  /** A pop takes a slot of its own and leaves the others in range. */
  lemma PopInRange(s: State, i: nat)
    requires Tidy(s) && s.consumer.Ready? && s.sz >= 1 && s.inPos != s.outPos
    requires DoPop(s).Running? && WellFormed(DoPop(s).state) && Committed(DoPop(s).state, i)
    ensures !Beyond(DoPop(s).state) && InRange(DoPop(s).state, i)
  {
    PopSearchBounded(s);
    assert Committed(s, i);
  }

  lemma PopTidy(s: State)
    requires Tidy(s) && s.consumer.Ready?
    ensures DoPop(s).Running? && Tidy(DoPop(s).state)
  {
    PopSafe(s);
    var t := DoPop(s).state;
    if s.sz >= 1 && s.inPos != s.outPos {
      PopSearchBounded(s);
      forall i: nat | Committed(t, i) ensures !Beyond(t) && InRange(t, i) {
        PopInRange(s, i);
      }
    } else {
      assert forall i: nat :: Committed(t, i) ==> Committed(s, i);
    }
  }

  lemma OthersTidy(s: State, a: Action)
    requires Tidy(s) && !Displaces(s, a)
    requires a.Recheck? || a.Wake? || a.Release?
    ensures Step(s, a).Running? && Tidy(Step(s, a).state)
  {
    StepSafe(s, a);
    var t := Step(s, a).state;
    if a.Release? && s.consumer.Reading? {
      assert ConsumerHolds(s, s.consumer.slot);
    }
    assert forall i: nat :: Committed(t, i) ==> Committed(s, i);
  }

  lemma StepTidy(s: State, a: Action)
    requires Tidy(s) && !StepsOver(s, a) && !Displaces(s, a)
    ensures Step(s, a).Running? && Tidy(Step(s, a).state)
  {
    match a
    case Push => if s.producer.Free? { PushTidy(s); }
    case Fill(len, frame, kept) => if s.producer.Holding? { FillTidy(s, len, frame, kept); }
    case Commit => if s.producer.Holding? { CommitTidy(s); }
    case Pop => if s.consumer.Ready? { PopTidy(s); }
    case _ => OthersTidy(s, a);
  }

  lemma {:induction false} RunTidy(s: State, actions: seq<Action>)
    requires Tidy(s) && Calm(s, actions)
    ensures Run(s, actions).Running? && Tidy(Run(s, actions).state)
    decreases |actions|
  {
    if actions != [] {
      StepTidy(s, actions[0]);
      RunTidy(Step(s, actions[0]).state, actions[1..]);
    }
  }

  /**
   * From a good start no packet is ever written over before the consumer has come to it, in
   * any interleaving in which no push steps over a held slot and no reset falls between a push
   * and its commit.
   */
  lemma NothingLost(rsz: nat, inPos: nat, outPos: nat, sz: nat, actions: seq<Action>)
    requires ValidStart(rsz, inPos, outPos, sz) && inPos < rsz && GoodStart(rsz, inPos, outPos, sz)
    requires Calm(Started(rsz, inPos, outPos, sz), actions)
    ensures Run(Started(rsz, inPos, outPos, sz), actions).Running?
    ensures Run(Started(rsz, inPos, outPos, sz), actions).state.log.lost == {}
  {
    StartTidy(rsz, inPos, outPos, sz);
    RunTidy(Started(rsz, inPos, outPos, sz), actions);
  }

  // ----- Whole rounds: exactly which starts lose nothing -----

  lemma {:induction false} NoPushCalm(s: State, actions: seq<Action>)
    requires WellFormed(s) && Push !in actions && (s.producer.Free? || Recheck !in actions)
    ensures Calm(s, actions)
    decreases |actions|
  {
    if actions != [] {
      assert actions[0] in actions;
      assert forall a :: a in actions[1..] ==> a in actions;
      StepWellFormed(s, actions[0]);
      if Step(s, actions[0]).Running? {
        NoPushCalm(Step(s, actions[0]).state, actions[1..]);
      }
    }
  }

  lemma RoundCalm(s: State, op: Op)
    requires Safe(s) && Quiet(s)
    ensures Calm(s, Actions(op))
  {
    var xs := Actions(op);
    StepSafe(s, xs[0]);
    NoPushCalm(Step(s, xs[0]).state, xs[1..]);
  }

  lemma {:induction false} RoundsTidy(s: State, ops: seq<Op>)
    requires Tidy(s) && Quiet(s)
    ensures Tidy(Rounds(s, ops))
    decreases |ops|
  {
    if ops != [] {
      RoundIsActions(s, ops[0]);
      RoundCalm(s, ops[0]);
      RunTidy(s, Actions(ops[0]));
      RoundsTidy(Round(s, ops[0]), ops[1..]);
    }
  }

  /** The producer comes round to a slot whose packet is still waiting. */
  lemma Overtakes(s: State)
    requires Bounded(s) && !Refused(s) && Unsent(s, s.inPos)
    ensures Rounds(s, [Produce(20, [])]).log.lost != {}
  {
    RoundFirst(s, Produce(20, []), []);
    assert s.log.stamps[s.inPos] in Produced(s, 20, []).log.lost;
  }

  /** `out` starts as 0 and `sz` below `in`: with the producer back at slot 0 the ring looks empty. */
  lemma WrapsToZero(rsz: nat, inPos: nat, sz: nat, rest: seq<Op>) returns (t: State)
    requires ValidStart(rsz, inPos, 0, sz) && sz < inPos <= rsz - 2
    ensures Bounded(t) && t.rsz == rsz && t.inPos == 0 && t.outPos == 0 && t.sz == 0
    ensures t.producer.Free? && !t.full && t.lens[inPos] == 20
    ensures Rounds(Started(rsz, inPos, 0, sz), Produces(rsz - inPos) + ([Consume] + rest)) == Rounds(t, rest)
  {
    var u := Climb(Started(rsz, inPos, 0, sz), rsz - inPos, [Consume] + rest);
    RoundFirst(u, Consume, rest);
    t := Consumed(u);
  }

  lemma BadZeroStart(rsz: nat, inPos: nat, sz: nat) returns (ops: seq<Op>)
    requires ValidStart(rsz, inPos, 0, sz) && sz < inPos <= rsz - 2
    ensures Rounds(Started(rsz, inPos, 0, sz), ops).log.lost != {}
  {
    var last := [Produce(20, [])];
    ops := Produces(rsz - inPos) + ([Consume] + (Produces(inPos) + last));
    var t := WrapsToZero(rsz, inPos, sz, Produces(inPos) + last);
    var u := Climb(t, inPos, last);
    assert Unsent(u, inPos);
    Overtakes(u);
  }

  /** `out` is far outside and `in` 1: taking slot 0 makes the ring look empty. */
  lemma LooksEmpty(s: State, rest: seq<Op>) returns (t: State)
    requires Bounded(s) && s.inPos == 1 && s.outPos >= s.rsz && s.sz >= 1 && s.consumer.Ready? && !s.full
    ensures Bounded(t) && t.rsz == s.rsz && t.inPos == 1 && t.outPos == 1 && t.sz == 0
    ensures t.producer == s.producer
    ensures forall k: nat :: 0 < k < s.rsz ==> t.lens[k] == s.lens[k]
    ensures Rounds(s, [Consume] + ([Consume] + rest)) == Rounds(t, rest)
  {
    RoundFirst(s, Consume, [Consume] + rest);
    RoundFirst(Consumed(s), Consume, rest);
    t := Consumed(Consumed(s));
  }

  /** `out` starts far outside, and `sz` lets the producer wrap to slot 1. */
  lemma WrapsToOne(rsz: nat, inPos: nat, outPos: nat, sz: nat, rest: seq<Op>) returns (t: State)
    requires ValidStart(rsz, inPos, outPos, sz) && outPos > rsz && sz + 1 < inPos <= rsz - 2
    ensures Bounded(t) && t.rsz == rsz && t.inPos == 1 && t.outPos == outPos && t.sz >= 1
    ensures t.consumer.Ready? && t.producer.Free? && !t.full && t.lens[inPos] == 20
    ensures Rounds(Started(rsz, inPos, outPos, sz), Produces(rsz - inPos) + (Produces(1) + rest)) == Rounds(t, rest)
  {
    var s := Started(rsz, inPos, outPos, sz);
    var u := Climb(s, rsz - inPos, Produces(1) + rest);
    t := Climb(u, 1, rest);
  }

  lemma BadFarStart(rsz: nat, inPos: nat, outPos: nat, sz: nat) returns (ops: seq<Op>)
    requires ValidStart(rsz, inPos, outPos, sz) && outPos > rsz && sz + 1 < inPos <= rsz - 2
    ensures Rounds(Started(rsz, inPos, outPos, sz), ops).log.lost != {}
  {
    var last := [Produce(20, [])];
    var back := Produces(inPos - 1) + last;
    ops := Produces(rsz - inPos) + (Produces(1) + ([Consume] + ([Consume] + back)));
    var t := WrapsToOne(rsz, inPos, outPos, sz, [Consume] + ([Consume] + back));
    var u := LooksEmpty(t, back);
    var v := Climb(u, inPos - 1, last);
    assert Unsent(v, inPos);
    Overtakes(v);
  }

  /**
   * Exactly from which starts whole rounds lose nothing: from the good ones. From every other
   * start some run of rounds writes over a packet that the consumer has yet to come to.
   */
  lemma LosslessStarts(rsz: nat, inPos: nat, outPos: nat, sz: nat)
    requires ValidStart(rsz, inPos, outPos, sz) && inPos < rsz
    ensures (forall ops :: Rounds(Started(rsz, inPos, outPos, sz), ops).log.lost == {}) <==>
              GoodStart(rsz, inPos, outPos, sz)
  {
    if GoodStart(rsz, inPos, outPos, sz) {
      StartTidy(rsz, inPos, outPos, sz);
      forall ops: seq<Op> ensures Rounds(Started(rsz, inPos, outPos, sz), ops).log.lost == {} {
        RoundsTidy(Started(rsz, inPos, outPos, sz), ops);
      }
    } else if outPos == 0 {
      var ops := BadZeroStart(rsz, inPos, sz);
    } else {
      var ops := BadFarStart(rsz, inPos, outPos, sz);
    }
  }

  /** So whole rounds from a good start leave each packet longer than 14 bytes in one of four places. */
  lemma RoundsConserve(rsz: nat, inPos: nat, outPos: nat, sz: nat, ops: seq<Op>, id: nat)
    requires ValidStart(rsz, inPos, outPos, sz) && inPos < rsz && GoodStart(rsz, inPos, outPos, sz)
    requires var log := Rounds(Started(rsz, inPos, outPos, sz), ops).log;
             id < |log.accepted| && log.accepted[id].len > SHORTEST
    ensures var s := Rounds(Started(rsz, inPos, outPos, sz), ops);
            WellFormed(s) && Places(s, id) == 1 && id !in s.log.lost
  {
    StartSafe(rsz, inPos, outPos, sz);
    RoundsAreActions(Started(rsz, inPos, outPos, sz), ops);
    Conservation(rsz, inPos, outPos, sz, AllActions(ops), id);
    LosslessStarts(rsz, inPos, outPos, sz);
  }
}
