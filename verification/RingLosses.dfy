/**
 * When the producer writes over a packet that the consumer has not come to: only over strays,
 * unless a push steps over a held slot; and both events that RingAccounts.NothingLost excludes
 * do lose packets.
 */
module RingLosses {
  import opened Bytes
  import opened RingModel
  import opened RingSafety
  import opened RingAtomic
  import opened RingOrder
  import opened RingAccounts
  import opened RingReorder

  // ----- What awaits the consumer is never written over -----

  /** Slot i holds a committed packet, and the consumer will come to it. */
  predicate Expected(s: State, i: nat)
    requires WellFormed(s)
  {
    Committed(s, i) && if Beyond(s) then Below(s, i) else InRange(s, i)
  }

  /** What undisturbed runs from a good start keep, also when a reset falls between push and commit. */
  ghost predicate Mild(s: State) {
    Orderly(s) && Counting(s) && (Beyond(s) ==> forall i: nat :: Committed(s, i) ==> Below(s, i))
  }

  lemma StartMild(rsz: nat, inPos: nat, outPos: nat, sz: nat)
    requires ValidStart(rsz, inPos, outPos, sz) && inPos < rsz && GoodStart(rsz, inPos, outPos, sz)
    ensures Mild(Started(rsz, inPos, outPos, sz))
  {
    StartOrderly(rsz, inPos, outPos, sz);
    StartTidy(rsz, inPos, outPos, sz);
  }

  /** Counting, and the slots below `in`, for a step. */
  ghost predicate Counted(t: State)
    requires WellFormed(t)
  {
    Counting(t) && (Beyond(t) ==> forall i: nat :: Committed(t, i) ==> Below(t, i))
  }

  lemma CommitCounted(s: State)
    requires Mild(s) && s.producer.Holding?
    ensures Counted(DoCommit(s))
  {
    var t, p := DoCommit(s), s.producer.slot;
    assert ProducerHolds(s, p);
    assert forall i: nat :: Committed(t, i) && i != p ==> Committed(s, i);
  }

  lemma PopCounted(s: State)
    requires Mild(s) && s.consumer.Ready?
    ensures DoPop(s).Running? && WellFormed(DoPop(s).state) && Counted(DoPop(s).state)
  {
    if s.sz >= 1 && s.inPos != s.outPos {
      PopSearchBounded(s);
    }
    var t := DoPop(s).state;
    assert forall i: nat :: Committed(t, i) ==> Committed(s, i);
  }

  lemma PushCounted(s: State)
    requires Mild(s) && s.producer.Free? && !ConsumerHolds(s, s.inPos)
    ensures DoPush(s).Running? && WellFormed(DoPush(s).state) && Counted(DoPush(s).state)
  {
    PushSearchBounded(s);
    var t := DoPush(s).state;
    assert t.inPos == s.inPos && t.outPos == s.outPos && t.sz == s.sz;
    assert forall i: nat :: Committed(t, i) ==> Committed(s, i);
  }

  lemma FillCounted(s: State, len: int, frame: Frame, kept: bool)
    requires Mild(s) && s.producer.Holding?
    ensures Counted(DoFill(s, len, frame, kept))
  {
    var t := DoFill(s, len, frame, kept);
    assert ProducerHolds(s, s.producer.slot) && ProducerHolds(t, s.producer.slot);
    assert forall i: nat :: Committed(t, i) ==> Committed(s, i);
  }

  lemma OthersCounted(s: State, a: Action)
    requires Mild(s) && (a.Recheck? || a.Wake? || a.Release?)
    ensures Step(s, a).Running? && WellFormed(Step(s, a).state) && Counted(Step(s, a).state)
  {
    StepSafe(s, a);
    var t := Step(s, a).state;
    if a.Release? && s.consumer.Reading? {
      assert ConsumerHolds(s, s.consumer.slot);
    }
    assert forall i: nat :: Committed(t, i) ==> Committed(s, i);
  }

  lemma StepMild(s: State, a: Action)
    requires Mild(s) && !StepsOver(s, a)
    ensures Step(s, a).Running? && Mild(Step(s, a).state)
  {
    StepOrderly(s, a);
    match a
    case Push => if s.producer.Free? { PushCounted(s); }
    case Fill(len, frame, kept) => if s.producer.Holding? { FillCounted(s, len, frame, kept); }
    case Commit => if s.producer.Holding? { CommitCounted(s); }
    case Pop => if s.consumer.Ready? { PopCounted(s); }
    case _ => OthersCounted(s, a);
  }

  /** A packet that was passed on, dropped, or is in the consumer's hands or on its way. */
  ghost predicate Kept(s: State, id: nat)
    requires WellFormed(s)
  {
    || id in s.log.ids
    || id in s.log.dropped
    || (s.consumer.Reading? && Live(s, s.consumer.slot) && s.log.stamps[s.consumer.slot] == id)
    || exists i: nat :: Expected(s, i) && s.log.stamps[i] == id
  }

  lemma PushKeeps(s: State, i: nat)
    requires Mild(s) && s.producer.Free? && !ConsumerHolds(s, s.inPos) && Expected(s, i)
    ensures DoPush(s).Running? && WellFormed(DoPush(s).state) && Expected(DoPush(s).state, i)
  {
    PushSearchBounded(s);
  }

  lemma CommitKeeps(s: State, i: nat)
    requires Mild(s) && s.producer.Holding? && Expected(s, i)
    ensures Expected(DoCommit(s), i) && DoCommit(s).log.stamps[i] == s.log.stamps[i]
  {
    assert ProducerHolds(s, s.producer.slot);
  }

  lemma PopKeeps(s: State, i: nat)
    requires Mild(s) && s.consumer.Ready? && Expected(s, i)
    ensures DoPop(s).Running? && WellFormed(DoPop(s).state)
    ensures var t := DoPop(s).state;
            t.log == s.log && (Expected(t, i) || (t.consumer == Reading(i) && Live(t, i)))
  {
    if s.sz >= 1 && s.inPos != s.outPos {
      PopSearchBounded(s);
    }
  }

  lemma OthersKeep(s: State, a: Action, i: nat)
    requires Mild(s) && Expected(s, i)
    requires a.Fill? || a.Recheck? || a.Wake? || a.Release?
    ensures Step(s, a).Running? && WellFormed(Step(s, a).state)
    ensures var t := Step(s, a).state;
            s.log.stamps[i] in t.log.dropped || (Expected(t, i) && t.log.stamps == s.log.stamps)
  {
    StepSafe(s, a);
    if a.Recheck? && s.consumer.Drained? && s.full {
      assert Unsent(s, i) && s.log.stamps[i] in Waiting(s);
    }
    if a.Fill? && s.producer.Holding? {
      assert ProducerHolds(s, s.producer.slot);
    }
    if a.Release? && s.consumer.Reading? {
      assert ConsumerHolds(s, s.consumer.slot);
    }
  }

  /** What is expected is kept by every step. */
  lemma ExpectedIsKept(s: State, a: Action, i: nat)
    requires Mild(s) && !StepsOver(s, a) && Expected(s, i)
    ensures Step(s, a).Running? && WellFormed(Step(s, a).state) && Kept(Step(s, a).state, s.log.stamps[i])
  {
    StepSafe(s, a);
    match a
    case Push => if s.producer.Free? { PushKeeps(s, i); }
    case Commit => if s.producer.Holding? { CommitKeeps(s, i); }
    case Pop => if s.consumer.Ready? { PopKeeps(s, i); }
    case _ => OthersKeep(s, a, i);
  }

  /** So is what the consumer holds. */
  lemma HeldIsKept(s: State, a: Action)
    requires Mild(s) && !StepsOver(s, a) && s.consumer.Reading? && Live(s, s.consumer.slot)
    ensures Step(s, a).Running? && WellFormed(Step(s, a).state)
    ensures Kept(Step(s, a).state, s.log.stamps[s.consumer.slot])
  {
    StepSafe(s, a);
    var c := s.consumer.slot;
    assert ConsumerHolds(s, c) && !ProducerHolds(s, c);
    if a.Push? && s.producer.Free? {
      PushSearchBounded(s);
    }
    if s.producer.Holding? {
      assert ProducerHolds(s, s.producer.slot);
    }
  }

  lemma StepKeeps(s: State, a: Action, id: nat)
    requires Mild(s) && !StepsOver(s, a) && Kept(s, id)
    ensures Step(s, a).Running? && WellFormed(Step(s, a).state) && Kept(Step(s, a).state, id)
  {
    StepSafe(s, a);
    if s.consumer.Reading? && Live(s, s.consumer.slot) && s.log.stamps[s.consumer.slot] == id {
      HeldIsKept(s, a);
    } else if i: nat :| Expected(s, i) && s.log.stamps[i] == id {
      ExpectedIsKept(s, a, i);
    }
  }

  lemma {:induction false} RunKeeps(s: State, actions: seq<Action>, id: nat)
    requires Mild(s) && Undisturbed(s, actions) && Kept(s, id)
    ensures Run(s, actions).Running? && Mild(Run(s, actions).state) && Kept(Run(s, actions).state, id)
    decreases |actions|
  {
    if actions != [] {
      StepMild(s, actions[0]);
      StepKeeps(s, actions[0], id);
      RunKeeps(Step(s, actions[0]).state, actions[1..], id);
    }
  }

  lemma {:induction false} RunMild(s: State, actions: seq<Action>)
    requires Mild(s) && Undisturbed(s, actions)
    ensures Run(s, actions).Running? && Mild(Run(s, actions).state)
    decreases |actions|
  {
    if actions != [] {
      StepMild(s, actions[0]);
      RunMild(Step(s, actions[0]).state, actions[1..]);
    }
  }

  lemma KeptIsNotLost(s: State, id: nat)
    requires Safe(s) && Accountable(s) && Kept(s, id)
    requires id < |s.log.accepted| && s.log.accepted[id].len > SHORTEST
    ensures id !in s.log.lost
  {
    UnsentIsLive(s);
    if s.consumer.Reading? && Live(s, s.consumer.slot) && s.log.stamps[s.consumer.slot] == id {
      assert ConsumerHolds(s, s.consumer.slot) && !ProducerHolds(s, s.consumer.slot);
      assert Unsent(s, s.consumer.slot);
    } else if i: nat :| Expected(s, i) && s.log.stamps[i] == id {
      assert Unsent(s, i);
    }
    assert Places(s, id) == 1;
  }

  lemma {:induction false} AcceptedOnlyGrow(s: State, actions: seq<Action>)
    requires WellFormed(s) && Run(s, actions).Running?
    ensures s.log.accepted <= Run(s, actions).state.log.accepted
    decreases |actions|
  {
    if actions != [] {
      StepWellFormed(s, actions[0]);
      AcceptedOnlyGrow(Step(s, actions[0]).state, actions[1..]);
    }
  }

  /**
   * Only strays are written over. From every good start and in every interleaving in which no
   * push steps over a held slot, resets between push and commit included: a packet that at any
   * time lies where the consumer will come to it is never written over after that.
   */
  lemma OnlyStraysAreLost(rsz: nat, inPos: nat, outPos: nat, sz: nat, xs: seq<Action>, ys: seq<Action>, i: nat)
    requires ValidStart(rsz, inPos, outPos, sz) && inPos < rsz && GoodStart(rsz, inPos, outPos, sz)
    requires Undisturbed(Started(rsz, inPos, outPos, sz), xs)
    requires Run(Started(rsz, inPos, outPos, sz), xs).Running?
    requires var s := Run(Started(rsz, inPos, outPos, sz), xs).state;
             WellFormed(s) && Expected(s, i) && Undisturbed(s, ys)
    ensures var s := Run(Started(rsz, inPos, outPos, sz), xs).state;
            Run(s, ys).Running? && s.log.stamps[i] !in Run(s, ys).state.log.lost
  {
    var start := Started(rsz, inPos, outPos, sz);
    StartMild(rsz, inPos, outPos, sz);
    RunMild(start, xs);
    assert Waiting(start) == {};
    RunAccountable(start, xs);
    var s := Run(start, xs).state;
    var id := s.log.stamps[i];
    assert Live(s, i) && Stamped(s, i);
    RunKeeps(s, ys, id);
    RunAccountable(s, ys);
    AcceptedOnlyGrow(s, ys);
    KeptIsNotLost(Run(s, ys).state, id);
  }

  // ----- A reset between push and commit can lose a packet -----

  lemma UndisturbedFirst(s: State, a: Action, rest: seq<Action>, t: State)
    requires WellFormed(s) && Step(s, a) == Running(t) && WellFormed(t)
    requires !StepsOver(s, a) && Undisturbed(t, rest)
    ensures Undisturbed(s, [a] + rest) && Run(s, [a] + rest) == Run(t, rest)
  {
    assert ([a] + rest)[1..] == rest;
  }

  /** The consumer goes up to the last slot, which it does not visit, while `in` is 1. */
  lemma {:induction false} GoUp(s: State, n: nat, rest: seq<Op>) returns (t: State)
    requires Bounded(s) && s.consumer.Ready? && s.inPos == 1
    requires 2 <= s.outPos && s.outPos + n == s.rsz - 1 && s.sz + s.outPos == s.rsz + 1
    ensures Bounded(t) && t.rsz == s.rsz && t.inPos == 1 && t.outPos == t.rsz - 1 && t.sz == 2
    ensures t.consumer == s.consumer && t.producer == s.producer && t.full == s.full
    ensures Rounds(s, Consumes(n) + rest) == Rounds(t, rest)
    decreases n
  {
    if n == 0 {
      assert Consumes(0) + rest == rest;
      return s;
    }
    assert Consumes(n) + rest == [Consume] + (Consumes(n - 1) + rest);
    var u := DescendOnce(s, Consumes(n - 1) + rest);
    t := GoUp(u, n - 1, rest);
  }

  /** Both positions are 1, one slot is counted, and the producer has been turned away. */
  predicate FullAtOne(s: State) {
    && Bounded(s) && s.inPos == 1 && s.outPos == 1 && s.sz == 1 && s.full
    && s.producer.Free? && s.consumer.Ready?
  }

  /** A full ring, the refused packet that sets `full`, and one packet out. */
  lemma RefusedOnce(rsz: nat, rest: seq<Op>) returns (s: State)
    requires 3 <= rsz < TWO_TO_THE_31
    ensures Bounded(s) && s.rsz == rsz && s.inPos == rsz - 1 && s.outPos == 1 && s.sz == rsz - 2 && s.full
    ensures s.producer.Free? && s.consumer.Ready?
    ensures Rounds(Init(rsz), Produces(rsz - 1) + ([Produce(20, [])] + ([Consume] + rest))) == Rounds(s, rest)
  {
    var start := Init(rsz);
    assert start.inPos == 0 && start.sz == 0 && Dec32(start.outPos) >= rsz;
    var a := Climb(start, rsz - 1, [Produce(20, [])] + ([Consume] + rest));
    RoundFirst(a, Produce(20, []), [Consume] + rest);
    s := DescendOnce(Produced(a, 20, []), rest);
  }

  /** Two more packets in, into the last slot and slot 0, and one out between them. */
  lemma WrapOnce(s: State, rest: seq<Op>) returns (t: State)
    requires Bounded(s) && s.rsz >= 3 && s.inPos == s.rsz - 1 && s.outPos == 1 && s.sz == s.rsz - 2 && s.full
    requires s.producer.Free? && s.consumer.Ready?
    ensures Bounded(t) && t.rsz == s.rsz && t.inPos == 1 && t.outPos == 2 && t.sz == t.rsz - 1 && t.full
    ensures t.producer.Free? && t.consumer.Ready?
    ensures Rounds(s, Produces(1) + ([Consume] + (Produces(1) + rest))) == Rounds(t, rest)
  {
    var a := Climb(s, 1, [Consume] + (Produces(1) + rest));
    var b := DescendOnce(a, Produces(1) + rest);
    t := Climb(b, 1, rest);
  }

  lemma ReachFullAtOne(rsz: nat) returns (ops: seq<Op>)
    requires 3 <= rsz < TWO_TO_THE_31
    ensures FullAtOne(Rounds(Init(rsz), ops))
  {
    var last := Consumes(rsz - 3) + [Consume];
    var wrap := Produces(1) + ([Consume] + (Produces(1) + last));
    ops := Produces(rsz - 1) + ([Produce(20, [])] + ([Consume] + wrap));
    var a := RefusedOnce(rsz, wrap);
    var b := WrapOnce(a, last);
    var c := GoUp(b, rsz - 3, [Consume]);
    assert [Consume] == [Consume] + [];
    var d := DescendOnce(c, []);
  }

  /**
   * The consumer finds the ring empty, the producer claims slot 1, the reset sends `in` back to
   * 0, and the packet committed to slot 1 is in the way of the next.
   */
  lemma DisplacedIsLost(s: State) returns (actions: seq<Action>)
    requires Safe(s) && FullAtOne(s)
    ensures Undisturbed(s, actions) && Run(s, actions).Running? && Run(s, actions).state.log.lost != {}
  {
    var fill := Fill(20, [], true);
    StepSafe(s, Pop);
    var a := Step(s, Pop).state;
    PushSearchBounded(a);
    StepSafe(a, Push);
    var b := Step(a, Push).state;
    assert b.producer == Holding(1, false);
    StepSafe(b, Recheck);
    var c := Step(b, Recheck).state;
    StepSafe(c, fill);
    var d := Step(c, fill).state;
    StepSafe(d, Commit);
    var e := Step(d, Commit).state;
    PushSearchBounded(e);
    StepSafe(e, Push);
    var f := Step(e, Push).state;
    assert Unsent(e, 1) && e.log.stamps[1] in f.log.lost;
    UndisturbedFirst(e, Push, [], f);
    UndisturbedFirst(d, Commit, [Push] + [], e);
    UndisturbedFirst(c, fill, [Commit] + ([Push] + []), d);
    UndisturbedFirst(b, Recheck, [fill] + ([Commit] + ([Push] + [])), c);
    UndisturbedFirst(a, Push, [Recheck] + ([fill] + ([Commit] + ([Push] + []))), b);
    UndisturbedFirst(s, Pop, [Push] + ([Recheck] + ([fill] + ([Commit] + ([Push] + [])))), a);
    actions := [Pop] + ([Push] + ([Recheck] + ([fill] + ([Commit] + ([Push] + [])))));
  }

  /** In every ring some run in which no push steps over a held slot writes over a waiting packet. */
  lemma DisplacingLoses(rsz: nat) returns (actions: seq<Action>)
    requires 3 <= rsz < TWO_TO_THE_31
    ensures Undisturbed(Init(rsz), actions)
    ensures Run(Init(rsz), actions).Running? && Run(Init(rsz), actions).state.log.lost != {}
  {
    var ops := ReachFullAtOne(rsz);
    var s := Rounds(Init(rsz), ops);
    StartSafe(rsz, 0, 0, 0);
    RoundsAreActions(Init(rsz), ops);
    RoundsUndisturbed(Init(rsz), ops);
    var tail := DisplacedIsLost(s);
    UndisturbedAppend(Init(rsz), AllActions(ops), tail);
    RunAppend(Init(rsz), AllActions(ops), tail);
    actions := AllActions(ops) + tail;
  }

  // ----- Stepping over a held slot can lose a packet -----

  lemma {:induction false} UndisplacedAppend(s: State, xs: seq<Action>, ys: seq<Action>)
    requires WellFormed(s) && Undisplaced(s, xs)
    requires Run(s, xs).Running? ==> WellFormed(Run(s, xs).state) && Undisplaced(Run(s, xs).state, ys)
    ensures Undisplaced(s, xs + ys)
    decreases |xs|
  {
    if xs == [] {
      assert xs + ys == ys;
    } else {
      assert (xs + ys)[1..] == xs[1..] + ys;
      StepWellFormed(s, xs[0]);
      if Step(s, xs[0]).Running? {
        UndisplacedAppend(Step(s, xs[0]).state, xs[1..], ys);
      }
    }
  }

  lemma {:induction false} NoRecheckUndisplaced(s: State, actions: seq<Action>)
    requires WellFormed(s) && Recheck !in actions
    ensures Undisplaced(s, actions)
    decreases |actions|
  {
    if actions != [] {
      StepWellFormed(s, actions[0]);
      if Step(s, actions[0]).Running? {
        NoRecheckUndisplaced(Step(s, actions[0]).state, actions[1..]);
      }
    }
  }

  lemma {:induction false} RoundsUndisplaced(s: State, ops: seq<Op>)
    requires Safe(s) && Quiet(s)
    ensures Undisplaced(s, AllActions(ops))
    decreases |ops|
  {
    if ops != [] {
      RoundIsActions(s, ops[0]);
      RoundCalm(s, ops[0]);
      CalmIsBoth(s, Actions(ops[0]));
      RoundsUndisplaced(Round(s, ops[0]), ops[1..]);
      UndisplacedAppend(s, Actions(ops[0]), AllActions(ops[1..]));
    }
  }

  lemma {:induction false} NoRecheckInDrains(n: nat)
    ensures Recheck !in Drains(n)
  {
    if n > 0 {
      NoRecheckInDrains(n - 1);
    }
  }

  lemma NoRecheckInEnters(rsz: nat, rest: seq<Action>)
    requires rsz >= 3 && Recheck !in rest
    ensures Recheck !in Enters(rsz, rest)
  {
    NoRecheckInDrains(rsz - 3);
  }

  /** In three slots the push that steps over is refused, and moves `in` behind slot 0's packet. */
  function OverThree(): seq<Action> {
    [Push] + ([Release] + ([Push] + ([Fill(20, [], true)] + ([Pop] + ([Commit] + ([Push] + []))))))
  }

  lemma OverThreeLoses(s: State)
    requires EarlyIn(s) && s.rsz == 3
    ensures Run(s, OverThree()).Running? && Run(s, OverThree()).state.log.lost != {}
  {
    var fill := Fill(20, [], true);
    assert PushScan(s.locks, 1) == PushScan(s.locks, 2) == 2;
    var a := Step(s, Push).state;
    var b := Step(a, Release).state;
    assert PushScan(b.locks, 2) == 2;
    var c := Step(b, Push).state;
    var d := Step(c, fill).state;
    var e := Step(d, Pop).state;
    var f := Step(e, Commit).state;
    assert PushScan(f.locks, 0) == 0 && Unsent(f, 0);
    var g := Step(f, Push).state;
    assert f.log.stamps[0] in g.log.lost;
    RunFirst(s, Push, [Release] + ([Push] + ([fill] + ([Pop] + ([Commit] + ([Push] + []))))), a);
    RunFirst(a, Release, [Push] + ([fill] + ([Pop] + ([Commit] + ([Push] + [])))), b);
    RunFirst(b, Push, [fill] + ([Pop] + ([Commit] + ([Push] + []))), c);
    RunFirst(c, fill, [Pop] + ([Commit] + ([Push] + [])), d);
    RunFirst(d, Pop, [Commit] + ([Push] + []), e);
    RunFirst(e, Commit, [Push] + [], f);
    RunFirst(f, Push, [], g);
  }

  /** With more slots it claims slot 2, where `out` is, so that the ring looks empty. */
  function OverMore(): seq<Action> {
    [Push] + ([Fill(20, [], true)] + ([Release] + ([Pop] + ([Commit] + []))))
  }

  /** Slot 0's packet waits, but the counter knows of slot 2's only. */
  predicate Miscounted(s: State) {
    && WellFormed(s) && s.rsz >= 4 && s.inPos == 3 && s.outPos == 2 && s.sz == 1 && !s.full
    && s.producer.Free? && s.lens[0] == 20
  }

  lemma OverMoreLeads(s: State) returns (t: State)
    requires EarlyIn(s) && s.rsz >= 4
    ensures Miscounted(t) && t.consumer.Drained? && t.rsz == s.rsz && Run(s, OverMore()) == Running(t)
  {
    var fill := Fill(20, [], true);
    assert PushScan(s.locks, 1) == PushScan(s.locks, 2) == 2;
    var a := Step(s, Push).state;
    var b := Step(a, fill).state;
    var c := Step(b, Release).state;
    var d := Step(c, Pop).state;
    t := Step(d, Commit).state;
    RunFirst(s, Push, [fill] + ([Release] + ([Pop] + ([Commit] + []))), a);
    RunFirst(a, fill, [Release] + ([Pop] + ([Commit] + [])), b);
    RunFirst(b, Release, [Pop] + ([Commit] + []), c);
    RunFirst(c, Pop, [Commit] + [], d);
    RunFirst(d, Commit, [], t);
  }

  /** The producer goes round to slot 0. */
  lemma MiscountedLoses(s: State)
    requires Bounded(s) && Miscounted(s)
    ensures Rounds(s, Produces(s.rsz - 3) + [Produce(20, [])]).log.lost != {}
  {
    var t := Climb(s, s.rsz - 3, [Produce(20, [])]);
    assert Unsent(t, 0);
    Overtakes(t);
  }

  /** From the consumer's look at `full` on, which resets nothing. */
  lemma LookAndLose(s: State) returns (actions: seq<Action>)
    requires Safe(s) && Miscounted(s) && s.consumer.Drained?
    ensures Undisplaced(s, actions) && Run(s, actions).Running? && Run(s, actions).state.log.lost != {}
  {
    StepSafe(s, Recheck);
    var t := Step(s, Recheck).state;
    var ops := Produces(t.rsz - 3) + [Produce(20, [])];
    RoundsAreActions(t, ops);
    RoundsUndisplaced(t, ops);
    MiscountedLoses(t);
    actions := [Recheck] + AllActions(ops);
    RunFirst(s, Recheck, AllActions(ops), t);
    assert actions[1..] == AllActions(ops);
  }

  /** The rest of the run, from `in` at 0 and `out` at 2 on. */
  lemma OverAndLose(s: State) returns (actions: seq<Action>)
    requires Safe(s) && AtTwo(s)
    ensures Undisplaced(s, actions) && Run(s, actions).Running? && Run(s, actions).state.log.lost != {}
  {
    if s.rsz == 3 {
      actions := Enters(3, OverThree());
      NoRecheckInEnters(3, OverThree());
      NoRecheckUndisplaced(s, actions);
      var t := EarlyEnters(s, OverThree());
      OverThreeLoses(t);
    } else {
      var enters := Enters(s.rsz, OverMore());
      NoRecheckInEnters(s.rsz, OverMore());
      NoRecheckUndisplaced(s, enters);
      var t := EarlyEnters(s, OverMore());
      var u := OverMoreLeads(t);
      RunSafeFrom(s, enters);
      var tail := LookAndLose(u);
      UndisplacedAppend(s, enters, tail);
      RunAppend(s, enters, tail);
      actions := enters + tail;
    }
  }

  /** In every ring some run without a reset between push and commit writes over a waiting packet. */
  lemma SteppingOverLoses(rsz: nat) returns (actions: seq<Action>)
    requires 3 <= rsz < TWO_TO_THE_31
    ensures Undisplaced(Init(rsz), actions)
    ensures Run(Init(rsz), actions).Running? && Run(Init(rsz), actions).state.log.lost != {}
  {
    StartSafe(rsz, 0, 0, 0);
    var s := BeforeLeads(rsz);
    var before := Before(rsz);
    RoundsAreActions(Init(rsz), before);
    RoundsUndisplaced(Init(rsz), before);
    var tail := OverAndLose(s);
    UndisplacedAppend(Init(rsz), AllActions(before), tail);
    RunAppend(Init(rsz), AllActions(before), tail);
    actions := AllActions(before) + tail;
  }
}
