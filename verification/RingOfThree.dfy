/** A ring of three slots keeps the order in every interleaved run, without any condition. */
module RingOfThree {
  import opened Bytes
  import opened RingModel
  import opened RingSafety
  import opened RingOrder

  /** The consumer comes to slot i next or after the other one: also to slot 0 from behind slot 1. */
  predicate Due(s: State, i: nat)
    requires WellFormed(s)
  {
    Committed(s, i) && (InRange(s, i) || (i == 0 && s.outPos == 2))
  }

  /** What order needs of the slots 0 and 1 once the consumer has come by. */
  ghost predicate Lined(s: State)
    requires WellFormed(s)
  {
    && (forall i: nat :: Committed(s, i) ==> Due(s, i) || Stray(s, i))
    && (Due(s, 0) && Due(s, 1) ==> s.outPos == 0 && s.log.stamps[0] < s.log.stamps[1])
    && (forall i: nat, k :: Due(s, i) && 0 <= k < |s.log.ids| ==> s.log.ids[k] < s.log.stamps[i])
    && (s.consumer.Reading? && Live(s, s.consumer.slot) ==>
          && (forall i: nat :: Due(s, i) ==> s.log.stamps[s.consumer.slot] < s.log.stamps[i])
          && (forall k :: 0 <= k < |s.log.ids| ==> s.log.ids[k] < s.log.stamps[s.consumer.slot]))
  }

  /** With three slots `sz` turns the producer away where it would step over slot 1. */
  predicate Reads(s: State) {
    s.consumer.Reading? ==>
      && s.outPos == s.consumer.slot + 1
      && s.sz >= 1
      && (s.consumer.slot == 1 && s.inPos == 1 ==> s.sz >= 2)
  }

  ghost predicate Aligned(s: State)
    requires WellFormed(s)
  {
    && s.rsz == 3
    && RoomAhead(s)
    && Reads(s)
    && Ascending(s.log.ids)
    && if Beyond(s) then Untaken(s) else Lined(s)
  }

  ghost predicate Three(s: State) {
    Safe(s) && Aligned(s)
  }

  lemma StartThree(inPos: nat, outPos: nat, sz: nat)
    requires ValidStart(3, inPos, outPos, sz) && inPos < 3
    ensures Three(Started(3, inPos, outPos, sz))
  {
    StartSafe(3, inPos, outPos, sz);
    assert forall i: nat :: !Committed(Started(3, inPos, outPos, sz), i);
  }

  lemma SameAligned(s: State, t: State)
    requires Three(s) && WellFormed(t) && SameOrder(s, t) && RoomAhead(t)
    requires t.log.ids == s.log.ids && t.consumer == s.consumer && t.sz == s.sz
    requires s.consumer.Reading? ==> (Live(t, s.consumer.slot) ==> Live(s, s.consumer.slot))
    ensures Aligned(t)
  {
    assert forall i: nat :: InRange(t, i) == InRange(s, i) && Lap(t, i) == Lap(s, i);
  }

  /** A push that steps over a slot only ever claims slot 1, or is turned away. */
  lemma StepOverAligned(s: State)
    requires Three(s) && s.producer.Free? && ConsumerHolds(s, s.inPos)
    ensures DoPush(s).Running? && WellFormed(DoPush(s).state) && Aligned(DoPush(s).state)
  {
    PushSearchBounded(s);
    assert !Beyond(s) && s.outPos == s.inPos + 1;
    var t := DoPush(s).state;
    assert t.producer.Holding? ==> s.inPos == 0 && t.producer == Holding(1, false);
    assert forall i: nat :: Committed(t, i) ==> Committed(s, i);
  }

  lemma PushAligned(s: State)
    requires Three(s) && s.producer.Free?
    ensures DoPush(s).Running? && WellFormed(DoPush(s).state) && Aligned(DoPush(s).state)
  {
    if ConsumerHolds(s, s.inPos) {
      StepOverAligned(s);
    } else {
      PushSearchBounded(s);
      var t := DoPush(s).state;
      assert forall i: nat :: Committed(t, i) ==> Committed(s, i);
      SameAligned(s, t);
    }
  }

  lemma FillAligned(s: State, len: int, frame: Frame, kept: bool)
    requires Three(s) && s.producer.Holding?
    ensures Aligned(DoFill(s, len, frame, kept))
  {
    var t := DoFill(s, len, frame, kept);
    assert ProducerHolds(s, s.producer.slot) && ProducerHolds(t, s.producer.slot);
    assert forall i: nat :: Committed(t, i) <==> Committed(s, i);
    SameAligned(s, t);
  }

  lemma CommitAligned(s: State)
    requires Three(s) && s.producer.Holding?
    ensures Aligned(DoCommit(s))
  {
    var t, p := DoCommit(s), s.producer.slot;
    assert ProducerHolds(s, p);
    forall i: nat | Committed(t, i) && i != p
      ensures Committed(s, i) && s.log.stamps[i] < |s.log.accepted|
    {
      assert Live(s, i) && Stamped(s, i);
    }
    if s.consumer.Reading? {
      var c := s.consumer.slot;
      assert ConsumerHolds(s, c) && c != p;
      assert Live(t, c) ==> Live(s, c) && Stamped(s, c);
    }
  }

  lemma FirstPopAligned(s: State)
    requires Three(s) && s.consumer.Ready? && Beyond(s) && s.sz >= 1
    ensures DoPop(s).Running? && WellFormed(DoPop(s).state) && Aligned(DoPop(s).state)
  {
    PopSearchBounded(s);
    var t := DoPop(s).state;
    assert forall i: nat :: Committed(t, i) ==> Committed(s, i);
    assert Live(t, t.consumer.slot) ==> Committed(s, t.consumer.slot);
  }

  lemma NextPopAligned(s: State)
    requires Three(s) && s.consumer.Ready? && !Beyond(s) && s.sz >= 1 && s.inPos != s.outPos
    ensures DoPop(s).Running? && WellFormed(DoPop(s).state) && Aligned(DoPop(s).state)
  {
    PopSearchBounded(s);
    var t := DoPop(s).state;
    assert forall i: nat :: Committed(t, i) ==> Committed(s, i);
    assert Live(t, t.consumer.slot) ==> Committed(s, t.consumer.slot);
  }

  lemma PopAligned(s: State)
    requires Three(s) && s.consumer.Ready?
    ensures DoPop(s).Running? && WellFormed(DoPop(s).state) && Aligned(DoPop(s).state)
  {
    if s.sz < 1 || s.inPos == s.outPos {
      assert forall i: nat :: Committed(DoPop(s).state, i) ==> Committed(s, i);
    } else if Beyond(s) {
      FirstPopAligned(s);
    } else {
      NextPopAligned(s);
    }
  }

  lemma ReleaseAligned(s: State)
    requires Three(s) && s.consumer.Reading?
    ensures Aligned(DoRelease(s))
  {
    var t, c := DoRelease(s), s.consumer.slot;
    assert ConsumerHolds(s, c) && !ProducerHolds(s, c);
    assert forall i: nat :: Committed(t, i) ==> Committed(s, i);
  }

  lemma OthersAligned(s: State, a: Action)
    requires Three(s) && (a.Recheck? || a.Wake?)
    ensures Step(s, a).Running? && WellFormed(Step(s, a).state) && Aligned(Step(s, a).state)
  {
    var t := Step(s, a).state;
    assert forall i: nat :: Committed(t, i) ==> Committed(s, i);
  }

  lemma StepThree(s: State, a: Action)
    requires Three(s)
    ensures Step(s, a).Running? && Three(Step(s, a).state)
  {
    StepSafe(s, a);
    match a
    case Push => if s.producer.Free? { PushAligned(s); }
    case Fill(len, frame, kept) => if s.producer.Holding? { FillAligned(s, len, frame, kept); }
    case Commit => if s.producer.Holding? { CommitAligned(s); }
    case Pop => if s.consumer.Ready? { PopAligned(s); }
    case Release => if s.consumer.Reading? { ReleaseAligned(s); }
    case _ => OthersAligned(s, a);
  }

  lemma {:induction false} RunThree(s: State, actions: seq<Action>)
    requires Three(s)
    ensures Run(s, actions).Running? && Three(Run(s, actions).state)
    decreases |actions|
  {
    if actions != [] {
      StepThree(s, actions[0]);
      RunThree(Step(s, actions[0]).state, actions[1..]);
    }
  }

  /** From every start with `in` inside it, and whatever the two threads do. */
  lemma ThreeInOrder(inPos: nat, outPos: nat, sz: nat, actions: seq<Action>)
    requires ValidStart(3, inPos, outPos, sz) && inPos < 3
    ensures Run(Started(3, inPos, outPos, sz), actions).Running?
    ensures var log := Run(Started(3, inPos, outPos, sz), actions).state.log;
            Subsequence(log.sent, log.accepted)
  {
    StartThree(inPos, outPos, sz);
    RunThree(Started(3, inPos, outPos, sz), actions);
    var log := Run(Started(3, inPos, outPos, sz), actions).state.log;
    assert EmbedsAt(log.sent, log.accepted, log.ids);
  }
}
