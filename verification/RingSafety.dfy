/** What every interleaved run of the packet ring keeps. */
module RingSafety {
  import opened Bytes
  import opened RingModel

  /** Slot i holds a packet that the consumer would pass on, and is not being rewritten. */
  predicate Live(s: State, i: nat)
    requires WellFormed(s)
  {
    i < s.rsz && s.lens[i] > SHORTEST && !ProducerHolds(s, i)
  }

  /** Indices, counter and locks. */
  ghost predicate Guarded(s: State) {
    && WellFormed(s)
    && s.inPos < s.rsz
    && (s.producer.Holding? ==>
          && s.producer.slot < s.rsz
          && s.sz <= s.rsz - 2
          && (s.inPos == s.producer.slot || s.sz == 0))
    && (s.consumer.Reading? ==> s.consumer.slot < s.rsz - 1)
    && (forall i: nat :: i < s.rsz ==> !(ProducerHolds(s, i) && ConsumerHolds(s, i)))
    && (forall i: nat :: i < s.rsz ==>
          s.locks[i] == if ProducerHolds(s, i) || ConsumerHolds(s, i) then 1 else 0)
  }

  /** Slot i's contents are those of the accepted packet with its stamp, which was not sent. */
  ghost predicate Stamped(s: State, i: nat)
    requires WellFormed(s) && i < s.rsz
  {
    var id := s.log.stamps[i];
    && id < |s.log.accepted|
    && s.log.accepted[id] == Packet(s.lens[i], s.frames[i])
    && id !in s.log.ids
  }

  /** Every stamp lives in at most one slot; `sent` is the accepted packets that `ids` names. */
  ghost predicate Accounted(s: State)
    requires WellFormed(s)
  {
    && (forall i: nat :: Live(s, i) ==> Stamped(s, i))
    && (forall i: nat, j: nat :: i < j && Live(s, i) && Live(s, j) ==> s.log.stamps[i] != s.log.stamps[j])
    && |s.log.ids| == |s.log.sent|
    && (forall k :: 0 <= k < |s.log.ids| ==>
          && s.log.ids[k] < |s.log.accepted|
          && s.log.sent[k] == s.log.accepted[s.log.ids[k]]
          && s.log.sent[k].len > SHORTEST)
    && (forall j, k :: 0 <= j < k < |s.log.ids| ==> s.log.ids[j] != s.log.ids[k])
  }

  ghost predicate Safe(s: State) {
    Guarded(s) && Accounted(s)
  }

  lemma StartSafe(rsz: nat, inPos: nat, outPos: nat, sz: nat)
    requires ValidStart(rsz, inPos, outPos, sz) && inPos < rsz
    ensures Safe(Started(rsz, inPos, outPos, sz))
  {
  }

  /** The search in `push` skips at most one slot, and stays inside the array. */
  lemma PushSearchBounded(s: State)
    requires Guarded(s) && s.producer.Free?
    ensures var p := PushScan(s.locks, s.inPos);
            && p < s.rsz
            && s.locks[p] == 0
            && (p == s.inPos || (p == s.inPos + 1 && ConsumerHolds(s, s.inPos)))
  {
    var i := s.inPos;
    if s.locks[i] != 0 {
      assert ConsumerHolds(s, i);
      assert !ConsumerHolds(s, i + 1);
      assert PushScan(s.locks, i) == PushScan(s.locks, i + 1);
    }
  }

  /**
   * The search in `pop` skips at most one slot, ends, and never yields the ring's last slot.
   * It skips only when `out` has wrapped to slot 0 while the producer holds that slot.
   */
  lemma PopSearchBounded(s: State)
    requires Guarded(s) && s.consumer.Ready? && s.sz >= 1 && s.inPos != s.outPos
    ensures var start := if s.outPos >= s.rsz - 1 then 0 else s.outPos;
            && PopScan(s.locks, start, 1).Found?
            && PopScan(s.locks, start, s.rsz) == PopScan(s.locks, start, 1)
            && var c := PopScan(s.locks, start, 1).slot;
               && c < s.rsz - 1
               && s.locks[c] == 0
               && (c == start || (c == 1 && s.outPos >= s.rsz - 1 && s.inPos == 0 && ProducerHolds(s, 0)))
  {
    var start := if s.outPos >= s.rsz - 1 then 0 else s.outPos;
    if s.locks[start] != 0 {
      assert ProducerHolds(s, start);
      assert !ProducerHolds(s, 1);
    }
  }

  lemma PushSafe(s: State)
    requires Safe(s) && s.producer.Free?
    ensures DoPush(s).Running? && Safe(DoPush(s).state)
  {
    PushSearchBounded(s);
    var t := DoPush(s).state;
    assert forall i: nat :: Live(t, i) ==> Live(s, i) && t.lens[i] == s.lens[i];
  }

  lemma FillSafe(s: State, len: int, frame: Frame, kept: bool)
    requires Safe(s) && s.producer.Holding?
    ensures Safe(DoFill(s, len, frame, kept))
  {
    var t := DoFill(s, len, frame, kept);
    assert forall i: nat :: i < s.rsz ==> ProducerHolds(t, i) == ProducerHolds(s, i);
    assert forall i: nat :: Live(t, i) ==> Live(s, i) && t.lens[i] == s.lens[i] && t.frames[i] == s.frames[i];
  }

  lemma CommitSafe(s: State)
    requires Safe(s) && s.producer.Holding?
    ensures Safe(DoCommit(s))
  {
    var t := DoCommit(s);
    var p := s.producer.slot;
    assert ProducerHolds(s, p);
    assert forall i: nat :: i < s.rsz && i != p ==> Live(t, i) == Live(s, i);
  }

  lemma PopSafe(s: State)
    requires Safe(s) && s.consumer.Ready?
    ensures DoPop(s).Running? && Safe(DoPop(s).state)
  {
    if s.sz >= 1 && s.inPos != s.outPos {
      PopSearchBounded(s);
    }
    var t := DoPop(s).state;
    assert forall i: nat :: Live(t, i) ==> Live(s, i);
  }

  lemma ReleaseSafe(s: State)
    requires Safe(s) && s.consumer.Reading?
    ensures Safe(DoRelease(s))
  {
    var t := DoRelease(s);
    var c := s.consumer.slot;
    assert ConsumerHolds(s, c);
    assert !ProducerHolds(s, c);
    assert s.lens[c] > SHORTEST ==> Live(s, c) && Stamped(s, c);
    assert forall i: nat :: Live(t, i) ==> Live(s, i) && i != c;
  }

  lemma RecheckSafe(s: State)
    requires Safe(s) && s.consumer.Drained?
    ensures Safe(Step(s, Recheck).state)
  {
    var t := Step(s, Recheck).state;
    assert forall i: nat :: Live(t, i) ==> Live(s, i);
  }

  /** No step faults, and every step keeps the invariant. */
  lemma StepSafe(s: State, a: Action)
    requires Safe(s)
    ensures Step(s, a).Running? && Safe(Step(s, a).state)
  {
    match a
    case Push => if s.producer.Free? { PushSafe(s); }
    case Fill(len, frame, kept) => if s.producer.Holding? { FillSafe(s, len, frame, kept); }
    case Commit => if s.producer.Holding? { CommitSafe(s); }
    case Pop => if s.consumer.Ready? { PopSafe(s); }
    case Recheck => if s.consumer.Drained? { RecheckSafe(s); }
    case Wake => assert forall i: nat :: Live(Step(s, a).state, i) ==> Live(s, i);
    case Release => if s.consumer.Reading? { ReleaseSafe(s); }
  }

  lemma {:induction false} RunSafeFrom(s: State, actions: seq<Action>)
    requires Safe(s)
    ensures Run(s, actions).Running? && Safe(Run(s, actions).state)
    decreases |actions|
  {
    if actions != [] {
      StepSafe(s, actions[0]);
      RunSafeFrom(Step(s, actions[0]).state, actions[1..]);
    }
  }

  /** Once in range, `out` and `sz` stay there; until then they keep their first values or sink. */
  lemma StepRanged(s: State, a: Action)
    requires Safe(s)
    ensures var r := Step(s, a);
            && r.Running?
            && r.state.rsz == s.rsz
            && (r.state.outPos <= s.rsz - 1 || r.state.outPos == s.outPos)
            && (r.state.sz <= s.rsz - 1 || r.state.sz <= s.sz)
  {
    StepSafe(s, a);
    if a.Pop? && s.consumer.Ready? && s.sz >= 1 && s.inPos != s.outPos {
      PopSearchBounded(s);
    }
  }

  lemma {:induction false} RunRanged(s: State, actions: seq<Action>)
    requires Safe(s)
    ensures Run(s, actions).Running?
    ensures var t := Run(s, actions).state;
            && t.rsz == s.rsz
            && (t.outPos <= s.rsz - 1 || t.outPos == s.outPos)
            && (t.sz <= s.rsz - 1 || t.sz <= s.sz)
    decreases |actions|
  {
    if actions != [] {
      StepSafe(s, actions[0]);
      StepRanged(s, actions[0]);
      RunRanged(Step(s, actions[0]).state, actions[1..]);
    }
  }

  /**
   * In every interleaving of the two threads, resets included, from every start with `in`
   * inside the ring: no index leaves the array, no search spins for ever, no slot is held by
   * both threads, a lock word is 1 exactly while its slot is held, and the consumer never
   * gets hold of the ring's last slot.
   */
  lemma MutualExclusion(rsz: nat, inPos: nat, outPos: nat, sz: nat, actions: seq<Action>)
    requires ValidStart(rsz, inPos, outPos, sz) && inPos < rsz
    ensures Run(Started(rsz, inPos, outPos, sz), actions).Running?
    ensures var s := Run(Started(rsz, inPos, outPos, sz), actions).state;
            && WellFormed(s) && s.rsz == rsz
            && s.inPos < s.rsz
            && (s.outPos <= s.rsz - 1 || s.outPos == outPos)
            && (s.sz <= s.rsz - 1 || s.sz <= sz)
            && !ConsumerHolds(s, s.rsz - 1)
            && forall i: nat :: i < s.rsz ==>
                 && !(ProducerHolds(s, i) && ConsumerHolds(s, i))
                 && (s.locks[i] == 1 <==> ProducerHolds(s, i) || ConsumerHolds(s, i))
                 && (s.locks[i] == 0 <==> !ProducerHolds(s, i) && !ConsumerHolds(s, i))
  {
    StartSafe(rsz, inPos, outPos, sz);
    RunSafeFrom(Started(rsz, inPos, outPos, sz), actions);
    RunRanged(Started(rsz, inPos, outPos, sz), actions);
  }

  // ----- A start with `in` outside the ring -----

  /** `in` is past the slots, and nothing has moved it yet. */
  ghost predicate Astray(s: State) {
    && WellFormed(s)
    && s.inPos >= s.rsz
    && s.producer.Free?
    && !s.full
    && (s.consumer.Reading? ==> s.consumer.slot < s.rsz)
    && (forall i: nat :: i < s.rsz ==> s.locks[i] == if ConsumerHolds(s, i) then 1 else 0)
  }

  lemma {:induction false} AstrayFaultsOnPush(s: State, actions: seq<Action>)
    requires Astray(s)
    ensures Run(s, actions).Fault? <==> Push in actions
    decreases |actions|
  {
    if actions != [] && actions[0] != Push {
      assert Step(s, actions[0]).Running? && Astray(Step(s, actions[0]).state);
      AstrayFaultsOnPush(Step(s, actions[0]).state, actions[1..]);
      assert actions == [actions[0]] + actions[1..];
    }
  }

  /** With such a start a run leaves the array as soon as the producer pushes, and only then. */
  lemma FaultsOnPush(rsz: nat, inPos: nat, outPos: nat, sz: nat, actions: seq<Action>)
    requires ValidStart(rsz, inPos, outPos, sz) && inPos >= rsz
    ensures Run(Started(rsz, inPos, outPos, sz), actions).Fault? <==> Push in actions
  {
    AstrayFaultsOnPush(Started(rsz, inPos, outPos, sz), actions);
  }

  /** Exactly which starts are safe in every interleaving. */
  lemma SafeStarts(rsz: nat, inPos: nat, outPos: nat, sz: nat)
    requires ValidStart(rsz, inPos, outPos, sz)
    ensures (forall actions :: Run(Started(rsz, inPos, outPos, sz), actions).Running?) <==> inPos < rsz
  {
    if inPos < rsz {
      forall actions: seq<Action> ensures Run(Started(rsz, inPos, outPos, sz), actions).Running? {
        MutualExclusion(rsz, inPos, outPos, sz, actions);
      }
    } else {
      FaultsOnPush(rsz, inPos, outPos, sz, [Push]);
    }
  }

  /** xs are elements of ys, each taken at most once. */
  ghost predicate TakenOnce<T(!new)>(xs: seq<T>, ys: seq<T>) {
    exists at: seq<nat> :: TakenAt(xs, ys, at)
  }

  ghost predicate TakenAt<T(!new)>(xs: seq<T>, ys: seq<T>, at: seq<nat>) {
    && |at| == |xs|
    && (forall k :: 0 <= k < |xs| ==> at[k] < |ys| && xs[k] == ys[at[k]])
    && (forall j, k :: 0 <= j < k < |xs| ==> at[j] != at[k])
  }

  /** What the producer's kept reads put into slots, in order, whether or not it was ever committed. */
  function Fills(actions: seq<Action>): seq<Packet> {
    if actions == [] then [] else FilledBy(actions[0]) + Fills(actions[1..])
  }

  function FilledBy(a: Action): seq<Packet> {
    if a.Fill? && a.kept then [Packet(a.len, a.frame)] else []
  }

  /** Packet p is what the k-th read put there, or has lost its length to a reset. */
  predicate FromFill(p: Packet, fills: seq<Packet>, k: nat) {
    k < |fills| && p.frame == fills[k].frame && (p.len == fills[k].len || p.len == 0)
  }

  /** at[k] is the read that the k-th accepted packet came from; a filled slot holds the last read. */
  ghost predicate Traced(s: State, fills: seq<Packet>, at: seq<nat>)
    requires WellFormed(s)
  {
    var pending := s.producer.Holding? && s.producer.filled;
    && |at| == |s.log.accepted|
    && Ascending(at)
    && (forall k :: 0 <= k < |at| ==>
          FromFill(s.log.accepted[k], fills, at[k]) && at[k] < |fills| - if pending then 1 else 0)
    && (pending ==>
          && s.producer.slot < s.rsz
          && |fills| > 0
          && FromFill(Packet(s.lens[s.producer.slot], s.frames[s.producer.slot]), fills, |fills| - 1))
  }

  lemma StepTraced(s: State, fills: seq<Packet>, at: seq<nat>, a: Action) returns (at': seq<nat>)
    requires Safe(s) && Traced(s, fills, at)
    ensures Step(s, a).Running? && WellFormed(Step(s, a).state)
    ensures Traced(Step(s, a).state, fills + FilledBy(a), at')
  {
    StepSafe(s, a);
    at' := at;
    assert FilledBy(a) == [] ==> fills + FilledBy(a) == fills;
    match a
    case Commit =>
      if s.producer.Holding? && s.producer.filled {
        at' := at + [|fills| - 1];
      }
    case Release =>
      if s.consumer.Reading? {
        assert ConsumerHolds(s, s.consumer.slot) && !ProducerHolds(s, s.consumer.slot);
      }
    case _ =>
  }

  lemma {:induction false} RunTraced(s: State, fills: seq<Packet>, at: seq<nat>, actions: seq<Action>)
    returns (at': seq<nat>)
    requires Safe(s) && Traced(s, fills, at)
    ensures Run(s, actions).Running? && Safe(Run(s, actions).state)
    ensures Traced(Run(s, actions).state, fills + Fills(actions), at')
    decreases |actions|
  {
    if actions == [] {
      assert fills + [] == fills;
      return at;
    }
    var a := actions[0];
    at' := StepTraced(s, fills, at, a);
    StepSafe(s, a);
    assert fills + Fills(actions) == (fills + FilledBy(a)) + Fills(actions[1..]);
    at' := RunTraced(Step(s, a).state, fills + FilledBy(a), at', actions[1..]);
  }

  /**
   * In every interleaving, resets included, from every start with `in` inside the ring, what
   * the consumer passes on are packets that the producer committed, none of them twice; and
   * each is, bytes and length, what one kept read of the producer put into a slot, no read
   * being used twice.
   */
  lemma NoForgeryNoDuplicate(rsz: nat, inPos: nat, outPos: nat, sz: nat, actions: seq<Action>)
    requires ValidStart(rsz, inPos, outPos, sz) && inPos < rsz
    ensures Run(Started(rsz, inPos, outPos, sz), actions).Running?
    ensures var log := Run(Started(rsz, inPos, outPos, sz), actions).state.log;
            TakenOnce(log.sent, log.accepted) && TakenOnce(log.sent, Fills(actions))
  {
    var start := Started(rsz, inPos, outPos, sz);
    StartSafe(rsz, inPos, outPos, sz);
    var at := RunTraced(start, [], [], actions);
    assert [] + Fills(actions) == Fills(actions);
    var log := Run(start, actions).state.log;
    assert TakenAt(log.sent, log.accepted, log.ids);
    var source := seq(|log.ids|, k requires 0 <= k < |log.ids| => at[log.ids[k]]);
    assert TakenAt(log.sent, Fills(actions), source);
  }
}
