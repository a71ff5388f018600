/**
 * Operation-atomic runs of the packet ring: a producer round (push, fill, commit) and a
 * consumer round (wake, pop, then release or the check of `full`) each happen without
 * interruption. They are a special case of the interleaved runs of RingModel.
 */
module RingAtomic {
  import opened Bytes
  import opened RingModel
  import opened RingSafety

  datatype Op = Produce(len: int, frame: Frame) | Consume

  function Actions(op: Op): seq<Action> {
    match op
    case Produce(len, frame) => [Push, Fill(len, frame, true), Commit]
    case Consume => [Wake, Pop, Recheck, Release]
  }

  function AllActions(ops: seq<Op>): seq<Action> {
    if ops == [] then [] else Actions(ops[0]) + AllActions(ops[1..])
  }

  /** Neither thread is in the middle of a round. */
  predicate Quiet(s: State) {
    s.producer.Free? && (s.consumer.Ready? || s.consumer.Asleep?)
  }

  /** A producer round would be turned away. */
  predicate Refused(s: State) {
    s.sz >= s.rsz - 1 || s.inPos == Dec32(s.outPos)
  }

  /** The consumer sleeps on a counter that is 0. */
  predicate Dormant(s: State) {
    s.consumer.Asleep? && s.sz == 0
  }

  /** A consumer round would find the ring empty. */
  predicate Empty(s: State) {
    s.sz < 1 || s.inPos == s.outPos
  }

  /** `in` indexes a slot. */
  predicate Bounded(s: State) {
    WellFormed(s) && s.inPos < s.rsz
  }

  function Next(i: nat, rsz: nat): nat {
    if i + 1 >= rsz then 0 else i + 1
  }

  /** The slot the next consumer round takes. */
  function Taken(s: State): nat {
    if s.outPos >= s.rsz - 1 then 0 else s.outPos
  }

  /** A producer round as one update. */
  function Produced(s: State, len: int, frame: Frame): State
    requires Bounded(s)
  {
    if Refused(s) then s.(full := true)
    else
      var p := s.inPos;
      var id := |s.log.accepted|;
      s.(lens := s.lens[p := len], frames := s.frames[p := frame],
         sz := s.sz + 1, inPos := Next(p, s.rsz),
         log := s.log.(stamps := s.log.stamps[p := id],
                       accepted := s.log.accepted + [Packet(len, frame)],
                       parked := if p == s.rsz - 1 then s.log.parked + {id} else s.log.parked,
                       lost := if Unsent(s, p) then s.log.lost + {s.log.stamps[p]} else s.log.lost))
  }

  /** A consumer round as one update. */
  function Consumed(s: State): State
    requires Bounded(s)
  {
    if Dormant(s) then s
    else if Empty(s) then
      (if s.full then ResetRing(s) else s.(sz := 0)).(consumer := Asleep)
    else
      var c := Taken(s);
      s.(outPos := c + 1, lens := s.lens[c := -1], sz := s.sz - 1, consumer := Ready,
         log := if s.lens[c] > SHORTEST
                then s.log.(sent := s.log.sent + [Packet(s.lens[c], s.frames[c])],
                            ids := s.log.ids + [s.log.stamps[c]])
                else s.log)
  }

  function Round(s: State, op: Op): (t: State)
    requires Bounded(s)
    ensures Bounded(t) && t.rsz == s.rsz
  {
    match op
    case Produce(len, frame) => Produced(s, len, frame)
    case Consume => Consumed(s)
  }

  /** A run of whole rounds. */
  function Rounds(s: State, ops: seq<Op>): (t: State)
    requires Bounded(s)
    ensures Bounded(t) && t.rsz == s.rsz
    decreases |ops|
  {
    if ops == [] then s else Rounds(Round(s, ops[0]), ops[1..])
  }

  lemma Run3(s: State, a: Action, b: Action, c: Action)
    requires Safe(s)
    ensures Step(s, a).Running? && Safe(Step(s, a).state)
    ensures var t := Step(s, a).state; Step(t, b).Running? && Safe(Step(t, b).state)
    ensures Run(s, [a, b, c]) == Step(Step(Step(s, a).state, b).state, c)
  {
    StepSafe(s, a);
    StepSafe(Step(s, a).state, b);
    StepSafe(Step(Step(s, a).state, b).state, c);
    var t := Step(s, a).state;
    var u := Step(t, b).state;
    assert [a, b, c][1..] == [b, c] && [b, c][1..] == [c] && [c][1..] == [];
    calc {
      Run(s, [a, b, c]);
      Run(t, [b, c]);
      Run(u, [c]);
      Step(u, c);
    }
  }

  /** What an uninterrupted producer's `push` finds, and what filling and committing make of it. */
  lemma PushSteps(s: State, len: int, frame: Frame)
    requires Safe(s) && Quiet(s)
    ensures DoPush(s).Running?
    ensures var t := DoPush(s).state;
            && WellFormed(t)
            && (t.producer.Free? ==> Refused(s) && t == Produced(s, len, frame))
            && (t.producer.Holding? ==>
                  && !Refused(s)
                  && t.producer == Holding(s.inPos, false)
                  && t.locks[s.inPos] == 1
                  && DoCommit(DoFill(t, len, frame, true)) == Produced(s, len, frame))
  {
    PushSearchBounded(s);
    assert !ConsumerHolds(s, s.inPos);
    assert s.locks[s.inPos := 1][s.inPos := 0] == s.locks;
  }

  lemma ProduceIsActions(s: State, len: int, frame: Frame)
    requires Safe(s) && Quiet(s)
    ensures Run(s, Actions(Produce(len, frame))) == Running(Produced(s, len, frame))
  {
    Run3(s, Push, Fill(len, frame, true), Commit);
    PushSteps(s, len, frame);
  }

  /** A consumer that is awake: what its `pop` finds, and what the rest of the round makes of it. */
  lemma PopSteps(s: State)
    requires Safe(s) && s.producer.Free? && s.consumer.Ready?
    ensures DoPop(s).Running?
    ensures var u := DoPop(s).state;
            && WellFormed(u)
            && (u.consumer.Drained? ==> Running(Consumed(s)) == Step(u, Recheck))
            && (u.consumer.Reading? ==>
                  u.consumer.slot < s.rsz && u.locks[u.consumer.slot] == 1 && Consumed(s) == DoRelease(u))
            && (u.consumer.Drained? || u.consumer.Reading?)
  {
    if !Empty(s) {
      PopSearchBounded(s);
      assert !ProducerHolds(s, 0);
      assert s.locks[Taken(s) := 1][Taken(s) := 0] == s.locks;
    }
  }

  lemma WakeSteps(s: State)
    requires Safe(s) && Quiet(s)
    ensures if Dormant(s) then Step(s, Wake) == Running(s)
            else Step(s, Wake) == Running(s.(consumer := Ready)) && Consumed(s) == Consumed(s.(consumer := Ready))
    ensures Safe(s.(consumer := Ready))
  {
    assert forall i: nat :: Live(s.(consumer := Ready), i) ==> Live(s, i);
  }

  lemma AwakeIsActions(s: State)
    requires Safe(s) && s.producer.Free? && s.consumer.Ready?
    ensures Run(s, [Pop, Recheck, Release]) == Running(Consumed(s))
  {
    Run3(s, Pop, Recheck, Release);
    PopSteps(s);
  }

  lemma ConsumeIsActions(s: State)
    requires Safe(s) && Quiet(s)
    ensures Run(s, Actions(Consume)) == Running(Consumed(s))
  {
    WakeSteps(s);
    assert Actions(Consume)[1..] == [Pop, Recheck, Release];
    if Dormant(s) {
      Run3(s, Pop, Recheck, Release);
    } else {
      AwakeIsActions(s.(consumer := Ready));
    }
  }

  /** The one-update form of a round is what its steps do when nothing comes between them. */
  lemma RoundIsActions(s: State, op: Op)
    requires Safe(s) && Quiet(s)
    ensures Run(s, Actions(op)) == Running(Round(s, op))
    ensures Safe(Round(s, op)) && Quiet(Round(s, op))
  {
    RunSafeFrom(s, Actions(op));
    match op
    case Produce(len, frame) => ProduceIsActions(s, len, frame);
    case Consume => ConsumeIsActions(s);
  }

  /** A run of rounds is the interleaved run in which no round is interrupted. */
  lemma {:induction false} RoundsAreActions(s: State, ops: seq<Op>)
    requires Safe(s) && Quiet(s)
    ensures Run(s, AllActions(ops)) == Running(Rounds(s, ops))
    ensures Safe(Rounds(s, ops)) && Quiet(Rounds(s, ops))
    decreases |ops|
  {
    if ops != [] {
      RoundIsActions(s, ops[0]);
      RunAppend(s, Actions(ops[0]), AllActions(ops[1..]));
      RoundsAreActions(Round(s, ops[0]), ops[1..]);
    }
  }

  /** A state that some run of whole rounds reaches, from any start with `in` inside the ring. */
  ghost predicate Reachable(s: State) {
    exists rsz: nat, inPos: nat, outPos: nat, sz: nat, ops: seq<Op> :: ReachedBy(s, rsz, inPos, outPos, sz, ops)
  }

  ghost predicate ReachedBy(s: State, rsz: nat, inPos: nat, outPos: nat, sz: nat, ops: seq<Op>) {
    && ValidStart(rsz, inPos, outPos, sz) && inPos < rsz
    && s == Rounds(Started(rsz, inPos, outPos, sz), ops)
  }

  lemma ReachableSafe(s: State)
    requires Reachable(s)
    ensures Safe(s) && Quiet(s)
  {
    var rsz: nat, inPos: nat, outPos: nat, sz: nat, ops: seq<Op> :| ReachedBy(s, rsz, inPos, outPos, sz, ops);
    StartSafe(rsz, inPos, outPos, sz);
    RoundsAreActions(Started(rsz, inPos, outPos, sz), ops);
  }

  /** The packets that the producer rounds of a run offer. */
  function Offered(ops: seq<Op>): seq<Packet> {
    if ops == [] then []
    else (if ops[0].Produce? then [Packet(ops[0].len, ops[0].frame)] else []) + Offered(ops[1..])
  }

  /** The packet that a round adds to the accepted ones. */
  function Accepts(s: State, op: Op): seq<Packet> {
    if op.Produce? && !Refused(s) then [Packet(op.len, op.frame)] else []
  }

  lemma RoundAccepts(s: State, op: Op)
    requires Bounded(s)
    ensures Round(s, op).log.accepted == s.log.accepted + Accepts(s, op)
  {
  }

  lemma OfferedNext(s: State, ops: seq<Op>, more: seq<Packet>)
    requires ops != [] && Subsequence(more, Offered(ops[1..]))
    ensures Subsequence(Accepts(s, ops[0]) + more, Offered(ops))
  {
    assert [] + more == more;
    if ops[0].Produce? {
      var p := Packet(ops[0].len, ops[0].frame);
      if Refused(s) {
        SubsequenceSkip(more, Offered(ops[1..]), p);
      } else {
        SubsequenceTake(more, Offered(ops[1..]), p);
      }
    } else {
      assert [] + Offered(ops[1..]) == Offered(ops[1..]);
    }
  }

  /** The packets a run adds to the accepted ones are among those offered, in order. */
  lemma {:induction false} RoundsAccept(s: State, ops: seq<Op>) returns (more: seq<Packet>)
    requires Bounded(s)
    ensures Rounds(s, ops).log.accepted == s.log.accepted + more
    ensures Subsequence(more, Offered(ops))
    decreases |ops|
  {
    if ops == [] {
      assert EmbedsAt<Packet>([], [], []);
      return [];
    }
    RoundAccepts(s, ops[0]);
    var rest := RoundsAccept(Round(s, ops[0]), ops[1..]);
    OfferedNext(s, ops, rest);
    more := Accepts(s, ops[0]) + rest;
    assert s.log.accepted + Accepts(s, ops[0]) + rest == s.log.accepted + more;
  }

  // ----- Several packets in a row -----

  const FILLER := Packet(20, [])

  function Copies(n: nat): (r: seq<Packet>)
    ensures |r| == n && forall k :: 0 <= k < n ==> r[k] == FILLER
  {
    seq(n, _ => FILLER)
  }

  /** n packets in a row. */
  function Produces(n: nat): seq<Op> {
    if n == 0 then [] else [Produce(20, [])] + Produces(n - 1)
  }

  /** The producer goes up n slots from `in` without being turned away. */
  predicate Climbs(s: State, n: nat) {
    && Bounded(s) && s.inPos + n <= s.rsz && s.sz + n <= s.rsz - 1
    && (s.inPos <= Dec32(s.outPos) ==> s.inPos + n <= Dec32(s.outPos))
  }

  /** What n packets up from `in` change. */
  predicate Climbed(s: State, n: nat, t: State)
    requires Bounded(s)
  {
    && Bounded(t) && t.rsz == s.rsz && t.sz == s.sz + n
    && t.inPos == (if s.inPos + n == s.rsz && n > 0 then 0 else s.inPos + n)
    && t.outPos == s.outPos && t.full == s.full && t.consumer == s.consumer && t.producer == s.producer
    && t.log.accepted == s.log.accepted + Copies(n) && t.log.sent == s.log.sent
    && forall k: nat :: k < s.rsz ==>
         && t.lens[k] == (if s.inPos <= k < s.inPos + n then 20 else s.lens[k])
         && t.frames[k] == (if s.inPos <= k < s.inPos + n then [] else s.frames[k])
  }

  lemma RoundFirst(s: State, op: Op, rest: seq<Op>)
    requires Bounded(s)
    ensures Rounds(s, [op] + rest) == Rounds(Round(s, op), rest)
  {
    assert ([op] + rest)[1..] == rest;
  }

  function Climbing(s: State, n: nat): (t: State)
    requires Bounded(s)
    ensures Bounded(t) && t.rsz == s.rsz
    decreases n
  {
    if n == 0 then s else Climbing(Produced(s, 20, []), n - 1)
  }

  lemma {:induction false} ClimbingIsRounds(s: State, n: nat, rest: seq<Op>)
    requires Bounded(s)
    ensures Rounds(s, Produces(n) + rest) == Rounds(Climbing(s, n), rest)
    decreases n
  {
    if n == 0 {
      assert Produces(0) + rest == rest;
    } else {
      assert Produces(n) + rest == [Produce(20, [])] + (Produces(n - 1) + rest);
      RoundFirst(s, Produce(20, []), Produces(n - 1) + rest);
      ClimbingIsRounds(Produced(s, 20, []), n - 1, rest);
    }
  }

  lemma ClimbOnce(s: State)
    requires Climbs(s, 1)
    ensures Climbed(s, 1, Produced(s, 20, []))
  {
    assert Copies(1) == [FILLER];
  }

  lemma ClimbOn(s: State, u: State, n: nat, t: State)
    requires Bounded(s) && n > 0 && Climbed(s, 1, u) && Climbed(u, n - 1, t)
    requires n > 1 ==> s.inPos + 1 < s.rsz
    ensures Climbed(s, n, t)
  {
    assert s.log.accepted + Copies(1) + Copies(n - 1) == s.log.accepted + Copies(n);
  }

  lemma StillClimbs(s: State, n: nat, u: State)
    requires n > 0 && Climbs(s, n) && Climbed(s, 1, u)
    ensures Climbs(u, n - 1) && (n > 1 ==> s.inPos + 1 < s.rsz)
  {
  }

  lemma {:induction false} ClimbingClimbs(s: State, n: nat)
    requires Climbs(s, n)
    ensures Climbed(s, n, Climbing(s, n))
    decreases n
  {
    if n == 0 {
      assert s.log.accepted + Copies(0) == s.log.accepted;
    } else {
      var u := Produced(s, 20, []);
      ClimbOnce(s);
      StillClimbs(s, n, u);
      ClimbingClimbs(u, n - 1);
      ClimbOn(s, u, n, Climbing(u, n - 1));
    }
  }

  lemma Climb(s: State, n: nat, rest: seq<Op>) returns (t: State)
    requires Climbs(s, n)
    ensures Climbed(s, n, t) && Rounds(s, Produces(n) + rest) == Rounds(t, rest)
  {
    t := Climbing(s, n);
    ClimbingClimbs(s, n);
    ClimbingIsRounds(s, n, rest);
  }

  /** The consumer, awake, takes a slot behind the last but one. */
  predicate Descends(s: State) {
    Bounded(s) && s.consumer.Ready? && s.sz >= 1 && s.inPos != s.outPos
  }

  predicate Descended(s: State, t: State)
    requires Bounded(s)
  {
    var c := Taken(s);
    && Bounded(t) && t.rsz == s.rsz && t.sz == s.sz - 1 && t.inPos == s.inPos && t.outPos == c + 1
    && t.full == s.full && t.consumer == s.consumer && t.producer == s.producer
    && t.log.accepted == s.log.accepted
    && t.log.sent == s.log.sent + (if s.lens[c] > SHORTEST then [Packet(s.lens[c], s.frames[c])] else [])
    && t.lens == s.lens[c := -1] && t.frames == s.frames
  }

  lemma DescendOnce(s: State, rest: seq<Op>) returns (t: State)
    requires Descends(s)
    ensures Descended(s, t) && Rounds(s, [Consume] + rest) == Rounds(t, rest)
  {
    RoundFirst(s, Consume, rest);
    t := Consumed(s);
  }
}
