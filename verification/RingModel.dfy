/**
 * The packet ring (ring.c) together with the parts of the worker loops (workers.c) that
 * fill, commit and release its slots, as a step machine over values.
 *
 * One producer thread (tx_io or rx_io) and one consumer thread (tx or rx) share the ring.
 * Each step is a region that the program guards with a compare-and-swap lock; any
 * interleaving of the two threads' steps is a run of this machine.
 */
module RingModel {
  import opened Bytes

  /** What a committed slot holds: the length word and the slot's bytes. */
  datatype Packet = Packet(len: int, frame: Frame)

  /** Consumers ignore a slot whose length word is not above this. */
  const SHORTEST := 14

  /** The producer either holds no slot, or holds one it has or has not filled yet. */
  datatype Producer = Free | Holding(slot: nat, filled: bool)

  /**
   * The consumer is about to pop (Ready), has found the ring empty but not yet looked at
   * `full` (Drained), sleeps until `sz` is not 0 (Asleep), or holds a slot (Reading).
   */
  datatype Consumer = Ready | Drained | Asleep | Reading(slot: nat)

  /**
   * Auxiliary history. `accepted` are the committed packets, `stamps[i]` is the position in
   * `accepted` of the packet last committed to slot i, `sent` are the packets the consumer
   * passed on, and `ids` their positions in `accepted`. `base` is how many packets had been
   * accepted when the ring was last reset or else started, and `origin` where `in` stood then.
   * `dropped` are the packets a reset threw away, `parked` those committed to the ring's last
   * slot, and `lost` those still waiting in a slot when the producer claimed it again.
   */
  datatype Log = Log(
    stamps: seq<nat>,
    accepted: seq<Packet>,
    sent: seq<Packet>,
    ids: seq<nat>,
    base: nat,
    origin: nat,
    dropped: set<nat>,
    parked: set<nat>,
    lost: set<nat>)

  datatype State = State(
    rsz: nat,
    inPos: nat,
    outPos: nat,
    sz: nat,
    full: bool,
    lens: seq<int>,
    locks: seq<int>,
    frames: seq<Frame>,
    producer: Producer,
    consumer: Consumer,
    log: Log)

  /** Sizes agree; `rsz` comes from dividing a non-negative C int, so it is below 2^31. */
  predicate WellFormed(s: State) {
    && 3 <= s.rsz < TWO_TO_THE_31
    && |s.lens| == |s.locks| == |s.frames| == |s.log.stamps| == s.rsz
  }

  /** The queue record is malloc'ed: `in`, `out` and `sz` start as any three 32-bit values. */
  predicate ValidStart(rsz: nat, inPos: nat, outPos: nat, sz: nat) {
    && 3 <= rsz < TWO_TO_THE_31
    && inPos < TWO_TO_THE_32 && outPos < TWO_TO_THE_32 && sz < TWO_TO_THE_32
  }

  /** What init_ring_buffer makes of them: it sets the lock, `full` and the slots only. */
  function Started(rsz: nat, inPos: nat, outPos: nat, sz: nat): State {
    State(rsz, inPos, outPos, sz, false,
          seq(rsz, _ => 0), seq(rsz, _ => 0), seq(rsz, _ => []),
          Free, Ready,
          Log(seq(rsz, _ => 0), [], [], [], 0, inPos, {}, {}, {}))
  }

  /** The start with all three 0, which is also what a reset leaves. */
  function Init(rsz: nat): State {
    Started(rsz, 0, 0, 0)
  }

  predicate ProducerHolds(s: State, i: nat) {
    s.producer.Holding? && s.producer.slot == i
  }

  predicate ConsumerHolds(s: State, i: nat) {
    s.consumer.Reading? && s.consumer.slot == i
  }

  /** What a step leads to. Fault: an index past the slot array, or a search that never ends. */
  datatype Outcome = Running(state: State) | Fault

  /** uint32_t decrement. */
  function Dec32(x: nat): nat {
    if x == 0 then TWO_TO_THE_32 - 1 else x - 1
  }

  /** The slot search of `push`: from slot i upward to the first unlocked slot; |locks| if none. */
  function PushScan(locks: seq<int>, i: nat): nat
    decreases |locks| - i
  {
    if i < |locks| && locks[i] != 0 then PushScan(locks, i + 1) else i
  }

  lemma PushScanIsForward(locks: seq<int>, i: nat)
    ensures i <= PushScan(locks, i)
    decreases |locks| - i
  {
  }

  lemma PushScanIsFree(locks: seq<int>, i: nat)
    requires PushScan(locks, i) < |locks|
    ensures locks[PushScan(locks, i)] == 0
    decreases |locks| - i
  {
  }

  lemma {:induction false} PushScanSkipsLocked(locks: seq<int>, i: nat)
    ensures forall k :: i <= k < PushScan(locks, i) && k < |locks| ==> locks[k] != 0
    decreases |locks| - i
  {
    if i < |locks| && locks[i] != 0 {
      PushScanSkipsLocked(locks, i + 1);
    }
  }

  datatype Search = Found(slot: nat) | Endless

  /** The slot search of `pop`: cyclic, giving up after `fuel` skips. */
  function PopScan(locks: seq<int>, i: nat, fuel: nat): Search
    requires i < |locks|
    decreases fuel
  {
    if locks[i] == 0 then Found(i)
    else if fuel == 0 then Endless
    else PopScan(locks, if i >= |locks| - 1 then 0 else i + 1, fuel - 1)
  }

  lemma {:induction false} PopScanIsFree(locks: seq<int>, i: nat, fuel: nat)
    requires i < |locks| && PopScan(locks, i, fuel).Found?
    ensures var c := PopScan(locks, i, fuel).slot; c < |locks| && locks[c] == 0 && (locks[i] == 0 ==> c == i)
    decreases fuel
  {
    if locks[i] != 0 {
      PopScanIsFree(locks, if i >= |locks| - 1 then 0 else i + 1, fuel - 1);
    }
  }

  /** The steps. A read that is not `kept` is followed by another one before the commit. */
  datatype Action =
    | Push
    | Fill(len: int, frame: Frame, kept: bool)
    | Commit
    | Pop
    | Recheck
    | Wake
    | Release

  /** `push` refuses when the counter is at its limit or the next slot is just behind `out`. */
  predicate Refuses(s: State, p: nat) {
    s.sz >= s.rsz - 1 || p == Dec32(s.outPos)
  }

  /** Slot i is one the consumer visits and holds a committed packet it would pass on. */
  predicate Unsent(s: State, i: nat)
    requires WellFormed(s)
  {
    i < s.rsz - 1 && s.lens[i] > SHORTEST && !ProducerHolds(s, i)
  }

  function DoPush(s: State): Outcome
    requires WellFormed(s)
  {
    var p := PushScan(s.locks, s.inPos);
    if p >= s.rsz then Fault
    else if Refuses(s, p) then Running(s.(inPos := p, full := true))
    else
      Running(s.(inPos := p, locks := s.locks[p := 1], producer := Holding(p, false),
                 log := s.log.(lost := if Unsent(s, p) then s.log.lost + {s.log.stamps[p]} else s.log.lost)))
  }

  function DoFill(s: State, len: int, frame: Frame, kept: bool): State
    requires WellFormed(s) && s.producer.Holding? && s.producer.slot < s.rsz
  {
    var p := s.producer.slot;
    s.(lens := s.lens[p := len], frames := s.frames[p := frame], producer := Holding(p, kept))
  }

  function DoCommit(s: State): State
    requires WellFormed(s) && s.producer.Holding? && s.producer.slot < s.rsz
  {
    var p := s.producer.slot;
    var id := |s.log.accepted|;
    s.(locks := s.locks[p := 0],
       sz := if s.sz >= s.rsz then s.sz else s.sz + 1,
       inPos := if s.inPos + 1 >= s.rsz then 0 else s.inPos + 1,
       producer := Free,
       log := s.log.(stamps := s.log.stamps[p := id],
                     accepted := s.log.accepted + [Packet(s.lens[p], s.frames[p])],
                     parked := if p == s.rsz - 1 then s.log.parked + {id} else s.log.parked))
  }

  function DoPop(s: State): Outcome
    requires WellFormed(s)
  {
    if s.sz < 1 || s.inPos == s.outPos then
      Running(s.(sz := 0, consumer := Drained))
    else
      match PopScan(s.locks, if s.outPos >= s.rsz - 1 then 0 else s.outPos, s.rsz)
      case Endless => Fault
      case Found(c) =>
        if c < s.rsz then
          Running(s.(locks := s.locks[c := 1], outPos := c + 1, consumer := Reading(c)))
        else
          Fault
  }

  /** The packets in such slots. */
  function Waiting(s: State): set<nat>
    requires WellFormed(s)
  {
    set i: nat | i < s.rsz && Unsent(s, i) :: s.log.stamps[i]
  }

  function ResetRing(s: State): State
    requires WellFormed(s)
  {
    s.(inPos := 0, outPos := 0, sz := 0, full := false,
       lens := seq(s.rsz, _ => 0),
       log := s.log.(base := |s.log.accepted|, origin := 0, dropped := s.log.dropped + Waiting(s)))
  }

  function DoRelease(s: State): State
    requires WellFormed(s) && s.consumer.Reading? && s.consumer.slot < s.rsz
  {
    var c := s.consumer.slot;
    s.(lens := s.lens[c := -1],
       sz := if s.sz < 1 then 0 else s.sz - 1,
       locks := s.locks[c := 0],
       consumer := Ready,
       log := if s.lens[c] > SHORTEST
              then s.log.(sent := s.log.sent + [Packet(s.lens[c], s.frames[c])],
                          ids := s.log.ids + [s.log.stamps[c]])
              else s.log)
  }

  /** One step. A step that its thread is not ready to take changes nothing. */
  function Step(s: State, a: Action): Outcome
    requires WellFormed(s)
  {
    match a
    case Push => if s.producer.Free? then DoPush(s) else Running(s)
    case Fill(len, frame, kept) =>
      if s.producer.Holding? && s.producer.slot < s.rsz then Running(DoFill(s, len, frame, kept)) else Running(s)
    case Commit =>
      if s.producer.Holding? && s.producer.filled && s.producer.slot < s.rsz
      then Running(DoCommit(s)) else Running(s)
    case Pop => if s.consumer.Ready? then DoPop(s) else Running(s)
    case Recheck =>
      if s.consumer.Drained?
      then Running((if s.full then ResetRing(s) else s).(consumer := Asleep))
      else Running(s)
    case Wake => if s.consumer.Asleep? && s.sz != 0 then Running(s.(consumer := Ready)) else Running(s)
    case Release =>
      if s.consumer.Reading? && s.consumer.slot < s.rsz then Running(DoRelease(s)) else Running(s)
  }

  lemma StepWellFormed(s: State, a: Action)
    requires WellFormed(s)
    ensures Step(s, a).Running? ==> WellFormed(Step(s, a).state) && Step(s, a).state.rsz == s.rsz
  {
  }

  /** A run: the steps of both threads in the order in which they happen. */
  function Run(s: State, actions: seq<Action>): Outcome
    requires WellFormed(s)
    decreases |actions|
  {
    if actions == [] then Running(s)
    else
      StepWellFormed(s, actions[0]);
      match Step(s, actions[0])
      case Fault => Fault
      case Running(t) => Run(t, actions[1..])
  }

  lemma {:induction false} RunAppend(s: State, xs: seq<Action>, ys: seq<Action>)
    requires WellFormed(s)
    ensures Run(s, xs).Fault? ==> Run(s, xs + ys).Fault?
    ensures Run(s, xs).Running? ==>
              WellFormed(Run(s, xs).state) && Run(s, xs + ys) == Run(Run(s, xs).state, ys)
    decreases |xs|
  {
    if xs == [] {
      assert xs + ys == ys;
    } else {
      assert (xs + ys)[1..] == xs[1..] + ys;
      StepWellFormed(s, xs[0]);
      if Step(s, xs[0]).Running? {
        RunAppend(Step(s, xs[0]).state, xs[1..], ys);
      }
    }
  }
}
