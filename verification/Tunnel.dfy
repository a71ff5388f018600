/**
 * Both ends together: payloads read by tx_io go through the sender's packet ring, over the
 * wire, through the receiver's packet ring, and out of rx.
 */
module Tunnel {
  import opened Bytes
  import opened RingModel
  import opened RingSafety
  import RingOrder
  import PacketPool

  type Payload = seq<byte>

  /** A packet in the sender's ring carries payload p behind headers with this source address. */
  predicate Carries(pk: Packet, p: Payload, saddr: seq<byte>) {
    && pk.len == |p|
    && |pk.frame| >= ETHIP4 + |p|
    && pk.frame[26..30] == saddr
    && pk.frame[ETHIP4..ETHIP4 + |p|] == p
  }

  /** What tx puts on the wire for a packet it takes from the ring. */
  function OnWire(pk: Packet): Frame {
    if 0 <= pk.len + ETHIP4 <= |pk.frame| then pk.frame[..pk.len + ETHIP4] else []
  }

  /** What rx_io puts into the receiver's ring for a frame it has read. */
  predicate ReadFrom(pk: Packet, f: Frame) {
    pk.len == |f| - ETHIP4 && |pk.frame| >= |f| && pk.frame[..|f|] == f
  }

  /** What rx writes for a packet it takes from the ring. */
  function Delivered(pk: Packet): Payload {
    if 0 <= pk.len && ETHIP4 + pk.len <= |pk.frame| then pk.frame[ETHIP4..ETHIP4 + pk.len] else []
  }

  function DeliveredAll(pks: seq<Packet>): (r: seq<Payload>)
    ensures |r| == |pks| && forall k :: 0 <= k < |pks| ==> r[k] == Delivered(pks[k])
  {
    seq(|pks|, k requires 0 <= k < |pks| => Delivered(pks[k]))
  }

  function OnWireAll(pks: seq<Packet>): (r: seq<Frame>)
    ensures |r| == |pks| && forall k :: 0 <= k < |pks| ==> r[k] == OnWire(pks[k])
  {
    seq(|pks|, k requires 0 <= k < |pks| => OnWire(pks[k]))
  }

  predicate IsFrom(f: Frame, saddr: seq<byte>) {
    |f| >= 30 && f[26..30] == saddr
  }

  /** The frames of a stream that show this source address. */
  function FromPeer(stream: seq<Frame>, saddr: seq<byte>): (r: seq<Frame>)
    ensures forall k :: 0 <= k < |r| ==> IsFrom(r[k], saddr)
  {
    if stream == [] then []
    else (if IsFrom(stream[0], saddr) then [stream[0]] else []) + FromPeer(stream[1..], saddr)
  }

  /** tx_io's slot, and the slot rx_io fills, meet these descriptions. */
  lemma SlotCarries(pool: seq<byte>, bsz: nat, rsz: nat, i: nat, p: Payload, h: PacketPool.Headers)
    requires PacketPool.Shaped(pool, bsz, rsz) && PacketPool.ValidHeaders(h)
    requires PacketPool.ValidFill(PacketPool.TxFill(i, p), bsz - 4, rsz)
    requires PacketPool.KeepsTemplate(PacketPool.Block(pool, bsz, rsz, i), h)
    ensures var r := PacketPool.Filled(pool, bsz, rsz, PacketPool.TxFill(i, p));
            && Carries(Packet(|p|, PacketPool.Block(r, bsz, rsz, i)), p, h.ip[12..16])
            && (|p| > 14 ==>
                  PacketPool.Sends(r, bsz, rsz, i, |p|) == Some(OnWire(Packet(|p|, PacketPool.Block(r, bsz, rsz, i)))))
  {
    PacketPool.Sending(pool, bsz, rsz, i, p, h);
    var r := PacketPool.Filled(pool, bsz, rsz, PacketPool.TxFill(i, p));
    BlockCarries(PacketPool.Block(r, bsz, rsz, i), p, h.ip[12..16]);
  }

  lemma BlockCarries(block: seq<byte>, p: Payload, saddr: seq<byte>)
    requires |block| >= |p| + ETHIP4
    requires block[..|p| + ETHIP4][26..30] == saddr
    requires block[..|p| + ETHIP4][ETHIP4..] == p
    ensures Carries(Packet(|p|, block), p, saddr)
    ensures OnWire(Packet(|p|, block)) == block[..|p| + ETHIP4]
  {
    var frame := block[..|p| + ETHIP4];
    assert block[ETHIP4..ETHIP4 + |p|] == frame[ETHIP4..];
    assert block[26..30] == frame[26..30];
  }

  lemma SlotReadFrom(pool: seq<byte>, bsz: nat, rsz: nat, i: nat, f: Frame)
    requires PacketPool.Shaped(pool, bsz, rsz)
    requires PacketPool.ValidFill(PacketPool.RxFill(i, f), bsz - 4, rsz)
    ensures var r := PacketPool.Filled(pool, bsz, rsz, PacketPool.RxFill(i, f));
            var pk := Packet(|f| - ETHIP4, PacketPool.Block(r, bsz, rsz, i));
            && ReadFrom(pk, f)
            && (pk.len > 14 ==> PacketPool.Writes(r, bsz, rsz, i, pk.len) == Some(Delivered(pk)))
  {
    PacketPool.Receiving(pool, bsz, rsz, i, f, []);
    var r := PacketPool.Filled(pool, bsz, rsz, PacketPool.RxFill(i, f));
    var block := PacketPool.Block(r, bsz, rsz, i);
    if |f| > ETHIP4 + 14 {
      assert block[..|f|][ETHIP4..] == block[ETHIP4..|f|];
    }
  }

  /** A packet that crosses both rings unharmed is delivered as the payload it started as. */
  lemma OneCrossing(sent: Packet, got: Packet, p: Payload, saddr: seq<byte>)
    requires Carries(sent, p, saddr) && ReadFrom(got, OnWire(sent))
    ensures Delivered(got) == p
  {
    var f := OnWire(sent);
    assert f[ETHIP4..] == sent.frame[ETHIP4..ETHIP4 + |p|];
    assert got.frame[..|f|][ETHIP4..] == got.frame[ETHIP4..|f|];
  }

  // ----- One end of the tunnel: a ring and the bytes behind it -----

  datatype Kind = Sender | Receiver(peer: seq<byte>)

  /** A step of either thread other than a read, a read of some bytes, or a read that fails. */
  datatype Event = Does(a: Action) | Reads(bytes: seq<byte>) | Fails

  datatype End = End(ring: State, pool: seq<byte>)

  /** tx_io reads as much as leaves room for the headers, rx_io whole frames. */
  function ReadLimit(kind: Kind, bsz: nat): int {
    if kind.Sender? then bsz - 4 - ETHIP4 else bsz - 4
  }

  predicate ValidEvent(kind: Kind, bsz: nat, x: Event) {
    match x
    case Does(a) => !a.Fill?
    case Reads(bytes) => |bytes| <= ReadLimit(kind, bsz)
    case Fails => true
  }

  predicate ValidEvents(kind: Kind, bsz: nat, xs: seq<Event>) {
    forall k :: 0 <= k < |xs| ==> ValidEvent(kind, bsz, xs[k])
  }

  predicate Whole(e: End, bsz: nat) {
    WellFormed(e.ring) && PacketPool.Shaped(e.pool, bsz, e.ring.rsz)
  }

  /** The slot a read goes to. */
  predicate Claims(e: End) {
    e.ring.producer.Holding? && e.ring.producer.slot < e.ring.rsz
  }

  function FillOf(kind: Kind, slot: nat, bytes: seq<byte>): PacketPool.Fill {
    if kind.Sender? then PacketPool.TxFill(slot, bytes) else PacketPool.RxFill(slot, bytes)
  }

  /** The bytes after an event: a read, with the headers that tx_io sets, goes to the claimed slot. */
  function PoolAfter(kind: Kind, e: End, bsz: nat, x: Event): (pool: seq<byte>)
    requires Whole(e, bsz) && ValidEvent(kind, bsz, x)
    ensures |pool| == |e.pool|
  {
    if x.Reads? && Claims(e)
    then PacketPool.Filled(e.pool, bsz, e.ring.rsz, FillOf(kind, e.ring.producer.slot, x.bytes))
    else e.pool
  }

  /** rx_io goes on reading until the slot shows the peer's address; tx_io until a read succeeds. */
  predicate Keeps(kind: Kind, e: End, bsz: nat, x: Event)
    requires Whole(e, bsz) && ValidEvent(kind, bsz, x)
  {
    && x.Reads? && Claims(e)
    && (kind.Receiver? ==>
          PacketPool.Accepts(PoolAfter(kind, e, bsz, x), bsz, e.ring.rsz, e.ring.producer.slot, |x.bytes|, kind.peer))
  }

  /** How much one read can bring: a whole frame at the receiver, 34 bytes less at the sender. */
  lemma ReadsFit(kind: Kind, bsz: nat, bytes: seq<byte>)
    ensures ValidEvent(kind, bsz, Reads(bytes)) <==> |bytes| + (if kind.Sender? then 38 else 4) <= bsz
  {
  }

  /** The ring's step that an event is. */
  function ActionOf(kind: Kind, e: End, bsz: nat, x: Event): Action
    requires Whole(e, bsz) && ValidEvent(kind, bsz, x)
  {
    if x.Does? then x.a
    else if !Claims(e) then Fill(-1, [], false)
    else
      var block := PacketPool.Block(PoolAfter(kind, e, bsz, x), bsz, e.ring.rsz, e.ring.producer.slot);
      var kept := Keeps(kind, e, bsz, x);
      Fill(if x.Fails? then -1 else if kept && kind.Receiver? then |x.bytes| - ETHIP4 else |x.bytes|, block, kept)
  }

  /** The end after an event. */
  function Next(kind: Kind, e: End, bsz: nat, x: Event): (t: End)
    requires Whole(e, bsz) && ValidEvent(kind, bsz, x)
    ensures Whole(t, bsz)
  {
    var r := Step(e.ring, ActionOf(kind, e, bsz, x));
    StepWellFormed(e.ring, ActionOf(kind, e, bsz, x));
    End(if r.Running? then r.state else e.ring, PoolAfter(kind, e, bsz, x))
  }

  function ActionsOf(kind: Kind, e: End, bsz: nat, xs: seq<Event>): seq<Action>
    requires Whole(e, bsz) && ValidEvents(kind, bsz, xs)
    decreases |xs|
  {
    if xs == [] then []
    else [ActionOf(kind, e, bsz, xs[0])] + ActionsOf(kind, Next(kind, e, bsz, xs[0]), bsz, xs[1..])
  }

  /** The reads that were kept. */
  function KeptReads(kind: Kind, e: End, bsz: nat, xs: seq<Event>): seq<seq<byte>>
    requires Whole(e, bsz) && ValidEvents(kind, bsz, xs)
    decreases |xs|
  {
    if xs == [] then []
    else
      (if Keeps(kind, e, bsz, xs[0]) then [xs[0].bytes] else [])
      + KeptReads(kind, Next(kind, e, bsz, xs[0]), bsz, xs[1..])
  }

  /** What was read, kept or not. */
  function AllReads(xs: seq<Event>): seq<seq<byte>> {
    if xs == [] then [] else (if xs[0].Reads? then [xs[0].bytes] else []) + AllReads(xs[1..])
  }

  /** What the consumer finds in the slot it is about to release, if it is long enough. */
  function TakenAt(e: End, bsz: nat, x: Event): seq<Packet>
    requires Whole(e, bsz)
  {
    if x == Does(Release) && e.ring.consumer.Reading? && e.ring.consumer.slot < e.ring.rsz
       && e.ring.lens[e.ring.consumer.slot] > SHORTEST
    then [Packet(e.ring.lens[e.ring.consumer.slot], PacketPool.Block(e.pool, bsz, e.ring.rsz, e.ring.consumer.slot))]
    else []
  }

  function AllTaken(kind: Kind, e: End, bsz: nat, xs: seq<Event>): seq<Packet>
    requires Whole(e, bsz) && ValidEvents(kind, bsz, xs)
    decreases |xs|
  {
    if xs == [] then [] else TakenAt(e, bsz, xs[0]) + AllTaken(kind, Next(kind, e, bsz, xs[0]), bsz, xs[1..])
  }

  /** What leaves with an event: the frame tx sends, or the payload rx writes, of the slot released. */
  function LeavesAt(kind: Kind, e: End, bsz: nat, x: Event): seq<seq<byte>>
    requires Whole(e, bsz)
  {
    if x == Does(Release) && e.ring.consumer.Reading? && e.ring.consumer.slot < e.ring.rsz
       && e.ring.lens[e.ring.consumer.slot] + ETHIP4 + 4 <= bsz
    then
      var c := e.ring.consumer.slot;
      match (if kind.Sender? then PacketPool.Sends(e.pool, bsz, e.ring.rsz, c, e.ring.lens[c])
             else PacketPool.Writes(e.pool, bsz, e.ring.rsz, c, e.ring.lens[c]))
      case None => []
      case Some(bytes) => [bytes]
    else []
  }

  function AllLeft(kind: Kind, e: End, bsz: nat, xs: seq<Event>): seq<seq<byte>>
    requires Whole(e, bsz) && ValidEvents(kind, bsz, xs)
    decreases |xs|
  {
    if xs == [] then [] else LeavesAt(kind, e, bsz, xs[0]) + AllLeft(kind, Next(kind, e, bsz, xs[0]), bsz, xs[1..])
  }

  // ----- The ring's history and the bytes agree -----

  /** A slot with something to pass on holds, byte for byte, what the ring has recorded. */
  predicate Mirrors(e: End, bsz: nat)
    requires Whole(e, bsz)
  {
    forall i: nat :: i < e.ring.rsz && e.ring.lens[i] > SHORTEST ==>
      e.ring.frames[i] == PacketPool.Block(e.pool, bsz, e.ring.rsz, i)
  }

  lemma ReadMirrors(kind: Kind, e: End, bsz: nat, x: Event)
    requires Whole(e, bsz) && ValidEvent(kind, bsz, x) && Mirrors(e, bsz) && !x.Does?
    ensures Mirrors(Next(kind, e, bsz, x), bsz)
  {
    if x.Reads? && Claims(e) {
      var t, p := Next(kind, e, bsz, x), e.ring.producer.slot;
      forall i: nat | i < t.ring.rsz && t.ring.lens[i] > SHORTEST
        ensures t.ring.frames[i] == PacketPool.Block(t.pool, bsz, t.ring.rsz, i)
      {
        PacketPool.FillStaysInside(e.pool, bsz, e.ring.rsz, FillOf(kind, p, x.bytes), i);
      }
    }
  }

  /** Other steps write no frames and raise no length. */
  lemma DoesNotFill(s: State, a: Action)
    requires WellFormed(s) && !a.Fill? && Step(s, a).Running?
    ensures var t := Step(s, a).state;
            && t.rsz == s.rsz && t.frames == s.frames
            && |t.lens| == |s.lens|
            && forall i :: 0 <= i < |s.lens| ==> t.lens[i] > SHORTEST ==> t.lens[i] == s.lens[i]
  {
  }

  lemma NextMirrors(kind: Kind, e: End, bsz: nat, x: Event)
    requires Whole(e, bsz) && ValidEvent(kind, bsz, x) && Mirrors(e, bsz)
    ensures Mirrors(Next(kind, e, bsz, x), bsz)
  {
    if !x.Does? {
      ReadMirrors(kind, e, bsz, x);
    } else if Step(e.ring, x.a).Running? {
      DoesNotFill(e.ring, x.a);
    }
  }

  /** An event passes on what it takes, and nothing else. */
  lemma StepSends(kind: Kind, e: End, bsz: nat, x: Event)
    requires Whole(e, bsz) && ValidEvent(kind, bsz, x) && Mirrors(e, bsz)
    ensures var r := Step(e.ring, ActionOf(kind, e, bsz, x));
            r.Running? ==> r.state.log.sent == e.ring.log.sent + TakenAt(e, bsz, x)
  {
  }

  /** What the ring has recorded as sent is what its consumer found in the slots. */
  lemma {:induction false} SentIsTaken(kind: Kind, e: End, bsz: nat, xs: seq<Event>)
    requires Whole(e, bsz) && ValidEvents(kind, bsz, xs) && Mirrors(e, bsz)
    ensures var r := Run(e.ring, ActionsOf(kind, e, bsz, xs));
            r.Running? ==> r.state.log.sent == e.ring.log.sent + AllTaken(kind, e, bsz, xs)
    decreases |xs|
  {
    if xs == [] {
      assert e.ring.log.sent + [] == e.ring.log.sent;
    } else {
      var t, a := Next(kind, e, bsz, xs[0]), ActionOf(kind, e, bsz, xs[0]);
      NextMirrors(kind, e, bsz, xs[0]);
      StepSends(kind, e, bsz, xs[0]);
      SentIsTaken(kind, t, bsz, xs[1..]);
      SendsThen(e.ring, a, ActionsOf(kind, t, bsz, xs[1..]), TakenAt(e, bsz, xs[0]), AllTaken(kind, t, bsz, xs[1..]));
    }
  }

  lemma SendsThen(s: State, a: Action, rest: seq<Action>, taken: seq<Packet>, more: seq<Packet>)
    requires WellFormed(s)
    requires var r := Step(s, a);
             r.Running? ==>
               && WellFormed(r.state) && r.state.log.sent == s.log.sent + taken
               && (Run(r.state, rest).Running? ==> Run(r.state, rest).state.log.sent == r.state.log.sent + more)
    ensures var r := Run(s, [a] + rest);
            r.Running? ==> r.state.log.sent == s.log.sent + (taken + more)
  {
    assert ([a] + rest)[1..] == rest;
    assert s.log.sent + taken + more == s.log.sent + (taken + more);
  }

  // ----- What is taken is what leaves -----

  /** A committed length leaves room in its slot for the headers and the footer. */
  predicate Roomy(e: End, bsz: nat)
    requires Whole(e, bsz)
  {
    forall i: nat ::
      i < e.ring.rsz && e.ring.lens[i] > SHORTEST && (ProducerHolds(e.ring, i) ==> e.ring.producer.filled) ==>
        e.ring.lens[i] + ETHIP4 + 4 <= bsz
  }

  /** What one end keeps: the ring's safety, and that the bytes go with it. */
  ghost predicate Sound(e: End, bsz: nat) {
    Whole(e, bsz) && Safe(e.ring) && Mirrors(e, bsz) && Roomy(e, bsz)
  }

  lemma NextSound(kind: Kind, e: End, bsz: nat, x: Event)
    requires Sound(e, bsz) && ValidEvent(kind, bsz, x)
    ensures Sound(Next(kind, e, bsz, x), bsz)
  {
    StepSafe(e.ring, ActionOf(kind, e, bsz, x));
    NextMirrors(kind, e, bsz, x);
    if x.Does? {
      DoesNotFill(e.ring, x.a);
    }
  }

  /** What is sent of packets, or written. */
  function Leaving(kind: Kind, pks: seq<Packet>): seq<seq<byte>> {
    if kind.Sender? then OnWireAll(pks) else DeliveredAll(pks)
  }

  lemma LeavingBoth(kind: Kind, pks: seq<Packet>, more: seq<Packet>)
    ensures Leaving(kind, pks + more) == Leaving(kind, pks) + Leaving(kind, more)
  {
  }

  /**
   * A release takes a packet exactly when tx sends, or rx writes, something of that slot with
   * that length, and it is what leaves.
   */
  lemma TakenLeaves(kind: Kind, e: End, bsz: nat, x: Event)
    requires Sound(e, bsz)
    ensures LeavesAt(kind, e, bsz, x) == Leaving(kind, TakenAt(e, bsz, x))
  {
    if x == Does(Release) && e.ring.consumer.Reading? {
      assert ConsumerHolds(e.ring, e.ring.consumer.slot) && !ProducerHolds(e.ring, e.ring.consumer.slot);
    }
  }

  lemma {:induction false} AllTakenLeaves(kind: Kind, e: End, bsz: nat, xs: seq<Event>)
    requires Sound(e, bsz) && ValidEvents(kind, bsz, xs)
    ensures AllLeft(kind, e, bsz, xs) == Leaving(kind, AllTaken(kind, e, bsz, xs))
    decreases |xs|
  {
    if xs != [] {
      var t := Next(kind, e, bsz, xs[0]);
      NextSound(kind, e, bsz, xs[0]);
      TakenLeaves(kind, e, bsz, xs[0]);
      AllTakenLeaves(kind, t, bsz, xs[1..]);
      LeavingBoth(kind, TakenAt(e, bsz, xs[0]), AllTaken(kind, t, bsz, xs[1..]));
    }
  }

  // ----- What the kept reads put into the slots -----

  /**
   * The ring's step that a read into slot p is. At the sender it always leaves the payload's
   * length; at the receiver a frame that is kept leaves its length less the 34 header bytes.
   * A read that fails leaves its -1, and is made again.
   */
  lemma ReadIsFill(kind: Kind, e: End, bsz: nat, bytes: seq<byte>)
    requires Whole(e, bsz) && ValidEvent(kind, bsz, Reads(bytes)) && Claims(e)
    ensures var x, p := Reads(bytes), e.ring.producer.slot;
            var block := PacketPool.Block(PoolAfter(kind, e, bsz, x), bsz, e.ring.rsz, p);
            match kind
            case Sender =>
              ActionOf(kind, e, bsz, x) == Fill(|bytes|, block, true) && block[34..34 + |bytes|] == bytes
            case Receiver(peer) =>
              && block[..|bytes|] == bytes
              && ActionOf(kind, e, bsz, x) ==
                 if |bytes| >= 1 && block[26..30] == peer then Fill(|bytes| - 34, block, true)
                 else Fill(|bytes|, block, false)
    ensures ActionOf(kind, e, bsz, Fails) ==
            Fill(-1, PacketPool.Block(e.pool, bsz, e.ring.rsz, e.ring.producer.slot), false)
  {
    var p := e.ring.producer.slot;
    if kind.Sender? {
      PacketPool.SentBytes(e.pool, bsz, e.ring.rsz, p, bytes);
    } else {
      PacketPool.Receiving(e.pool, bsz, e.ring.rsz, p, bytes, kind.peer);
    }
  }

  /** The packet describes the kept read: what it carries, or what it was read from, and from whom. */
  predicate Describes(kind: Kind, pk: Packet, bytes: seq<byte>, saddr: seq<byte>) {
    if kind.Sender? then Carries(pk, bytes, saddr)
    else ReadFrom(pk, bytes) && (|bytes| >= 30 ==> IsFrom(bytes, kind.peer))
  }

  predicate AllDescribed(kind: Kind, pks: seq<Packet>, inputs: seq<seq<byte>>, saddr: seq<byte>) {
    |pks| == |inputs| && forall k :: 0 <= k < |pks| ==> Describes(kind, pks[k], inputs[k], saddr)
  }

  /** A sender's slots keep the template of the headers. */
  predicate Templated(kind: Kind, e: End, bsz: nat, h: PacketPool.Headers)
    requires Whole(e, bsz) && PacketPool.ValidHeaders(h)
  {
    kind.Sender? ==>
      forall i: nat :: i < e.ring.rsz ==> PacketPool.KeepsTemplate(PacketPool.Block(e.pool, bsz, e.ring.rsz, i), h)
  }

  lemma NextTemplated(kind: Kind, e: End, bsz: nat, x: Event, h: PacketPool.Headers)
    requires Whole(e, bsz) && ValidEvent(kind, bsz, x) && PacketPool.ValidHeaders(h) && Templated(kind, e, bsz, h)
    ensures Templated(kind, Next(kind, e, bsz, x), bsz, h)
  {
    var t := Next(kind, e, bsz, x);
    StepWellFormed(e.ring, ActionOf(kind, e, bsz, x));
    if kind.Sender? && x.Reads? && Claims(e) {
      forall i: nat | i < t.ring.rsz
        ensures PacketPool.KeepsTemplate(PacketPool.Block(t.pool, bsz, t.ring.rsz, i), h)
      {
        PacketPool.TxKeepsTemplate(e.pool, bsz, e.ring.rsz, FillOf(kind, e.ring.producer.slot, x.bytes), h, i);
      }
    }
  }

  lemma KeptIsDescribed(kind: Kind, e: End, bsz: nat, x: Event, h: PacketPool.Headers)
    requires Whole(e, bsz) && ValidEvent(kind, bsz, x) && PacketPool.ValidHeaders(h) && Templated(kind, e, bsz, h)
    ensures AllDescribed(kind, FilledBy(ActionOf(kind, e, bsz, x)),
                         if Keeps(kind, e, bsz, x) then [x.bytes] else [], h.ip[12..16])
  {
    if Keeps(kind, e, bsz, x) {
      var p := e.ring.producer.slot;
      if kind.Sender? {
        SlotCarries(e.pool, bsz, e.ring.rsz, p, x.bytes, h);
      } else {
        SlotReadFrom(e.pool, bsz, e.ring.rsz, p, x.bytes);
        PacketPool.Receiving(e.pool, bsz, e.ring.rsz, p, x.bytes, kind.peer);
      }
    }
  }

  lemma DescribedBoth(kind: Kind, pks: seq<Packet>, inputs: seq<seq<byte>>,
                      pks': seq<Packet>, inputs': seq<seq<byte>>, saddr: seq<byte>)
    requires AllDescribed(kind, pks, inputs, saddr) && AllDescribed(kind, pks', inputs', saddr)
    ensures AllDescribed(kind, pks + pks', inputs + inputs', saddr)
  {
  }

  /** Each packet the producer filled describes the read it kept. */
  lemma {:induction false} FillsDescribeReads(kind: Kind, e: End, bsz: nat, xs: seq<Event>, h: PacketPool.Headers)
    requires Whole(e, bsz) && ValidEvents(kind, bsz, xs) && PacketPool.ValidHeaders(h) && Templated(kind, e, bsz, h)
    ensures AllDescribed(kind, Fills(ActionsOf(kind, e, bsz, xs)), KeptReads(kind, e, bsz, xs), h.ip[12..16])
    decreases |xs|
  {
    if xs != [] {
      var t := Next(kind, e, bsz, xs[0]);
      var kept := if Keeps(kind, e, bsz, xs[0]) then [xs[0].bytes] else [];
      NextTemplated(kind, e, bsz, xs[0], h);
      KeptIsDescribed(kind, e, bsz, xs[0], h);
      FillsDescribeReads(kind, t, bsz, xs[1..], h);
      assert ActionsOf(kind, e, bsz, xs)[1..] == ActionsOf(kind, t, bsz, xs[1..]);
      DescribedBoth(kind, FilledBy(ActionOf(kind, e, bsz, xs[0])), kept,
                    Fills(ActionsOf(kind, t, bsz, xs[1..])), KeptReads(kind, t, bsz, xs[1..]), h.ip[12..16]);
    }
  }

  lemma {:induction false} KeptAreRead(kind: Kind, e: End, bsz: nat, xs: seq<Event>)
    requires Whole(e, bsz) && ValidEvents(kind, bsz, xs)
    ensures Subsequence(KeptReads(kind, e, bsz, xs), AllReads(xs))
    decreases |xs|
  {
    if xs == [] {
      assert EmbedsAt<seq<byte>>([], [], []);
    } else {
      var kept := KeptReads(kind, Next(kind, e, bsz, xs[0]), bsz, xs[1..]);
      KeptAreRead(kind, Next(kind, e, bsz, xs[0]), bsz, xs[1..]);
      if Keeps(kind, e, bsz, xs[0]) {
        SubsequenceTake(kept, AllReads(xs[1..]), xs[0].bytes);
      } else {
        assert [] + kept == kept;
        if xs[0].Reads? {
          SubsequenceSkip(kept, AllReads(xs[1..]), xs[0].bytes);
        } else {
          assert [] + AllReads(xs[1..]) == AllReads(xs[1..]);
        }
      }
    }
  }

  // ----- From one end to the other -----

  /** Frames of a stream that come from the peer are also there when the others are left out. */
  lemma {:induction false} PeerFramesRemain(fs: seq<Frame>, stream: seq<Frame>, saddr: seq<byte>)
    requires Subsequence(fs, stream) && forall k :: 0 <= k < |fs| ==> IsFrom(fs[k], saddr)
    ensures Subsequence(fs, FromPeer(stream, saddr))
    decreases |stream|
  {
    if fs == [] {
      assert EmbedsAt(fs, FromPeer(stream, saddr), []);
    } else {
      SubsequenceOfSome(fs, stream);
      var rest := FromPeer(stream[1..], saddr);
      assert stream == [stream[0]] + stream[1..];
      SubsequenceHead(fs, stream[0], stream[1..]);
      if Subsequence(fs, stream[1..]) {
        PeerFramesRemain(fs, stream[1..], saddr);
        if IsFrom(stream[0], saddr) {
          SubsequenceSkip(fs, rest, stream[0]);
        } else {
          assert [] + rest == rest;
        }
      } else {
        PeerFramesRemain(fs[1..], stream[1..], saddr);
        SubsequenceTake(fs[1..], rest, stream[0]);
        assert fs == [fs[0]] + fs[1..];
      }
    }
  }

  /** The path of every delivered packet back through the wire and the sender's ring. */
  lemma Crossing(payloads: seq<Payload>, saddr: seq<byte>, fills: seq<Packet>, sent: seq<Packet>,
                 frames: seq<Frame>, got: seq<Packet>)
    requires AllDescribed(Sender, fills, payloads, saddr)
    requires Subsequence(sent, fills)
    requires Subsequence(frames, OnWireAll(sent))
    requires |got| == |frames| && forall k :: 0 <= k < |got| ==> ReadFrom(got[k], frames[k])
    ensures Subsequence(DeliveredAll(got), payloads)
  {
    var near: seq<nat> :| EmbedsAt(sent, fills, near);
    var across: seq<nat> :| EmbedsAt(frames, OnWireAll(sent), across);
    var path: seq<nat> := seq(|got|, k requires 0 <= k < |got| => near[across[k]]);
    forall k | 0 <= k < |got|
      ensures path[k] < |payloads| && Delivered(got[k]) == payloads[path[k]]
    {
      assert Describes(Sender, fills[path[k]], payloads[path[k]], saddr);
      OneCrossing(sent[across[k]], got[k], payloads[path[k]], saddr);
    }
    assert EmbedsAt(DeliveredAll(got), payloads, path);
  }

  /** The frames that what the receiver's ring passed on was read from: some of those read from the peer. */
  lemma ReceivedFrames(fills: seq<Packet>, inputs: seq<Frame>, peer: seq<byte>, saddr: seq<byte>, got: seq<Packet>)
    returns (frames: seq<Frame>)
    requires AllDescribed(Receiver(peer), fills, inputs, saddr)
    requires Subsequence(got, fills) && forall k :: 0 <= k < |got| ==> got[k].len > 14
    ensures Subsequence(frames, inputs)
    ensures |got| == |frames| && forall k :: 0 <= k < |got| ==> ReadFrom(got[k], frames[k]) && IsFrom(frames[k], peer)
  {
    var far: seq<nat> :| EmbedsAt(got, fills, far);
    frames := seq(|got|, k requires 0 <= k < |got| => inputs[far[k]]);
    forall k | 0 <= k < |got| ensures ReadFrom(got[k], frames[k]) && IsFrom(frames[k], peer) {
      assert Describes(Receiver(peer), fills[far[k]], inputs[far[k]], saddr);
    }
    assert EmbedsAt(frames, inputs, far);
  }

  /** A ring with its pool as the program starts them. */
  datatype Setup = Setup(rsz: nat, inPos: nat, outPos: nat, sz: nat, bsz: nat, pool: seq<byte>)

  predicate ValidSetup(u: Setup) {
    ValidStart(u.rsz, u.inPos, u.outPos, u.sz) && u.inPos < u.rsz && PacketPool.Shaped(u.pool, u.bsz, u.rsz)
  }

  function Begin(u: Setup): End {
    End(Started(u.rsz, u.inPos, u.outPos, u.sz), u.pool)
  }

  /** Everything that happens at one end, none of it a push that steps over a held slot. */
  predicate ValidRun(kind: Kind, u: Setup, xs: seq<Event>) {
    && ValidSetup(u) && ValidEvents(kind, u.bsz, xs)
    && RingOrder.Undisturbed(Begin(u).ring, ActionsOf(kind, Begin(u), u.bsz, xs))
  }

  /** What the consumer at one end finds in the slots is filled in by its producer, in order. */
  lemma TakenAreFills(kind: Kind, u: Setup, xs: seq<Event>)
    requires ValidRun(kind, u, xs)
    ensures var taken := AllTaken(kind, Begin(u), u.bsz, xs);
            && Subsequence(taken, Fills(ActionsOf(kind, Begin(u), u.bsz, xs)))
            && forall k :: 0 <= k < |taken| ==> taken[k].len > 14
  {
    RingOrder.InterleavedOrder(u.rsz, u.inPos, u.outPos, u.sz, ActionsOf(kind, Begin(u), u.bsz, xs));
    SentIsTaken(kind, Begin(u), u.bsz, xs);
    var taken := AllTaken(kind, Begin(u), u.bsz, xs);
    assert [] + taken == taken;
  }

  lemma BeginSound(u: Setup)
    requires ValidSetup(u)
    ensures Sound(Begin(u), u.bsz)
  {
    StartSafe(u.rsz, u.inPos, u.outPos, u.sz);
  }

  /**
   * The tunnel neither reorders nor duplicates nor alters. The sender's slots start with the
   * headers of init_ring_buffer, and its source address is the receiver's peer. Between the
   * two the wire may lose frames and may carry any number of others, but those read by rx_io
   * that show the peer's address are frames that tx sent, in order. Then whatever steps the
   * four threads make, whatever is read in between and whatever the rings' sizes and starts,
   * as long as no push steps over a slot that its consumer holds, what rx writes is what
   * tx_io read, with some payloads missing.
   */
  lemma EndToEnd(near: Setup, xs: seq<Event>, far: Setup, ys: seq<Event>, h: PacketPool.Headers)
    requires PacketPool.ValidHeaders(h)
    requires ValidRun(Sender, near, xs) && Templated(Sender, Begin(near), near.bsz, h)
    requires ValidRun(Receiver(h.ip[12..16]), far, ys)
    requires Subsequence(FromPeer(AllReads(ys), h.ip[12..16]), AllLeft(Sender, Begin(near), near.bsz, xs))
    ensures Subsequence(AllLeft(Receiver(h.ip[12..16]), Begin(far), far.bsz, ys), AllReads(xs))
  {
    var peer := h.ip[12..16];
    var rx := Receiver(peer);
    var sent, got := AllTaken(Sender, Begin(near), near.bsz, xs), AllTaken(rx, Begin(far), far.bsz, ys);
    var payloads, inputs := KeptReads(Sender, Begin(near), near.bsz, xs), KeptReads(rx, Begin(far), far.bsz, ys);
    BeginSound(near);
    BeginSound(far);
    AllTakenLeaves(Sender, Begin(near), near.bsz, xs);
    AllTakenLeaves(rx, Begin(far), far.bsz, ys);
    TakenAreFills(Sender, near, xs);
    TakenAreFills(rx, far, ys);
    FillsDescribeReads(Sender, Begin(near), near.bsz, xs, h);
    FillsDescribeReads(rx, Begin(far), far.bsz, ys, h);
    var frames := ReceivedFrames(Fills(ActionsOf(rx, Begin(far), far.bsz, ys)), inputs, peer, peer, got);
    KeptAreRead(rx, Begin(far), far.bsz, ys);
    SubsequenceTransitive(frames, inputs, AllReads(ys));
    PeerFramesRemain(frames, AllReads(ys), peer);
    SubsequenceTransitive(frames, FromPeer(AllReads(ys), peer), OnWireAll(sent));
    Crossing(payloads, peer, Fills(ActionsOf(Sender, Begin(near), near.bsz, xs)), sent, frames, got);
    KeptAreRead(Sender, Begin(near), near.bsz, xs);
    SubsequenceTransitive(DeliveredAll(got), payloads, AllReads(xs));
  }

  // ----- And it does deliver -----

  /** One read goes through an empty ring. */
  function OneRound(bytes: seq<byte>): seq<Event> {
    [Does(Push), Reads(bytes), Does(Commit), Does(Pop), Does(Release)]
  }

  predicate EmptySetup(u: Setup) {
    ValidSetup(u) && u.inPos == 0 && u.outPos == 0 && u.sz == 0
  }

  lemma LeftAfter(kind: Kind, e: End, bsz: nat, xs: seq<Event>)
    requires Whole(e, bsz) && ValidEvents(kind, bsz, xs) && xs != [] && LeavesAt(kind, e, bsz, xs[0]) == []
    ensures AllLeft(kind, e, bsz, xs) == AllLeft(kind, Next(kind, e, bsz, xs[0]), bsz, xs[1..])
  {
  }

  /** An end whose consumer holds slot 0. */
  predicate AtRelease(e: End, bsz: nat, pool: seq<byte>, len: int) {
    && Whole(e, bsz) && e.pool == pool && e.ring.consumer == Reading(0) && e.ring.lens[0] == len
  }

  /** A kept read of an empty ring, not yet committed. */
  predicate AtCommit(e: End, bsz: nat, pool: seq<byte>, len: int) {
    && Whole(e, bsz) && e.pool == pool && e.ring.producer == Holding(0, true) && e.ring.consumer.Ready?
    && e.ring.inPos == 0 && e.ring.outPos == 0 && e.ring.sz == 0
    && e.ring.lens[0] == len && e.ring.locks[0] == 1
  }

  /** An empty ring whose producer has claimed slot 0. */
  predicate AtRead(e: End, bsz: nat, pool: seq<byte>) {
    && Whole(e, bsz) && e.pool == pool && e.ring.producer == Holding(0, false) && e.ring.consumer.Ready?
    && e.ring.inPos == 0 && e.ring.outPos == 0 && e.ring.sz == 0 && e.ring.locks[0] == 1
  }

  lemma UpToRead(kind: Kind, u: Setup, bytes: seq<byte>) returns (e: End)
    requires EmptySetup(u) && |bytes| <= ReadLimit(kind, u.bsz)
    ensures AtRead(e, u.bsz, u.pool) && e.ring.rsz == u.rsz && ValidEvents(kind, u.bsz, OneRound(bytes))
    ensures AllLeft(kind, Begin(u), u.bsz, OneRound(bytes)) == AllLeft(kind, e, u.bsz, OneRound(bytes)[1..])
  {
    e := Next(kind, Begin(u), u.bsz, OneRound(bytes)[0]);
    LeftAfter(kind, Begin(u), u.bsz, OneRound(bytes));
  }

  lemma ReadAtOnce(kind: Kind, a: End, bsz: nat, pool: seq<byte>, bytes: seq<byte>, rest: seq<Event>) returns (e: End)
    requires AtRead(a, bsz, pool) && |bytes| <= ReadLimit(kind, bsz) && ValidEvents(kind, bsz, rest)
    requires var after := PacketPool.Filled(pool, bsz, a.ring.rsz, FillOf(kind, 0, bytes));
             kind.Receiver? ==> PacketPool.Accepts(after, bsz, a.ring.rsz, 0, |bytes|, kind.peer)
    ensures AtCommit(e, bsz, PacketPool.Filled(pool, bsz, a.ring.rsz, FillOf(kind, 0, bytes)),
                     if kind.Sender? then |bytes| else |bytes| - 34)
    ensures e.ring.rsz == a.ring.rsz
    ensures AllLeft(kind, a, bsz, [Reads(bytes)] + rest) == AllLeft(kind, e, bsz, rest)
  {
    e := Next(kind, a, bsz, Reads(bytes));
    assert ([Reads(bytes)] + rest)[1..] == rest;
    LeftAfter(kind, a, bsz, [Reads(bytes)] + rest);
  }

  lemma UpToCommit(kind: Kind, u: Setup, bytes: seq<byte>) returns (e: End)
    requires EmptySetup(u) && |bytes| <= ReadLimit(kind, u.bsz)
    requires var pool := PacketPool.Filled(u.pool, u.bsz, u.rsz, FillOf(kind, 0, bytes));
             kind.Receiver? ==> PacketPool.Accepts(pool, u.bsz, u.rsz, 0, |bytes|, kind.peer)
    ensures AtCommit(e, u.bsz, PacketPool.Filled(u.pool, u.bsz, u.rsz, FillOf(kind, 0, bytes)),
                     if kind.Sender? then |bytes| else |bytes| - 34)
    ensures e.ring.rsz == u.rsz && ValidEvents(kind, u.bsz, OneRound(bytes))
    ensures AllLeft(kind, Begin(u), u.bsz, OneRound(bytes)) ==
            AllLeft(kind, e, u.bsz, [Does(Commit), Does(Pop), Does(Release)])
  {
    var rest := [Does(Commit), Does(Pop), Does(Release)];
    assert OneRound(bytes)[1..] == [Reads(bytes)] + rest;
    var a := UpToRead(kind, u, bytes);
    e := ReadAtOnce(kind, a, u.bsz, u.pool, bytes, rest);
  }

  /** What it leaves for the release. */
  lemma UpToRelease(kind: Kind, u: Setup, bytes: seq<byte>) returns (e: End)
    requires EmptySetup(u) && |bytes| <= ReadLimit(kind, u.bsz)
    requires var pool := PacketPool.Filled(u.pool, u.bsz, u.rsz, FillOf(kind, 0, bytes));
             kind.Receiver? ==> PacketPool.Accepts(pool, u.bsz, u.rsz, 0, |bytes|, kind.peer)
    ensures AtRelease(e, u.bsz, PacketPool.Filled(u.pool, u.bsz, u.rsz, FillOf(kind, 0, bytes)),
                      if kind.Sender? then |bytes| else |bytes| - 34)
    ensures e.ring.rsz == u.rsz && ValidEvents(kind, u.bsz, OneRound(bytes))
    ensures AllLeft(kind, Begin(u), u.bsz, OneRound(bytes)) == LeavesAt(kind, e, u.bsz, Does(Release))
  {
    var c := UpToCommit(kind, u, bytes);
    e := CommitAndPop(kind, c, u.bsz, c.pool, c.ring.lens[0]);
  }

  lemma CommitAndPop(kind: Kind, c: End, bsz: nat, pool: seq<byte>, len: int) returns (e: End)
    requires AtCommit(c, bsz, pool, len)
    ensures AtRelease(e, bsz, pool, len) && e.ring.rsz == c.ring.rsz
    ensures AllLeft(kind, c, bsz, [Does(Commit), Does(Pop), Does(Release)]) == LeavesAt(kind, e, bsz, Does(Release))
  {
    var ys := [Does(Commit), Does(Pop), Does(Release)];
    var d := Next(kind, c, bsz, ys[0]);
    assert d.ring == DoCommit(c.ring) && d.pool == pool;
    e := Next(kind, d, bsz, ys[1]);
    LeftAfter(kind, c, bsz, ys);
    LeftAfter(kind, d, bsz, ys[1..]);
    assert ys[1..][1..] == [Does(Release)] && [Does(Release)][1..] == [];
  }

  lemma SentOnce(u: Setup, payload: seq<byte>, h: PacketPool.Headers)
    requires PacketPool.ValidHeaders(h) && EmptySetup(u) && Templated(Sender, Begin(u), u.bsz, h)
    requires |payload| + 38 <= u.bsz
    ensures ValidEvents(Sender, u.bsz, OneRound(payload))
    ensures var out := AllLeft(Sender, Begin(u), u.bsz, OneRound(payload));
            && (|payload| <= 14 ==> out == [])
            && (|payload| > 14 ==>
                  |out| == 1 && |out[0]| == |payload| + 34 && out[0][26..30] == h.ip[12..16] && out[0][34..] == payload)
  {
    var e := UpToRelease(Sender, u, payload);
    PacketPool.Sending(u.pool, u.bsz, u.rsz, 0, payload, h);
  }

  lemma ReceivedOnce(u: Setup, frame: Frame, peer: seq<byte>)
    requires EmptySetup(u) && 48 < |frame| && |frame| + 4 <= u.bsz && frame[26..30] == peer
    ensures ValidEvents(Receiver(peer), u.bsz, OneRound(frame))
    ensures AllLeft(Receiver(peer), Begin(u), u.bsz, OneRound(frame)) == [frame[34..]]
  {
    PacketPool.Receiving(u.pool, u.bsz, u.rsz, 0, frame, peer);
    var e := UpToRelease(Receiver(peer), u, frame);
  }

  /**
   * Through empty rings of any size and whatever their slots held before: every payload longer
   * than 14 bytes that fits leaves as one frame, and that frame, read by the peer's rx_io,
   * leaves as exactly the payload. A shorter payload does not leave.
   */
  lemma OnePayloadCrosses(near: Setup, far: Setup, payload: seq<byte>, h: PacketPool.Headers)
    requires PacketPool.ValidHeaders(h) && EmptySetup(near) && EmptySetup(far)
    requires Templated(Sender, Begin(near), near.bsz, h)
    requires |payload| + 38 <= near.bsz && |payload| + 38 <= far.bsz
    ensures ValidEvents(Sender, near.bsz, OneRound(payload))
    ensures var out, rx := AllLeft(Sender, Begin(near), near.bsz, OneRound(payload)), Receiver(h.ip[12..16]);
            && (|payload| <= 14 ==> out == [])
            && (|payload| > 14 ==>
                  && |out| == 1 && |out[0]| == |payload| + 34
                  && ValidEvents(rx, far.bsz, OneRound(out[0]))
                  && AllLeft(rx, Begin(far), far.bsz, OneRound(out[0])) == [payload])
  {
    SentOnce(near, payload, h);
    if |payload| > 14 {
      var frame := AllLeft(Sender, Begin(near), near.bsz, OneRound(payload))[0];
      ReceivedOnce(far, frame, h.ip[12..16]);
    }
  }

  /** The slots that init_ring_buffer prepares have the template that EndToEnd asks for. */
  lemma PreparedTemplated(u: Setup, h: PacketPool.Headers)
    requires ValidSetup(u) && PacketPool.ValidHeaders(h)
    requires PacketPool.PreparedBelow(u.pool, u.bsz, u.rsz, h, u.rsz)
    ensures Templated(Sender, Begin(u), u.bsz, h)
  {
    PacketPool.PreparedIntact(u.pool, u.bsz, u.rsz, h);
  }
}
