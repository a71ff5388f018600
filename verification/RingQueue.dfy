/** The packet ring in place: the queue record of ring.h with the operations of ring.c. */
module RingQueue {
  import opened Bytes
  import opened RingModel
  import opened RingSafety
  import opened RingAtomic

  /** What `push` and `pop` return: the LOCKFAIL marker, a null pointer, or a slot. */
  datatype Got = LockFail | Null | Slot(index: nat)

  /** Compare-and-swap from 0 to 1; the result is what was there. */
  method AtomicLock(a: array<int>, i: nat) returns (was: int)
    requires i < a.Length
    modifies a
    ensures was == old(a[i])
    ensures a[..] == old(a[..])[i := if was == 0 then 1 else was]
  {
    was := a[i];
    if was == 0 {
      a[i] := 1;
    }
  }

  /** Compare-and-swap from 1 to 0; the result is what was there. */
  method AtomicUnlock(a: array<int>, i: nat) returns (was: int)
    requires i < a.Length
    modifies a
    ensures was == old(a[i])
    ensures a[..] == old(a[..])[i := if was == 1 then 0 else was]
  {
    was := a[i];
    if was == 1 {
      a[i] := 0;
    }
  }

  /** A position that has run off the end starts again at 0. */
  function Restart(i: nat, rsz: nat): nat {
    if i >= rsz then 0 else i
  }

  /** The counter goes up, but not beyond the number of slots. */
  function Saturated(sz: nat, rsz: nat): nat {
    if sz >= rsz then sz else sz + 1
  }

  class Queue {
    const rsz: nat
    var inPos: nat
    var outPos: nat
    var sz: nat
    var qlock: int
    var full: bool
    const lens: array<int>
    const locks: array<int>
    const frames: array<Frame>

    // Which thread holds what, and the history, for specification only.
    ghost var producer: Producer
    ghost var consumer: Consumer
    ghost var log: Log

    ghost function Abs(): State
      reads this, lens, locks, frames
    {
      State(rsz, inPos, outPos, sz, full, lens[..], locks[..], frames[..], producer, consumer, log)
    }

    ghost predicate Valid()
      reads this, lens, locks, frames
    {
      && lens.Length == locks.Length == frames.Length == rsz
      && lens != locks
      && WellFormed(Abs())
    }

    /** init_ring_buffer on a queue record that malloc returned with this `in`, `out` and `sz`. */
    constructor (rsz: nat, inPos: nat, outPos: nat, sz: nat)
      requires ValidStart(rsz, inPos, outPos, sz)
      ensures Valid() && qlock == 0 && Abs() == Started(rsz, inPos, outPos, sz)
      ensures this.inPos == inPos && this.outPos == outPos && this.sz == sz && !full
      ensures forall i :: 0 <= i < rsz ==> lens[i] == 0 && locks[i] == 0
      ensures fresh(lens) && fresh(locks) && fresh(frames)
    {
      this.rsz := rsz;
      this.inPos, this.outPos, this.sz := inPos, outPos, sz;
      qlock, full := 0, false;
      lens := new int[rsz](_ => 0);
      locks := new int[rsz](_ => 0);
      frames := new Frame[rsz](_ => []);
      producer, consumer, log := Free, Ready, Started(rsz, inPos, outPos, sz).log;
      new;
      assert Abs() == Started(rsz, inPos, outPos, sz);
    }

    method ResetRing()
      requires Valid()
      modifies this, lens
      ensures Valid() && qlock == 0
      ensures Abs() == RingModel.ResetRing(old(Abs()))
      ensures inPos == 0 && outPos == 0 && sz == 0 && !full
      ensures forall i :: 0 <= i < rsz ==> lens[i] == 0
      ensures producer == old(producer) && consumer == old(consumer)
    {
      ghost var before := Abs();
      inPos := 0;
      outPos := 0;
      sz := 0;
      qlock := 0;
      full := false;
      for i := 0 to rsz
        invariant forall k :: 0 <= k < i ==> lens[k] == 0
        invariant Abs() == before.(inPos := 0, outPos := 0, sz := 0, full := false, lens := lens[..])
        invariant qlock == 0
      {
        lens[i] := 0;
      }
      log := RingModel.ResetRing(before).log;
      assert lens[..] == RingModel.ResetRing(before).lens;
    }

    /**
     * The search loop of `push`: pass over locked slots and lock the first that is not. One
     * must exist from `in` upward, or the search would leave the array.
     */
    method LockNext()
      requires Valid() && PushScan(locks[..], inPos) < rsz
      modifies this`inPos, locks
      ensures var p := PushScan(old(locks[..]), old(inPos));
              Abs() == old(Abs()).(inPos := p, locks := old(locks[..])[p := 1])
    {
      ghost var before := locks[..];
      ghost var p := PushScan(before, inPos);
      PushScanIsForward(before, inPos);
      var busy := AtomicLock(locks, inPos);
      while busy != 0
        invariant inPos <= p && PushScan(before, inPos) == p
        invariant busy == before[inPos]
        invariant locks[..] == if busy == 0 then before[inPos := 1] else before
        decreases p - inPos
      {
        inPos := Restart(inPos, rsz);
        inPos := inPos + 1;
        PushScanIsForward(before, inPos);
        busy := AtomicLock(locks, inPos);
      }
    }

    /** Producer: claim the next slot. Its search must not leave the array. */
    method Push() returns (r: Got)
      requires Valid() && producer.Free? && DoPush(Abs()).Running?
      modifies this, locks
      ensures Valid()
      ensures old(qlock) != 0 ==> r == LockFail && qlock == old(qlock) && Abs() == old(Abs())
      ensures old(qlock) == 0 ==> r != LockFail && qlock == 0 && Running(Abs()) == DoPush(old(Abs()))
      ensures r == Null ==> full && producer.Free?
      ensures r.Slot? ==> producer == Holding(r.index, false) && r.index < rsz
      ensures old(qlock) == 0 ==>
                && old(inPos) <= inPos < rsz
                && (forall k :: old(inPos) <= k < inPos ==> old(locks[..])[k] != 0) && old(locks[..])[inPos] == 0
                && (r == Null <==> sz >= rsz - 1 || inPos + 1 == outPos)
                && (r.Slot? ==> r.index == inPos && full == old(full) && locks[..] == old(locks[..])[inPos := 1])
                && (r == Null ==> full && locks[..] == old(locks[..]))
      ensures outPos == old(outPos) && sz == old(sz) && consumer == old(consumer)
    {
      if qlock != 0 {
        return LockFail;
      }
      qlock := 1;
      ghost var before := Abs();
      PushScanIsForward(before.locks, inPos);
      PushScanIsFree(before.locks, inPos);
      PushScanSkipsLocked(before.locks, inPos);
      LockNext();
      inPos := Restart(inPos, rsz);
      if sz >= rsz - 1 || inPos == Dec32(outPos) {
        full := true;
        var _ := AtomicUnlock(locks, inPos);
        assert locks[..] == before.locks;
        qlock := 0;
        return Null;
      }
      qlock := 0;
      producer := Holding(inPos, false);
      log := DoPush(before).state.log;
      return Slot(inPos);
    }

    /** Producer: what one read leaves in the claimed slot. */
    method Fill(i: nat, len: int, frame: Frame, ghost kept: bool)
      requires Valid() && producer.Holding? && producer.slot == i < rsz
      modifies this`producer, lens, frames
      ensures Valid() && Abs() == DoFill(old(Abs()), len, frame, kept)
      ensures lens[..] == old(lens[..])[i := len] && frames[..] == old(frames[..])[i := frame]
    {
      lens[i] := len;
      frames[i] := frame;
      producer := Holding(i, kept);
    }

    /** Producer: unlock the slot and count it. */
    method Commit(i: nat)
      requires Valid() && producer.Holding? && producer.slot == i < rsz && locks[i] == 1
      modifies this, locks
      ensures Valid() && Abs() == DoCommit(old(Abs())) && qlock == old(qlock)
      ensures locks[..] == old(locks[..])[i := 0]
      ensures sz == if old(sz) < rsz then old(sz) + 1 else old(sz)
      ensures inPos == if old(inPos) < rsz - 1 then old(inPos) + 1 else 0
      ensures outPos == old(outPos) && full == old(full) && consumer == old(consumer) && producer.Free?
    {
      ghost var before := Abs();
      var _ := AtomicUnlock(locks, i);
      sz := Saturated(sz, rsz);
      inPos := inPos + 1;
      if inPos >= rsz {
        inPos := inPos - inPos;
      }
      producer := Free;
      log := DoCommit(before).log;
    }

    /** The search loop of `pop`: go around past locked slots and lock the first that is not. */
    method LockOldest()
      requires Valid() && sz > 0
      requires outPos < rsz && PopScan(locks[..], outPos, rsz).Found?
      modifies this`outPos, locks
      ensures var c := PopScan(old(locks[..]), old(outPos), rsz).slot;
              c < rsz && Abs() == old(Abs()).(outPos := c, locks := old(locks[..])[c := 1])
    {
      ghost var before := locks[..];
      ghost var c := PopScan(before, outPos, rsz).slot;
      var busy := AtomicLock(locks, outPos);
      ghost var fuel := rsz;
      while sz > 0 && busy != 0
        invariant outPos < rsz && PopScan(before, outPos, fuel) == Found(c)
        invariant busy == before[outPos]
        invariant locks[..] == if busy == 0 then before[outPos := 1] else before
        decreases fuel
      {
        outPos := if outPos >= rsz - 1 then 0 else outPos + 1;
        fuel := fuel - 1;
        busy := AtomicLock(locks, outPos);
      }
    }

    /**
     * Consumer: claim the oldest slot. Its search must end. When there is nothing to claim,
     * `full` is looked at only afterwards, by CheckFull.
     */
    method Pop() returns (r: Got)
      requires Valid() && consumer.Ready? && DoPop(Abs()).Running?
      modifies this, locks
      ensures Valid()
      ensures old(qlock) != 0 ==> r == LockFail && qlock == old(qlock) && Abs() == old(Abs())
      ensures old(qlock) == 0 ==> r != LockFail && qlock == 0 && Running(Abs()) == DoPop(old(Abs()))
      ensures r == Null ==> consumer == Drained
      ensures r.Slot? ==> consumer == Reading(r.index) && r.index < rsz
      ensures old(qlock) == 0 ==>
                && (r == Null <==> old(sz) == 0 || inPos == old(outPos))
                && (r == Null ==> sz == 0 && outPos == old(outPos) && locks[..] == old(locks[..]))
                && (r.Slot? ==>
                      var start := if old(outPos) < rsz - 1 then old(outPos) else 0;
                      && (old(locks[start]) == 0 ==> r.index == start)
                      && old(locks[r.index]) == 0 && locks[..] == old(locks[..])[r.index := 1]
                      && outPos == r.index + 1 && sz == old(sz))
      ensures inPos == old(inPos) && full == old(full) && producer == old(producer)
    {
      if qlock != 0 {
        return LockFail;
      }
      qlock := 1;
      if sz < 1 || inPos == outPos {
        sz := 0;
        qlock := 0;
        consumer := Drained;
        return Null;
      }
      if outPos >= rsz - 1 {
        outPos := 0;
      }
      PopScanIsFree(locks[..], outPos, rsz);
      LockOldest();
      qlock := 0;
      r := Slot(outPos);
      outPos := outPos + 1;
      consumer := Reading(r.index);
    }

    /** Consumer: the rest of a `pop` that found nothing. */
    method CheckFull()
      requires Valid() && consumer.Drained?
      modifies this, lens
      ensures Valid() && Running(Abs()) == Step(old(Abs()), Recheck)
      ensures old(full) ==> inPos == 0 && outPos == 0 && sz == 0 && forall i :: 0 <= i < rsz ==> lens[i] == 0
      ensures !old(full) ==>
                && inPos == old(inPos) && outPos == old(outPos) && sz == old(sz) && lens[..] == old(lens[..])
      ensures !full && consumer.Asleep?
      ensures old(qlock) == 0 ==> qlock == 0
    {
      if full {
        ResetRing();
      }
      consumer := Asleep;
    }

    /** Consumer: pass the slot's packet on if it is long enough, then give the slot back. */
    method Release(i: nat) returns (out: Option<Packet>)
      requires Valid() && consumer.Reading? && consumer.slot == i < rsz && locks[i] == 1
      modifies this, lens, locks
      ensures Valid() && Abs() == DoRelease(old(Abs())) && qlock == old(qlock)
      ensures out == if old(lens[i]) > 14 then Some(Packet(old(lens[i]), frames[i])) else None
      ensures lens[..] == old(lens[..])[i := -1] && locks[..] == old(locks[..])[i := 0]
      ensures sz == if old(sz) == 0 then 0 else old(sz) - 1
      ensures inPos == old(inPos) && outPos == old(outPos) && full == old(full)
      ensures producer == old(producer) && consumer.Ready?
    {
      ghost var before := Abs();
      out := None;
      if lens[i] > SHORTEST {
        out := Some(Packet(lens[i], frames[i]));
      }
      lens[i] := -1;
      sz := if sz < 1 then 0 else sz - 1;
      var _ := AtomicUnlock(locks, i);
      consumer := Ready;
      log := DoRelease(before).log;
    }

    /** One turn of the producer's loop, not interrupted. */
    method ProducerRound(len: int, frame: Frame) returns (accepted: bool)
      requires Valid() && Safe(Abs()) && Quiet(Abs()) && qlock == 0
      modifies this, lens, locks, frames
      ensures Valid() && Safe(Abs()) && Quiet(Abs()) && qlock == 0
      ensures Abs() == Produced(old(Abs()), len, frame)
      ensures accepted == !Refused(old(Abs()))
    {
      ghost var before := Abs();
      RoundIsActions(before, Produce(len, frame));
      PushSteps(before, len, frame);
      var r := Push();
      accepted := r.Slot?;
      if r.Slot? {
        Fill(r.index, len, frame, true);
        Commit(r.index);
      }
    }

    /**
     * One turn of the consumer's loop, not interrupted. After finding the ring empty the
     * thread sleeps until the counter moves; `asleep` is where the thread stands.
     */
    method ConsumerRound(asleep: bool) returns (out: Option<Packet>, stillAsleep: bool)
      requires Valid() && Safe(Abs()) && Quiet(Abs()) && qlock == 0 && asleep == consumer.Asleep?
      modifies this, lens, locks
      ensures Valid() && Safe(Abs()) && Quiet(Abs()) && qlock == 0 && stillAsleep == consumer.Asleep?
      ensures Abs() == Consumed(old(Abs()))
      ensures log.sent == old(log.sent) + if out.Some? then [out.value] else []
    {
      ghost var before := Abs();
      ghost var awake := before.(consumer := Ready);
      RoundIsActions(before, Consume);
      WakeSteps(before);
      if asleep && sz == 0 {
        return None, true;
      }
      PopSteps(awake);
      consumer := Ready;
      assert Abs() == awake;
      out, stillAsleep := AwakeRound();
    }

    /** The consumer's turn from `pop` on. */
    method AwakeRound() returns (out: Option<Packet>, nowAsleep: bool)
      requires Valid() && consumer.Ready? && qlock == 0 && DoPop(Abs()).Running?
      requires var u := DoPop(Abs()).state;
               u.consumer.Reading? ==> u.consumer.slot < rsz && |u.locks| == rsz && u.locks[u.consumer.slot] == 1
      modifies this, lens, locks
      ensures Valid() && qlock == 0
      ensures var u := DoPop(old(Abs())).state;
              && WellFormed(u)
              && (u.consumer.Drained? ==> Running(Abs()) == Step(u, Recheck) && out == None && nowAsleep)
              && (u.consumer.Reading? ==>
                    && u.consumer.slot < rsz
                    && Abs() == DoRelease(u)
                    && log.sent == u.log.sent + (if out.Some? then [out.value] else [])
                    && !nowAsleep)
    {
      var r := Pop();
      if r.Slot? {
        out := Release(r.index);
        nowAsleep := false;
      } else {
        CheckFull();
        out, nowAsleep := None, true;
      }
    }
  }
}
