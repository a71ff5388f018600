/**
 * The mutex-protected byte ring of ringtst.c. Every operation runs under the mutex, so any
 * number of producer and consumer threads amounts to some sequence of operations.
 */
module ByteRing {
  import opened Bytes

  type Block = seq<byte>

  /**
   * The queue record and the program's counters. `accepted` and `popped` are the blocks taken
   * in and handed out so far, and `outstanding[j]` is how many accepted blocks had not been
   * handed out when the j-th block was.
   */
  datatype State = State(
    bsz: nat,
    rsz: nat,
    inPos: nat,
    outPos: nat,
    sz: nat,
    total: nat,
    lost: nat,
    rng: seq<byte>,
    accepted: seq<Block>,
    popped: seq<Block>,
    outstanding: seq<int>)

  datatype Op = Enqueue(block: Block) | Pop

  function Init(bsz: nat, rsz: nat): State {
    State(bsz, rsz, 0, 0, 0, 0, 0, seq((rsz + bsz) * bsz, _ => 0), [], [], [])
  }

  /** Both operations first send an index back to 0 that has come too near the end. */
  function Rewound(s: State, pos: nat): nat {
    if pos >= s.rsz - s.bsz then 0 else pos
  }

  function Written(rng: seq<byte>, at: nat, block: Block): seq<byte>
    requires at + |block| <= |rng|
  {
    rng[..at] + block + rng[at + |block|..]
  }

  /** The copies stay inside the allocation. */
  predicate Fits(s: State) {
    && Rewound(s, s.inPos) + s.bsz <= |s.rng|
    && Rewound(s, s.outPos) + s.bsz <= |s.rng|
  }

  /** What is put in has the ring's block size. */
  predicate ValidOp(bsz: nat, op: Op) {
    op.Enqueue? ==> |op.block| == bsz
  }

  function Apply(s: State, op: Op): State
    requires Fits(s) && ValidOp(s.bsz, op)
  {
    match op
    case Enqueue(block) =>
      var at := Rewound(s, s.inPos);
      if s.sz >= s.rsz then s.(inPos := at, lost := s.lost + 1)
      else
        s.(inPos := at + s.bsz, sz := s.sz + s.bsz, total := s.total + s.bsz,
           rng := Written(s.rng, at, block), accepted := s.accepted + [block])
    case Pop =>
      var at := Rewound(s, s.outPos);
      if s.sz < s.bsz then s.(outPos := at)
      else
        s.(outPos := at + s.bsz, sz := s.sz - s.bsz,
           popped := s.popped + [s.rng[at..at + s.bsz]],
           outstanding := s.outstanding + [|s.accepted| - |s.popped|])
  }

  // ----- Positions -----

  /** Where position j lies in the buffer. */
  function Offset(bsz: nat, j: nat): nat {
    j * bsz
  }

  lemma OffsetStep(bsz: nat, j: nat)
    ensures Offset(bsz, j + 1) == Offset(bsz, j) + bsz
  {
  }

  lemma OffsetsApart(bsz: nat, i: nat, j: nat)
    requires i < j
    ensures Offset(bsz, i) + bsz <= Offset(bsz, j)
  {
    assert (i + 1) * bsz <= j * bsz;
  }

  /** How many block positions an index runs through before it is sent back. */
  function Positions(bsz: nat, rsz: nat): (k: nat)
    requires bsz > 0
    ensures k >= 1
    ensures rsz > bsz ==> Offset(bsz, k) < rsz <= Offset(bsz, k) + bsz
  {
    if rsz <= bsz then 1 else (rsz - 1) / bsz
  }

  /** It is the (rsz - bsz) / bsz of the program, rounded up. */
  lemma PositionsRoundUp(bsz: nat, rsz: nat)
    requires rsz > bsz > 0
    ensures Positions(bsz, rsz) == (rsz - bsz + bsz - 1) / bsz
  {
  }

  /** Room for a block below rsz, or at the very start, is inside the allocation. */
  lemma AllocationCovers(bsz: nat, rsz: nat)
    requires bsz > 0
    ensures rsz <= (rsz + bsz) * bsz && bsz <= (rsz + bsz) * bsz
  {
  }

  /** Stepping from position j mod k and rewinding leads to position j + 1 mod k. */
  lemma NextPosition(s: State, k: nat, j: nat)
    requires s.bsz > 0 && k == Positions(s.bsz, s.rsz)
    ensures Rewound(s, Offset(s.bsz, j % k) + s.bsz) == Offset(s.bsz, (j + 1) % k)
    ensures Rewound(s, Offset(s.bsz, j % k)) == Offset(s.bsz, j % k)
    ensures Offset(s.bsz, j % k) + s.bsz <= (s.rsz + s.bsz) * s.bsz
  {
    Successor(j, k);
    PositionBounds(s, k, j % k);
  }

  lemma PositionBounds(s: State, k: nat, r: nat)
    requires s.bsz > 0 && k == Positions(s.bsz, s.rsz) && r < k
    ensures Rewound(s, Offset(s.bsz, r)) == Offset(s.bsz, r)
    ensures Rewound(s, Offset(s.bsz, r) + s.bsz) == if r + 1 == k then 0 else Offset(s.bsz, r + 1)
    ensures Offset(s.bsz, 0) == 0
    ensures Offset(s.bsz, r) + s.bsz <= (s.rsz + s.bsz) * s.bsz
  {
    AllocationCovers(s.bsz, s.rsz);
    OffsetStep(s.bsz, r);
    OffsetsApart(s.bsz, r, k);
    if r + 1 < k {
      OffsetsApart(s.bsz, r + 1, k);
    }
  }

  lemma Divides(q: nat, r: nat, k: nat)
    requires r < k
    ensures (q * k + r) % k == r && (q * k + r) / k == q
  {
    var n := q * k + r;
    var d := n / k - q;
    assert d * k == r - n % k;
    assert d >= 1 ==> d * k >= k;
    assert d <= -1 ==> d * k <= -1 * k;
  }

  lemma Successor(j: nat, k: nat)
    requires k > 0
    ensures (j + 1) % k == if j % k + 1 == k then 0 else j % k + 1
  {
    var q, r := j / k, j % k;
    assert j + 1 == q * k + (r + 1);
    if r + 1 == k {
      assert j + 1 == (q + 1) * k + 0;
      Divides(q + 1, 0, k);
    } else {
      Divides(q, r + 1, k);
    }
  }

  /** Fewer than k apart, two numbers have different remainders. */
  lemma DifferentPositions(i: nat, j: nat, k: nat)
    requires i < j < i + k
    ensures i % k != j % k
  {
    var d := j / k - i / k;
    assert j - i == d * k + (j % k - i % k);
    assert d <= 0 ==> d * k <= 0;
    assert d >= 1 ==> d * k >= k;
  }

  // ----- What every operation keeps -----

  function Waiting(s: State): int {
    |s.accepted| - |s.popped|
  }

  /** The contents of position j mod k; nothing where there is no such position. */
  function BlockIn(rng: seq<byte>, bsz: nat, k: nat, j: nat): Block
    requires k > 0
  {
    var at := Offset(bsz, j % k);
    if at + bsz <= |rng| then rng[at..at + bsz] else []
  }

  /** Indices and counters. */
  predicate Counted(s: State) {
    && s.bsz > 0
    && |s.rng| == (s.rsz + s.bsz) * s.bsz
    && 0 <= Waiting(s) <= Positions(s.bsz, s.rsz) + 1
    && (s.rsz <= s.bsz ==> Waiting(s) <= 1)
    && s.sz == Offset(s.bsz, Waiting(s))
    && s.total == Offset(s.bsz, |s.accepted|)
    && Rewound(s, s.inPos) == Offset(s.bsz, |s.accepted| % Positions(s.bsz, s.rsz))
    && Rewound(s, s.outPos) == Offset(s.bsz, |s.popped| % Positions(s.bsz, s.rsz))
  }

  /** Where the j-th block handed out came from among the accepted ones. */
  function Source(s: State, j: nat): nat
    requires s.bsz > 0 && j < |s.outstanding|
  {
    var k := Positions(s.bsz, s.rsz);
    if s.outstanding[j] == k + 1 then j + k else j
  }

  /** The last k accepted blocks are in the buffer. */
  predicate InBuffer(s: State)
    requires Counted(s)
  {
    var k := Positions(s.bsz, s.rsz);
    forall i: nat :: |s.accepted| - k <= i < |s.accepted| ==> BlockIn(s.rng, s.bsz, k, i) == s.accepted[i]
  }

  /** Each block handed out is the accepted one that its source says. */
  predicate Traceable(s: State)
    requires Counted(s)
  {
    && |s.outstanding| == |s.popped|
    && (forall j: nat :: j < |s.popped| ==>
          && 1 <= s.outstanding[j] <= Positions(s.bsz, s.rsz) + 1
          && Source(s, j) < |s.accepted|
          && s.popped[j] == s.accepted[Source(s, j)])
  }

  predicate Inv(s: State) {
    Counted(s) && InBuffer(s) && Traceable(s)
  }

  lemma InitInv(bsz: nat, rsz: nat)
    requires bsz > 0
    ensures Inv(Init(bsz, rsz))
  {
    AllocationCovers(bsz, rsz);
    PositionBounds(Init(bsz, rsz), Positions(bsz, rsz), 0);
  }

  lemma InvFits(s: State)
    requires Counted(s)
    ensures Fits(s)
  {
    var k := Positions(s.bsz, s.rsz);
    NextPosition(s, k, |s.accepted|);
    NextPosition(s, k, |s.popped|);
  }

  /** The guard `sz < rsz` lets a block in exactly while at most k are waiting. */
  lemma GuardMeaning(s: State)
    requires Counted(s)
    ensures s.rsz > s.bsz ==> (s.sz < s.rsz <==> Waiting(s) <= Positions(s.bsz, s.rsz))
    ensures s.rsz <= s.bsz ==> (s.sz < s.rsz <==> Waiting(s) == 0 && s.rsz > 0)
    ensures s.sz >= s.bsz <==> Waiting(s) > 0
  {
    var k, w := Positions(s.bsz, s.rsz), Waiting(s);
    OffsetStep(s.bsz, k);
    if w > 0 {
      OffsetsApart(s.bsz, 0, w);
      if w < k {
        OffsetsApart(s.bsz, w, k);
      }
      if w == k + 1 {
        assert s.sz == Offset(s.bsz, k) + s.bsz;
      }
    }
    if w > 1 {
      OffsetsApart(s.bsz, 1, w);
    }
  }

  /** A copy to one position leaves the other positions alone. */
  lemma WriteElsewhere(s: State, block: Block, i: nat)
    requires Counted(s) && |block| == s.bsz
    requires i < |s.accepted| < i + Positions(s.bsz, s.rsz)
    ensures Fits(s)
    ensures var k := Positions(s.bsz, s.rsz);
            BlockIn(Written(s.rng, Rewound(s, s.inPos), block), s.bsz, k, i) == BlockIn(s.rng, s.bsz, k, i)
  {
    InvFits(s);
    var k, a := Positions(s.bsz, s.rsz), |s.accepted|;
    DifferentPositions(i, a, k);
    if i % k < a % k {
      OffsetsApart(s.bsz, i % k, a % k);
    } else {
      OffsetsApart(s.bsz, a % k, i % k);
    }
  }

  lemma EnqueueCounted(s: State, block: Block)
    requires Counted(s) && |block| == s.bsz
    ensures Fits(s) && Counted(Apply(s, Enqueue(block)))
  {
    InvFits(s);
    var k := Positions(s.bsz, s.rsz);
    NextPosition(s, k, |s.accepted|);
    GuardMeaning(s);
    OffsetStep(s.bsz, Waiting(s));
    OffsetStep(s.bsz, |s.accepted|);
  }

  lemma EnqueueInBuffer(s: State, block: Block)
    requires Counted(s) && InBuffer(s) && |block| == s.bsz
    ensures Fits(s) && Counted(Apply(s, Enqueue(block))) && InBuffer(Apply(s, Enqueue(block)))
  {
    EnqueueCounted(s, block);
    var t := Apply(s, Enqueue(block));
    var k, a := Positions(s.bsz, s.rsz), |s.accepted|;
    forall i: nat | |t.accepted| - k <= i < |t.accepted|
      ensures BlockIn(t.rng, s.bsz, k, i) == t.accepted[i]
    {
      if i < a && s.sz < s.rsz {
        WriteElsewhere(s, block, i);
      }
    }
  }

  lemma EnqueueTraceable(s: State, block: Block)
    requires Counted(s) && Traceable(s) && |block| == s.bsz
    ensures Fits(s) && Counted(Apply(s, Enqueue(block))) && Traceable(Apply(s, Enqueue(block)))
  {
    EnqueueCounted(s, block);
    var t := Apply(s, Enqueue(block));
    assert forall j: nat :: j < |s.popped| ==> Source(t, j) == Source(s, j);
  }

  lemma PopCounted(s: State)
    requires Counted(s)
    ensures Fits(s) && Counted(Apply(s, Pop))
  {
    InvFits(s);
    var k := Positions(s.bsz, s.rsz);
    NextPosition(s, k, |s.popped|);
    GuardMeaning(s);
    if Waiting(s) > 0 {
      OffsetStep(s.bsz, Waiting(s) - 1);
    }
  }

  lemma PopTraceable(s: State)
    requires Inv(s)
    ensures Fits(s) && Counted(Apply(s, Pop)) && Traceable(Apply(s, Pop))
  {
    PopCounted(s);
    var t := Apply(s, Pop);
    if s.sz >= s.bsz {
      PoppedSource(s);
    }
    assert forall j: nat :: j < |s.popped| ==> Source(t, j) == Source(s, j);
  }

  /** The block handed out is the oldest waiting one, unless a newer one has taken its position. */
  lemma PoppedSource(s: State)
    requires Counted(s) && InBuffer(s) && s.sz >= s.bsz
    ensures Waiting(s) > 0
    ensures var k, p := Positions(s.bsz, s.rsz), |s.popped|;
            var from := if Waiting(s) == k + 1 then p + k else p;
            from < |s.accepted| && BlockIn(s.rng, s.bsz, k, p) == s.accepted[from]
    ensures Fits(s) && Apply(s, Pop).popped == s.popped + [BlockIn(s.rng, s.bsz, Positions(s.bsz, s.rsz), |s.popped|)]
  {
    InvFits(s);
    GuardMeaning(s);
    var k, p := Positions(s.bsz, s.rsz), |s.popped|;
    SamePosition(p, k);
  }

  lemma SamePosition(j: nat, k: nat)
    requires k > 0
    ensures (j + k) % k == j % k
  {
    assert j + k == (j / k + 1) * k + j % k;
    Divides(j / k + 1, j % k, k);
  }

  lemma ApplyInv(s: State, op: Op)
    requires Inv(s) && ValidOp(s.bsz, op)
    ensures Fits(s) && Inv(Apply(s, op))
  {
    match op
    case Enqueue(block) =>
      EnqueueInBuffer(s, block);
      EnqueueTraceable(s, block);
    case Pop =>
      PopCounted(s);
      PopTraceable(s);
  }

  // ----- Runs -----

  predicate ValidOps(bsz: nat, ops: seq<Op>) {
    forall i :: 0 <= i < |ops| ==> ValidOp(bsz, ops[i])
  }

  /** A run of operations, by any threads. */
  function Run(s: State, ops: seq<Op>): (t: State)
    requires Counted(s) && ValidOps(s.bsz, ops)
    ensures Counted(t) && t.bsz == s.bsz && t.rsz == s.rsz
    decreases |ops|
  {
    if ops == [] then s
    else
      ApplyCounted(s, ops[0]);
      Run(Apply(s, ops[0]), ops[1..])
  }

  lemma ApplyCounted(s: State, op: Op)
    requires Counted(s) && ValidOp(s.bsz, op)
    ensures Fits(s) && Counted(Apply(s, op))
  {
    match op
    case Enqueue(block) => EnqueueCounted(s, block);
    case Pop => PopCounted(s);
  }

  lemma {:induction false} RunInv(s: State, ops: seq<Op>)
    requires Inv(s) && ValidOps(s.bsz, ops)
    ensures Inv(Run(s, ops))
    decreases |ops|
  {
    if ops != [] {
      ApplyInv(s, ops[0]);
      RunInv(Apply(s, ops[0]), ops[1..]);
    }
  }

  /** The ring that `init` makes of a byte count and a block size, after a run. */
  function After(bsz: nat, rsz: nat, ops: seq<Op>): State
    requires bsz > 0 && ValidOps(bsz, ops)
  {
    InitInv(bsz, rsz);
    Run(Init(bsz, rsz), ops)
  }

  /**
   * The exact law of the ring, for every block size and length and every run: the j-th block
   * handed out is the j-th block taken in, unless k + 1 blocks were waiting; then it is the
   * one taken in k later, which has overwritten it.
   */
  lemma ExactLaw(bsz: nat, rsz: nat, ops: seq<Op>, j: nat)
    requires bsz > 0 && ValidOps(bsz, ops) && j < |After(bsz, rsz, ops).popped|
    ensures var s, k := After(bsz, rsz, ops), Positions(bsz, rsz);
            && |s.outstanding| == |s.popped|
            && 1 <= s.outstanding[j] <= k + 1
            && var from := if s.outstanding[j] == k + 1 then j + k else j;
               from < |s.accepted| && s.popped[j] == s.accepted[from]
  {
    InitInv(bsz, rsz);
    RunInv(Init(bsz, rsz), ops);
    var s := After(bsz, rsz, ops);
    assert s.popped[j] == s.accepted[Source(s, j)];
  }

  /** No block handed out had more than k waiting. */
  predicate NeverOverfull(s: State)
    requires s.bsz > 0
  {
    forall j :: 0 <= j < |s.outstanding| ==> s.outstanding[j] <= Positions(s.bsz, s.rsz)
  }

  /**
   * With blocks that are all different, the run is first-in first-out exactly when no block
   * was handed out while more than k were waiting; and when the ring is not longer than one
   * block, that never happens.
   */
  lemma FifoExactlyWhenNotOverfull(bsz: nat, rsz: nat, ops: seq<Op>)
    requires bsz > 0 && ValidOps(bsz, ops)
    requires var a := After(bsz, rsz, ops).accepted; forall i, j :: 0 <= i < j < |a| ==> a[i] != a[j]
    ensures var s := After(bsz, rsz, ops);
            s.popped <= s.accepted <==> NeverOverfull(s)
  {
    InitInv(bsz, rsz);
    RunInv(Init(bsz, rsz), ops);
    var s, k := After(bsz, rsz, ops), Positions(bsz, rsz);
    if NeverOverfull(s) {
      assert forall j: nat :: j < |s.popped| ==> Source(s, j) == j;
      assert s.popped == s.accepted[..|s.popped|];
    } else {
      var j :| 0 <= j < |s.outstanding| && s.outstanding[j] > k;
      assert Source(s, j) == j + k && s.popped[j] == s.accepted[j + k];
      assert s.accepted[j] != s.accepted[j + k];
    }
  }

  /** How many of the operations from s on are turned away, and how many hand a block out. */
  function Refusals(s: State, ops: seq<Op>): nat
    requires Counted(s) && ValidOps(s.bsz, ops)
    decreases |ops|
  {
    if ops == [] then 0
    else
      ApplyCounted(s, ops[0]);
      (if ops[0].Enqueue? && s.sz >= s.rsz then 1 else 0) + Refusals(Apply(s, ops[0]), ops[1..])
  }

  lemma {:induction false} LostCountsRefusals(s: State, ops: seq<Op>)
    requires Counted(s) && ValidOps(s.bsz, ops)
    ensures Run(s, ops).lost == s.lost + Refusals(s, ops)
    decreases |ops|
  {
    if ops != [] {
      ApplyCounted(s, ops[0]);
      LostCountsRefusals(Apply(s, ops[0]), ops[1..]);
    }
  }

  /**
   * The books balance after every run: `total` is all that was taken in, `sz` what of it was
   * not handed out, `lost` the number of refusals, and the distance from the rewound `out`
   * to the rewound `in` is `sz`, modulo the k positions.
   */
  lemma Accounting(bsz: nat, rsz: nat, ops: seq<Op>)
    requires bsz > 0 && ValidOps(bsz, ops)
    ensures var s, k := After(bsz, rsz, ops), Positions(bsz, rsz);
            && s.total == bsz * |s.accepted|
            && s.sz == s.total - bsz * |s.popped|
            && s.lost == (InitInv(bsz, rsz); Refusals(Init(bsz, rsz), ops))
            && exists turns: int {:trigger turns * (k * bsz)} ::
                 Rewound(s, s.inPos) - Rewound(s, s.outPos) == s.sz + turns * (k * bsz)
  {
    InitInv(bsz, rsz);
    LostCountsRefusals(Init(bsz, rsz), ops);
    var s, k := After(bsz, rsz, ops), Positions(bsz, rsz);
    var turns := Distance(bsz, k, |s.accepted|, |s.popped|);
    assert s.sz == bsz * |s.accepted| - bsz * |s.popped|;
    assert Rewound(s, s.inPos) - Rewound(s, s.outPos) == s.sz + turns * (k * bsz);
  }

  lemma Distance(bsz: nat, k: nat, a: nat, p: nat) returns (turns: int)
    requires k > 0 && p <= a
    ensures Offset(bsz, a % k) - Offset(bsz, p % k) == Offset(bsz, a - p) + turns * (k * bsz)
    ensures Offset(bsz, a - p) == bsz * a - bsz * p
  {
    turns := p / k - a / k;
    assert a == (a / k) * k + a % k && p == (p / k) * k + p % k;
    assert a % k - p % k == (a - p) + turns * k;
    assert (a % k - p % k) * bsz == (a - p) * bsz + turns * (k * bsz);
  }

  // ----- The law is not vacuous: every longer ring can be overfilled -----

  function Enqueues(blocks: seq<Block>): seq<Op> {
    seq(|blocks|, i requires 0 <= i < |blocks| => Enqueue(blocks[i]))
  }

  lemma {:induction false} FillUp(s: State, blocks: seq<Block>)
    requires Counted(s) && s.rsz > s.bsz && s.popped == []
    requires |s.accepted| + |blocks| <= Positions(s.bsz, s.rsz) + 1
    requires forall i :: 0 <= i < |blocks| ==> |blocks[i]| == s.bsz
    ensures var t := Run(s, Enqueues(blocks));
            t.popped == [] && t.accepted == s.accepted + blocks && t.outstanding == s.outstanding
    decreases |blocks|
  {
    if blocks != [] {
      var op := Enqueue(blocks[0]);
      GuardMeaning(s);
      ApplyCounted(s, op);
      FillUp(Apply(s, op), blocks[1..]);
      assert Enqueues(blocks)[1..] == Enqueues(blocks[1..]);
      assert s.accepted + [blocks[0]] + blocks[1..] == s.accepted + blocks;
    }
  }

  lemma {:induction false} RunThenOp(s: State, ops: seq<Op>, op: Op)
    requires Counted(s) && ValidOps(s.bsz, ops) && ValidOp(s.bsz, op)
    ensures Fits(Run(s, ops)) && Run(s, ops + [op]) == Apply(Run(s, ops), op)
    decreases |ops|
  {
    if ops == [] {
      ApplyCounted(s, op);
      assert Run(s, [op]) == Run(Apply(s, op), []);
    } else {
      ApplyCounted(s, ops[0]);
      assert (ops + [op])[1..] == ops[1..] + [op];
      RunThenOp(Apply(s, ops[0]), ops[1..], op);
    }
  }

  /**
   * In every ring longer than one block, filling it as far as the guard allows and taking one
   * block out yields the last block put in instead of the first.
   */
  lemma OverfullRingSkips(bsz: nat, rsz: nat, blocks: seq<Block>)
    requires rsz > bsz > 0 && |blocks| == Positions(bsz, rsz) + 1
    requires forall i :: 0 <= i < |blocks| ==> |blocks[i]| == bsz
    ensures After(bsz, rsz, Enqueues(blocks) + [Pop]).popped == [blocks[|blocks| - 1]]
  {
    InitInv(bsz, rsz);
    var t := Run(Init(bsz, rsz), Enqueues(blocks));
    FillUp(Init(bsz, rsz), blocks);
    assert t.accepted == blocks;
    RunInv(Init(bsz, rsz), Enqueues(blocks));
    RunThenOp(Init(bsz, rsz), Enqueues(blocks), Pop);
    GuardMeaning(t);
    PoppedSource(t);
  }

  // ----- Threads -----

  /** An `input` thread keeps putting in one block; an `output` thread keeps taking out. */
  datatype Thread = Input(block: Block) | Output

  /** The operations done when the threads get the mutex in this order. */
  function Turns(threads: seq<Thread>, order: seq<nat>): (ops: seq<Op>)
    requires forall i :: 0 <= i < |order| ==> order[i] < |threads|
    ensures |ops| == |order|
    ensures forall i :: 0 <= i < |order| ==>
              ops[i] == if threads[order[i]].Input? then Enqueue(threads[order[i]].block) else Pop
  {
    seq(|order|, i requires 0 <= i < |order| =>
      match threads[order[i]] case Input(block) => Enqueue(block) case Output => Pop)
  }

  /** The first turn of an `input` thread puts its own block in, if there is a ring at all. */
  lemma FirstTurn(bsz: nat, rsz: nat, threads: seq<Thread>, i: nat)
    requires rsz > 0 && i < |threads| && threads[i].Input? && |threads[i].block| == bsz > 0
    ensures var ops := Turns(threads, [i]);
            && ValidOps(bsz, ops)
            && var s := After(bsz, rsz, ops);
               s.total == bsz && s.sz == bsz && s.accepted == [threads[i].block] && s.rng[..bsz] == threads[i].block
  {
    InitInv(bsz, rsz);
    InvFits(Init(bsz, rsz));
    var ops := Turns(threads, [i]);
    assert ops == [Enqueue(threads[i].block)] && ops[1..] == [];
    assert Run(Init(bsz, rsz), ops) == Apply(Init(bsz, rsz), ops[0]) by { ApplyCounted(Init(bsz, rsz), ops[0]); }
  }

  lemma {:induction false} AcceptedFromOps(s: State, ops: seq<Op>, b: Block)
    requires Counted(s) && ValidOps(s.bsz, ops)
    requires b in Run(s, ops).accepted
    ensures b in s.accepted || Enqueue(b) in ops
    decreases |ops|
  {
    if ops != [] {
      ApplyCounted(s, ops[0]);
      AcceptedFromOps(Apply(s, ops[0]), ops[1..], b);
    }
  }

  /**
   * Any number of producers and consumers, in any order of getting the mutex: every block a
   * consumer gets is one that a producer keeps putting in, and the books balance.
   */
  lemma ManyThreads(bsz: nat, rsz: nat, threads: seq<Thread>, order: seq<nat>)
    requires bsz > 0
    requires forall i :: 0 <= i < |order| ==> order[i] < |threads|
    requires forall t :: t in threads && t.Input? ==> |t.block| == bsz
    ensures ValidOps(bsz, Turns(threads, order))
    ensures var s := After(bsz, rsz, Turns(threads, order));
            && s.sz == s.total - bsz * |s.popped|
            && forall j :: 0 <= j < |s.popped| ==> Input(s.popped[j]) in threads
  {
    var ops := Turns(threads, order);
    Accounting(bsz, rsz, ops);
    InitInv(bsz, rsz);
    var s := After(bsz, rsz, ops);
    forall j | 0 <= j < |s.popped| ensures Input(s.popped[j]) in threads {
      ExactLaw(bsz, rsz, ops, j);
      AcceptedFromOps(Init(bsz, rsz), ops, s.popped[j]);
      var i :| 0 <= i < |ops| && ops[i] == Enqueue(s.popped[j]);
      assert threads[order[i]] == Input(s.popped[j]);
    }
  }

  // ----- The ring in place -----

  datatype Popped = Nothing | At(offset: nat)

  class Queue {
    const bsz: nat
    const rsz: nat
    var inPos: nat
    var outPos: nat
    var sz: nat
    var total: nat
    var lost: nat
    const rng: array<byte>

    // The history, for specification only.
    ghost var accepted: seq<Block>
    ghost var popped: seq<Block>
    ghost var outstanding: seq<int>

    ghost function Abs(): State
      reads this, rng
    {
      State(bsz, rsz, inPos, outPos, sz, total, lost, rng[..], accepted, popped, outstanding)
    }

    ghost predicate Valid()
      reads this, rng
    {
      Fits(Abs()) && Counted(Abs())
    }

    /** `init`: the ring's length is the number of blocks, though it is compared with bytes. */
    constructor (size: nat, chunks: nat)
      requires chunks > 0
      ensures Valid() && Abs() == Init(chunks, size / chunks) && fresh(rng)
    {
      bsz := chunks;
      rsz := size / chunks;
      inPos, outPos, sz, total, lost := 0, 0, 0, 0, 0;
      rng := new byte[(size / chunks + chunks) * chunks](_ => 0);
      accepted, popped, outstanding := [], [], [];
      new;
      assert rng[..] == Init(chunks, size / chunks).rng;
      InitInv(chunks, size / chunks);
      InvFits(Abs());
    }

    /** memcpy of one block. */
    method CopyIn(at: nat, s: array<byte>)
      requires at + bsz <= rng.Length && bsz <= s.Length && s != rng
      modifies rng
      ensures rng[..] == Written(old(rng[..]), at, s[..bsz])
    {
      for i := 0 to bsz
        invariant rng[..] == Written(old(rng[..]), at, s[..i])
      {
        rng[at + i] := s[i];
      }
    }

    /** The result is 1 for a block that was turned away. */
    method Enqueue(s: array<byte>) returns (res: int)
      requires Valid() && s.Length >= bsz && s != rng
      modifies this, rng
      ensures Valid() && Abs() == Apply(old(Abs()), Op.Enqueue(s[..bsz]))
      ensures res == if old(sz) >= rsz then 1 else 0
      ensures var at := if old(inPos) >= rsz - bsz then 0 else old(inPos);
              if res == 1
              then inPos == at && lost == old(lost) + 1 && sz == old(sz) && total == old(total)
              else inPos == at + bsz && lost == old(lost) && sz == old(sz) + bsz && total == old(total) + bsz
      ensures outPos == old(outPos)
    {
      ghost var before := Abs();
      ghost var after := Apply(before, Op.Enqueue(s[..bsz]));
      EnqueueCounted(before, s[..bsz]);
      InvFits(after);
      if inPos >= rsz - bsz {
        inPos := 0;
      }
      if sz >= rsz {
        lost := lost + 1;
        assert Abs() == after;
        return 1;
      }
      CopyIn(inPos, s);
      inPos := inPos + bsz;
      sz := sz + bsz;
      total := total + bsz;
      accepted := accepted + [s[..bsz]];
      assert Abs() == after;
      return 0;
    }

    /** The result points at the block inside the ring. */
    method Pop() returns (p: Popped)
      requires Valid()
      modifies this
      ensures Valid() && Abs() == Apply(old(Abs()), Op.Pop)
      ensures p == if old(sz) < bsz then Nothing else At(if old(outPos) >= rsz - bsz then 0 else old(outPos))
      ensures outPos == if old(outPos) >= rsz - bsz then (if p.At? then bsz else 0)
                        else if p.At? then old(outPos) + bsz else old(outPos)
      ensures sz == (if p.At? then old(sz) - bsz else old(sz)) && inPos == old(inPos)
      ensures total == old(total) && lost == old(lost)
      ensures p.At? ==> p.offset + bsz <= rng.Length && popped == old(popped) + [rng[p.offset..p.offset + bsz]]
    {
      ghost var before := Abs();
      PopCounted(before);
      InvFits(Apply(before, Op.Pop));
      if outPos >= rsz - bsz {
        outPos := 0;
      }
      if sz < bsz {
        return Nothing;
      }
      sz := sz - bsz;
      p := At(outPos);
      outPos := outPos + bsz;
      outstanding := outstanding + [|accepted| - |popped|];
      popped := popped + [rng[p.offset..p.offset + bsz]];
    }
  }
}
