/** The condition of RingOrder.InterleavedOrder is needed in every ring of more than three slots. */
module RingReorder {
  import opened Bytes
  import opened RingModel
  import opened RingSafety
  import opened RingAtomic
  import opened RingOfThree

  // Two packets that can be told from the others: EARLY is accepted first and sent last.
  const EARLY := Packet(20, [1])
  const LATE := Packet(20, [2])

  predicate Plain(ps: seq<Packet>) {
    forall k :: 0 <= k < |ps| ==> ps[k] == FILLER
  }

  /** Slots j up to the last but one hold fillers or nothing. */
  predicate PlainFrom(s: State, j: nat)
    requires WellFormed(s)
  {
    forall k: nat :: j <= k < s.rsz - 1 && s.lens[k] > SHORTEST ==> s.lens[k] == 20 && s.frames[k] == []
  }

  // ----- Until the ring is full but for slots 0 and 1 -----

  function Before(rsz: nat): seq<Op>
    requires rsz >= 1
  {
    Produces(rsz - 1) + ([Consume] + (Produces(1) + [Consume]))
  }

  /** `in` is 0 and `out` 2, and all packets so far were fillers. */
  predicate AtTwo(s: State) {
    && Bounded(s) && s.inPos == 0 && s.outPos == 2 && s.sz == s.rsz - 2 && !s.full
    && s.producer.Free? && s.consumer.Ready? && s.lens[1] <= SHORTEST
    && PlainFrom(s, 0) && Plain(s.log.accepted) && Plain(s.log.sent)
  }

  /** Fillers up to the last slot, and one out. */
  lemma FirstOut(rsz: nat, rest: seq<Op>) returns (s: State)
    requires 3 <= rsz < TWO_TO_THE_31
    ensures Bounded(s) && s.rsz == rsz && s.inPos == rsz - 1 && s.outPos == 1 && s.sz == rsz - 2 && !s.full
    ensures s.producer.Free? && s.consumer.Ready?
    ensures PlainFrom(s, 0) && Plain(s.log.accepted) && Plain(s.log.sent)
    ensures Rounds(Init(rsz), Produces(rsz - 1) + ([Consume] + rest)) == Rounds(s, rest)
  {
    var start := Init(rsz);
    assert start.inPos == 0 && start.sz == 0 && Dec32(start.outPos) >= rsz;
    var a := Climb(start, rsz - 1, [Consume] + rest);
    assert a.log.accepted == Copies(rsz - 1) && a.log.sent == [];
    s := DescendOnce(a, rest);
  }

  lemma BeforeLeads(rsz: nat) returns (s: State)
    requires 3 <= rsz < TWO_TO_THE_31
    ensures s == Rounds(Init(rsz), Before(rsz)) && AtTwo(s) && s.rsz == rsz
  {
    var a := FirstOut(rsz, Produces(1) + [Consume]);
    var b := Climb(a, 1, [Consume]);
    assert [Consume] == [Consume] + [];
    s := DescendOnce(b, []);
  }

  // ----- While the producer holds slot 0 -----

  lemma RunFirst(s: State, a: Action, rest: seq<Action>, t: State)
    requires WellFormed(s) && Step(s, a) == Running(t) && WellFormed(t)
    ensures Run(s, [a] + rest) == Run(t, rest)
  {
    assert ([a] + rest)[1..] == rest;
  }

  /** EARLY is in slot 0, not committed; the consumer has come to slot j. */
  predicate HoldingEarly(s: State, j: nat) {
    && WellFormed(s) && s.inPos == 0 && s.outPos == j && s.sz + j == s.rsz && !s.full
    && 2 <= j <= s.rsz - 1
    && s.producer == Holding(0, true) && s.consumer.Ready?
    && s.lens[0] == 20 && s.frames[0] == [1] && s.lens[1] <= SHORTEST
    && (forall k: nat :: k < s.rsz ==> s.locks[k] == if k == 0 then 1 else 0)
    && PlainFrom(s, 1) && Plain(s.log.accepted) && Plain(s.log.sent)
  }

  /** One packet out while the producer holds its slot. */
  lemma DrainOnce(s: State, rest: seq<Action>) returns (t: State)
    requires HoldingEarly(s, s.outPos) && s.outPos < s.rsz - 1
    ensures HoldingEarly(t, s.outPos + 1) && t.rsz == s.rsz
    ensures Run(s, [Pop] + ([Release] + rest)) == Run(t, rest)
  {
    var u := Step(s, Pop).state;
    t := Step(u, Release).state;
    RunFirst(s, Pop, [Release] + rest, u);
    RunFirst(u, Release, rest, t);
  }

  function Drains(n: nat): seq<Action> {
    if n == 0 then [] else [Pop] + ([Release] + Drains(n - 1))
  }

  lemma {:induction false} Drain(s: State, n: nat, rest: seq<Action>) returns (t: State)
    requires HoldingEarly(s, s.outPos) && s.outPos + n == s.rsz - 1
    ensures HoldingEarly(t, t.outPos) && t.outPos == t.rsz - 1 && t.rsz == s.rsz
    ensures Run(s, Drains(n) + rest) == Run(t, rest)
    decreases n
  {
    if n == 0 {
      assert Drains(0) + rest == rest;
      return s;
    }
    assert Drains(n) + rest == [Pop] + ([Release] + (Drains(n - 1) + rest));
    var u := DrainOnce(s, Drains(n - 1) + rest);
    t := Drain(u, n - 1, rest);
  }

  lemma TakeSlotZero(s: State, rest: seq<Action>) returns (t: State)
    requires Safe(s) && AtTwo(s)
    ensures HoldingEarly(t, 2) && t.rsz == s.rsz
    ensures Run(s, [Push] + ([Fill(20, [1], true)] + rest)) == Run(t, rest)
  {
    var u := Step(s, Push).state;
    t := Step(u, Fill(20, [1], true)).state;
    RunFirst(s, Push, [Fill(20, [1], true)] + rest, u);
    RunFirst(u, Fill(20, [1], true), rest, t);
  }

  // ----- The push that steps over slot 1 -----

  /** EARLY is committed to slot 0 and the consumer holds slot 1. */
  predicate EarlyIn(s: State) {
    && WellFormed(s) && s.inPos == 1 && s.outPos == 2 && s.sz == 2 && !s.full
    && s.producer.Free? && s.consumer == Reading(1)
    && s.lens[0] == 20 && s.frames[0] == [1] && s.lens[1] <= SHORTEST
    && (forall k: nat :: k < s.rsz ==> s.locks[k] == if k == 1 then 1 else 0)
    && PlainFrom(s, 1) && Plain(s.log.sent)
    && |s.log.accepted| > 0 && Plain(s.log.accepted[..|s.log.accepted| - 1])
    && s.log.accepted[|s.log.accepted| - 1] == EARLY
  }

  /** The consumer wraps, finds slot 0 locked and takes slot 1; then the producer commits slot 0. */
  lemma WrapPast(s: State, rest: seq<Action>) returns (t: State)
    requires HoldingEarly(s, s.outPos) && s.outPos == s.rsz - 1
    ensures EarlyIn(t) && t.rsz == s.rsz
    ensures Run(s, [Pop] + ([Commit] + rest)) == Run(t, rest)
  {
    assert PopScan(s.locks, 0, s.rsz) == PopScan(s.locks, 1, s.rsz - 1) == Found(1);
    var u := Step(s, Pop).state;
    t := Step(u, Commit).state;
    assert t.log.accepted[..|t.log.accepted| - 1] == s.log.accepted;
    RunFirst(s, Pop, [Commit] + rest, u);
    RunFirst(u, Commit, rest, t);
  }

  /** EARLY waits in slot 0, and LATE, accepted after it, in slot 2, where the consumer is. */
  ghost predicate BothIn(s: State) {
    && WellFormed(s) && s.rsz >= 4 && s.inPos == 3 && s.outPos == 2 && s.sz == 2
    && s.producer.Free? && s.consumer.Ready?
    && s.lens[0] == 20 && s.frames[0] == [1] && s.lens[2] == 20 && s.frames[2] == [2]
    && PlainFrom(s, 3) && Plain(s.log.sent)
    && Accepted(s.log.accepted)
  }

  /** EARLY, then LATE, and otherwise only fillers. */
  ghost predicate Accepted(ps: seq<Packet>) {
    exists n: nat :: EarlyAt(ps, n)
  }

  predicate EarlyAt(ps: seq<Packet>, n: nat) {
    && n + 1 < |ps| && ps[n] == EARLY && ps[n + 1] == LATE
    && forall k :: 0 <= k < |ps| && k != n && k != n + 1 ==> ps[k] == FILLER
  }

  lemma AcceptedLate(ps: seq<Packet>)
    requires |ps| > 0 && Plain(ps[..|ps| - 1]) && ps[|ps| - 1] == EARLY
    ensures Accepted(ps + [LATE])
  {
    assert forall k :: 0 <= k < |ps| - 1 ==> ps[k] == ps[..|ps| - 1][k];
    assert EarlyAt(ps + [LATE], |ps| - 1);
  }

  lemma StepOver(s: State, rest: seq<Action>) returns (t: State)
    requires EarlyIn(s) && s.rsz >= 4
    ensures BothIn(t) && t.rsz == s.rsz
    ensures Run(s, [Push] + ([Fill(20, [2], true)] + ([Commit] + ([Release] + rest)))) == Run(t, rest)
  {
    assert PushScan(s.locks, 1) == PushScan(s.locks, 2) == 2;
    var u := Step(s, Push).state;
    var v := Step(u, Fill(20, [2], true)).state;
    var w := Step(v, Commit).state;
    t := Step(w, Release).state;
    RunFirst(s, Push, [Fill(20, [2], true)] + ([Commit] + ([Release] + rest)), u);
    RunFirst(u, Fill(20, [2], true), [Commit] + ([Release] + rest), v);
    RunFirst(v, Commit, [Release] + rest, w);
    RunFirst(w, Release, rest, t);
    AcceptedLate(s.log.accepted);
    assert t.log.accepted == s.log.accepted + [LATE];
  }

  function Enters(rsz: nat, rest: seq<Action>): seq<Action>
    requires rsz >= 3
  {
    [Push] + ([Fill(20, [1], true)] + (Drains(rsz - 3) + ([Pop] + ([Commit] + rest))))
  }

  lemma EarlyEnters(s: State, rest: seq<Action>) returns (t: State)
    requires Safe(s) && AtTwo(s)
    ensures EarlyIn(t) && t.rsz == s.rsz && Run(s, Enters(s.rsz, rest)) == Run(t, rest)
  {
    var a := TakeSlotZero(s, Drains(s.rsz - 3) + ([Pop] + ([Commit] + rest)));
    var b := Drain(a, s.rsz - 3, [Pop] + ([Commit] + rest));
    t := WrapPast(b, rest);
  }

  function Overlap(rsz: nat): seq<Action>
    requires rsz >= 4
  {
    Enters(rsz, [Push] + ([Fill(20, [2], true)] + ([Commit] + ([Release] + []))))
  }

  lemma OverlapLeads(s: State) returns (t: State)
    requires Safe(s) && AtTwo(s) && s.rsz >= 4
    ensures BothIn(t) && t.rsz == s.rsz && Run(s, Overlap(s.rsz)) == Running(t)
  {
    var over := [Push] + ([Fill(20, [2], true)] + ([Commit] + ([Release] + [])));
    var a := EarlyEnters(s, over);
    t := StepOver(a, []);
  }

  // ----- LATE goes out before EARLY -----

  function Consumes(n: nat): seq<Op> {
    if n == 0 then [] else [Consume] + Consumes(n - 1)
  }

  /** LATE went out, and EARLY still waits in slot 0; the consumer has come to slot j. */
  ghost predicate LateOut(s: State, j: nat) {
    && Bounded(s) && s.rsz >= 4 && s.inPos == 0 && s.outPos == j && 3 <= j <= s.rsz - 1 && s.sz + j == s.rsz + 1
    && s.consumer.Ready? && s.lens[0] == 20 && s.frames[0] == [1]
    && LATE in s.log.sent && Accepted(s.log.accepted)
  }

  lemma {:induction false} Descend(s: State, n: nat, rest: seq<Op>) returns (t: State)
    requires LateOut(s, s.outPos) && s.outPos + n == s.rsz - 1
    ensures LateOut(t, t.outPos) && t.outPos == t.rsz - 1 && t.rsz == s.rsz
    ensures Rounds(s, Consumes(n) + rest) == Rounds(t, rest)
    decreases n
  {
    if n == 0 {
      assert Consumes(0) + rest == rest;
      return s;
    }
    assert Consumes(n) + rest == [Consume] + (Consumes(n - 1) + rest);
    var u := DescendOnce(s, Consumes(n - 1) + rest);
    t := Descend(u, n - 1, rest);
  }

  /** LATE was passed on, and EARLY, which was accepted before it, after that. */
  ghost predicate Reordered(sent: seq<Packet>, accepted: seq<Packet>) {
    Accepted(accepted) && |sent| > 0 && LATE in sent[..|sent| - 1] && sent[|sent| - 1] == EARLY
  }

  lemma AcceptedMore(ps: seq<Packet>, n: nat)
    requires Accepted(ps)
    ensures Accepted(ps + Copies(n))
  {
    var k: nat :| EarlyAt(ps, k);
    assert EarlyAt(ps + Copies(n), k);
  }

  /** The producer fills the rest of the ring, and LATE goes out. */
  lemma LateLeaves(s: State, rest: seq<Op>) returns (t: State)
    requires Bounded(s) && BothIn(s)
    ensures LateOut(t, 3) && t.rsz == s.rsz
    ensures Rounds(s, Produces(s.rsz - 3) + ([Consume] + rest)) == Rounds(t, rest)
  {
    var u := Climb(s, s.rsz - 3, [Consume] + rest);
    AcceptedMore(s.log.accepted, s.rsz - 3);
    t := DescendOnce(u, rest);
    assert t.log.sent[|t.log.sent| - 1] == LATE;
  }

  lemma EarlyLeaves(s: State) returns (t: State)
    requires LateOut(s, s.outPos) && s.outPos == s.rsz - 1
    ensures t == Rounds(s, [Consume]) && Reordered(t.log.sent, t.log.accepted)
  {
    assert [Consume] == [Consume] + [];
    t := DescendOnce(s, []);
    assert t.log.sent[..|t.log.sent| - 1] == s.log.sent;
  }

  lemma AfterLeads(s: State) returns (ops: seq<Op>)
    requires Bounded(s) && BothIn(s)
    ensures var log := Rounds(s, ops).log; Reordered(log.sent, log.accepted)
  {
    var last := Consumes(s.rsz - 4) + [Consume];
    ops := Produces(s.rsz - 3) + ([Consume] + last);
    var a := LateLeaves(s, last);
    var b := Descend(a, s.rsz - 4, [Consume]);
    var c := EarlyLeaves(b);
  }

  lemma ReorderedIsNoSubsequence(sent: seq<Packet>, accepted: seq<Packet>)
    requires Reordered(sent, accepted)
    ensures !Subsequence(sent, accepted)
  {
    var n: nat :| EarlyAt(accepted, n);
    var j :| 0 <= j < |sent| - 1 && sent[j] == LATE;
    forall at: seq<nat> ensures !EmbedsAt(sent, accepted, at) {
      if |at| == |sent| && at[j] < |accepted| && accepted[at[j]] == LATE {
        assert at[j] == n + 1;
      }
    }
  }

  /** In every ring of more than three slots some run passes packets on out of order. */
  lemma SteppingOverReorders(rsz: nat) returns (actions: seq<Action>)
    requires 4 <= rsz < TWO_TO_THE_31
    ensures var r := Run(Init(rsz), actions);
            r.Running? && !Subsequence(r.state.log.sent, r.state.log.accepted)
  {
    StartSafe(rsz, 0, 0, 0);
    var s := BeforeLeads(rsz);
    RoundsAreActions(Init(rsz), Before(rsz));
    var t := OverlapLeads(s);
    RunSafeFrom(s, Overlap(rsz));
    var ops := AfterLeads(t);
    RoundsAreActions(t, ops);
    var log := Rounds(t, ops).log;
    ReorderedIsNoSubsequence(log.sent, log.accepted);
    actions := AllActions(Before(rsz)) + (Overlap(rsz) + AllActions(ops));
    RunAppend(Init(rsz), AllActions(Before(rsz)), Overlap(rsz) + AllActions(ops));
    RunAppend(s, Overlap(rsz), AllActions(ops));
  }

  /** Exactly which rings keep the order in every interleaved run: those of three slots. */
  lemma OrderedSizes(rsz: nat)
    requires 3 <= rsz < TWO_TO_THE_31
    ensures (forall actions :: Run(Init(rsz), actions).Running? ==>
                                 var log := Run(Init(rsz), actions).state.log; Subsequence(log.sent, log.accepted)) <==>
              rsz == 3
  {
    if rsz == 3 {
      forall actions: seq<Action>
        ensures Run(Init(3), actions).Running?
        ensures var log := Run(Init(3), actions).state.log; Subsequence(log.sent, log.accepted)
      {
        ThreeInOrder(0, 0, 0, actions);
      }
    } else {
      var actions := SteppingOverReorders(rsz);
    }
  }
}
