/** The packet ring's exact delivery law: which packets are passed on, and in which order. */
module RingDelivery {
  import opened Bytes
  import opened RingModel
  import opened RingSafety
  import opened RingAtomic
  import opened RingOrder
  import opened RingAccounts

  /** A packet that is long enough, was not put into the last slot and was not thrown away by a reset. */
  predicate Deliverable(log: Log, id: nat)
    requires id < |log.accepted|
  {
    log.accepted[id].len > SHORTEST && id !in log.parked && id !in log.dropped
  }

  /** The deliverable packets among the first n accepted, in order. */
  function DeliverableIds(log: Log, n: nat): (ids: seq<nat>)
    requires n <= |log.accepted|
    ensures forall k :: 0 <= k < |ids| ==> ids[k] < n && Deliverable(log, ids[k])
  {
    if n == 0 then []
    else DeliverableIds(log, n - 1) + if Deliverable(log, n - 1) then [n - 1] else []
  }

  function Packets(accepted: seq<Packet>, ids: seq<nat>): (ps: seq<Packet>)
    requires forall k :: 0 <= k < |ids| ==> ids[k] < |accepted|
    ensures |ps| == |ids| && forall k :: 0 <= k < |ids| ==> ps[k] == accepted[ids[k]]
  {
    seq(|ids|, k requires 0 <= k < |ids| => accepted[ids[k]])
  }

  // ----- Reading the law off a state -----

  /** What was sent are deliverable packets in ascending order, and no deliverable one below was left out. */
  ghost predicate NoneLeftOut(log: Log) {
    && Ascending(log.ids)
    && (forall k :: 0 <= k < |log.ids| ==> log.ids[k] < |log.accepted| && Deliverable(log, log.ids[k]))
    && (forall id: nat, k :: 0 <= k < |log.ids| && id < log.ids[k] && Deliverable(log, id) ==> id in log.ids[..k])
  }

  /** There is no deliverable packet from m up to n. */
  lemma {:induction false} NoneBetween(log: Log, m: nat, n: nat)
    requires m <= n <= |log.accepted| && forall id: nat :: m <= id < n ==> !Deliverable(log, id)
    ensures DeliverableIds(log, n) == DeliverableIds(log, m)
    decreases n
  {
    if m < n {
      NoneBetween(log, m, n - 1);
    }
  }

  lemma {:induction false} IdsGrow(log: Log, m: nat, n: nat)
    requires m <= n <= |log.accepted|
    ensures DeliverableIds(log, m) <= DeliverableIds(log, n)
    decreases n
  {
    if m < n {
      IdsGrow(log, m, n - 1);
    }
  }

  /** Where the search for the k-th packet sent begins: behind the one before. */
  function Behind(log: Log, k: nat): nat
    requires k <= |log.ids|
  {
    if k == 0 then 0 else log.ids[k - 1] + 1
  }

  /** From one packet sent to the next there is one more deliverable packet: that one. */
  predicate NextStage(log: Log, k: nat)
    requires k < |log.ids|
  {
    && Behind(log, k) <= Behind(log, k + 1) <= |log.accepted|
    && DeliverableIds(log, Behind(log, k + 1)) == DeliverableIds(log, Behind(log, k)) + [log.ids[k]]
  }

  lemma NoneBeforeNext(log: Log, k: nat)
    requires NoneLeftOut(log) && k < |log.ids|
    ensures NextStage(log, k)
  {
    assert forall j :: 0 <= j < k ==> log.ids[j] < Behind(log, k);
    forall id: nat | Behind(log, k) <= id < log.ids[k] ensures !Deliverable(log, id) {
      assert id !in log.ids[..k];
    }
    NoneBetween(log, Behind(log, k), log.ids[k]);
  }

  /** The first k packets sent are all the deliverable ones up to the k-th. */
  lemma {:induction false} SentUpTo(log: Log, k: nat)
    requires k <= |log.ids| && forall j :: 0 <= j < k ==> NextStage(log, j)
    ensures Behind(log, k) <= |log.accepted| && DeliverableIds(log, Behind(log, k)) == log.ids[..k]
  {
    if k > 0 {
      SentUpTo(log, k - 1);
      assert NextStage(log, k - 1);
      assert log.ids[..k] == log.ids[..k - 1] + [log.ids[k - 1]];
    }
  }

  lemma SentIsPrefix(log: Log)
    requires NoneLeftOut(log)
    ensures log.ids <= DeliverableIds(log, |log.accepted|)
  {
    forall j | 0 <= j < |log.ids| ensures NextStage(log, j) {
      NoneBeforeNext(log, j);
    }
    SentUpTo(log, |log.ids|);
    assert log.ids[..|log.ids|] == log.ids;
    IdsGrow(log, Behind(log, |log.ids|), |log.accepted|);
  }

  /** A packet that waits comes after all that were sent. */
  lemma WaitingComesAfter(s: State, id: nat, k: nat)
    requires Tidy(s) && Orderly(s) && id in Waiting(s) && k < |s.log.ids|
    ensures s.log.ids[k] < id
  {
    var i: nat :| i < s.rsz && Unsent(s, i) && s.log.stamps[i] == id;
    if ConsumerHolds(s, i) {
      assert Live(s, i);
    } else {
      assert Committed(s, i) && Awaiting(s, i);
    }
  }

  lemma SentIsDeliverable(s: State, k: nat)
    requires Safe(s) && Accountable(s) && k < |s.log.ids|
    ensures s.log.ids[k] < |s.log.accepted| && Deliverable(s.log, s.log.ids[k])
  {
    var id := s.log.ids[k];
    assert s.log.sent[k] == s.log.accepted[id];
    assert id in s.log.ids && Places(s, id) == 1;
  }

  lemma NothingLeftOut(s: State)
    requires Tidy(s) && Orderly(s) && Accountable(s)
    ensures NoneLeftOut(s.log)
  {
    var ids := s.log.ids;
    forall k | 0 <= k < |ids| ensures ids[k] < |s.log.accepted| && Deliverable(s.log, ids[k]) {
      SentIsDeliverable(s, k);
    }
    forall id: nat, k | 0 <= k < |ids| && id < ids[k] && Deliverable(s.log, id) ensures id in ids[..k] {
      assert Places(s, id) == 1;
      if id in Waiting(s) {
        WaitingComesAfter(s, id, k);
      }
      var j :| 0 <= j < |ids| && ids[j] == id;
      assert j < k;
      assert ids[..k][j] == id;
    }
  }

  // ----- The law -----

  /**
   * The delivery law. In every interleaving in which no push steps over a held slot and no
   * reset falls between a push and its commit, from every good start: what the consumer has
   * passed on is exactly the first so many of the accepted packets that are longer than 14
   * bytes, were not put into the last slot and were not thrown away by a reset, in order.
   */
  lemma DeliveryLaw(rsz: nat, inPos: nat, outPos: nat, sz: nat, actions: seq<Action>)
    requires ValidStart(rsz, inPos, outPos, sz) && inPos < rsz && GoodStart(rsz, inPos, outPos, sz)
    requires Calm(Started(rsz, inPos, outPos, sz), actions)
    ensures Run(Started(rsz, inPos, outPos, sz), actions).Running?
    ensures var log := Run(Started(rsz, inPos, outPos, sz), actions).state.log;
            && log.ids <= DeliverableIds(log, |log.accepted|)
            && log.sent <= Packets(log.accepted, DeliverableIds(log, |log.accepted|))
  {
    var start := Started(rsz, inPos, outPos, sz);
    StartTidy(rsz, inPos, outPos, sz);
    StartOrderly(rsz, inPos, outPos, sz);
    assert Waiting(start) == {};
    RunTidy(start, actions);
    CalmIsBoth(start, actions);
    RunOrderly(start, actions);
    RunAccountable(start, actions);
    var s := Run(start, actions).state;
    NothingLeftOut(s);
    SentIsPrefix(s.log);
    OrderlySent(s);
    assert |s.log.sent| == |s.log.ids|;
  }
}
