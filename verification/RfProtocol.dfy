/** The propose/commit protocol of `rf`: a leader, two followers, and links that deliver each
    message exactly once in any order. */
module RfProtocol {
  import opened Bytes
  import opened RfBatcher

  /** The keys under which acks are pending; the source stores the value 1 with each. */
  type AckMap = map<int, int>

  datatype Leader = Leader(next: nat, buf: seq<nat>, flushed: bool, prpAcks: AckMap, cmtAcks: AckMap)

  datatype Msg =
    | Prp(f: nat, b: seq<nat>)     // a batch to follower f
    | PrpAck(f: nat, k: int)       // its ack, carrying the key
    | Cmt(f: nat, k: int)
    | CmtAck(f: nat, k: int)

  datatype World = World(leader: Leader, net: multiset<Msg>, dlv: multiset<Msg>)

  datatype Step = Submit | Flush | Deliver(m: Msg)

  const Start: World := World(Leader(0, [], false, map[], map[]), multiset{}, multiset{})

  // ----- the two toggles -----

  function UpdatePrpAcks(l: Leader, k: int): (Leader, bool) {
    if k !in l.prpAcks then (l.(prpAcks := l.prpAcks[k := 1]), false)
    else (l.(prpAcks := l.prpAcks - {k}), true)
  }

  /** The second ack erases from `prp_acks`, not from `cmt_acks`. */
  function UpdateCmtAcks(l: Leader, k: int): (Leader, bool) {
    if k !in l.cmtAcks then (l.(cmtAcks := l.cmtAcks[k := 1]), false)
    else (l.(prpAcks := l.prpAcks - {k}), true)
  }

  // ----- steps -----

  function BothGet(b: seq<nat>): multiset<Msg> { multiset{Prp(1, b), Prp(2, b)} }

  function OnSubmit(w: World): World {
    var l := w.leader;
    if |l.buf| < BATCH_COUNT then w.(leader := l.(next := l.next + 1, buf := l.buf + [l.next]))
    else World(l.(next := l.next + 1, buf := [l.next]), w.net + BothGet(l.buf), w.dlv)
  }

  /** The flush ships the buffer and leaves it as it is. */
  function OnFlush(w: World): World {
    World(w.leader.(flushed := true), w.net + BothGet(w.leader.buf), w.dlv)
  }

  /** What handling m does to the leader, and what it puts on the links. */
  function Handle(l: Leader, m: Msg): (Leader, multiset<Msg>) {
    match m
    case Prp(f, b) => (l, multiset{PrpAck(f, KeyOf(b))})
    case PrpAck(f, k) =>
      var (l2, second) := UpdatePrpAcks(l, k);
      (l2, if second then multiset{Cmt(1, k), Cmt(2, k)} else multiset{})
    case Cmt(f, k) => (l, multiset{CmtAck(f, k)})
    case CmtAck(f, k) => (UpdateCmtAcks(l, k).0, multiset{})
  }

  function OnDeliver(w: World, m: Msg): World {
    var (l, out) := Handle(w.leader, m);
    World(l, w.net - multiset{m} + out, w.dlv + multiset{m})
  }

  predicate Enabled(n: nat, w: World, s: Step) {
    match s
    case Submit => w.leader.next < n && !w.leader.flushed
    case Flush => w.leader.next == n && !w.leader.flushed
    case Deliver(m) => m in w.net
  }

  function Do(w: World, s: Step): World {
    match s
    case Submit => OnSubmit(w)
    case Flush => OnFlush(w)
    case Deliver(m) => OnDeliver(w, m)
  }

  /** Any list of steps of a run of n requests; one that is not enabled does nothing. */
  function Exec(n: nat, steps: seq<Step>): World
    decreases |steps|
  {
    if steps == [] then Start
    else
      var w, s := Exec(n, steps[..|steps| - 1]), steps[|steps| - 1];
      if Enabled(n, w, s) then Do(w, s) else w
  }

  // ----- the invariant -----

  function Shipped(n: nat, l: Leader): nat {
    if l.flushed then NumBatches(n) else FullBefore(l.next)
  }

  predicate SendingOk(n: nat, l: Leader) {
    && l.next <= n && (l.flushed ==> l.next == n)
    && l.buf == Range(BATCH_COUNT * FullBefore(l.next), l.next)
  }

  function Bit(b: bool): nat { if b then 1 else 0 }

  predicate IsShipped(n: nat, c: nat, b: seq<nat>)
    requires c <= NumBatches(n)
  {
    exists j: nat :: j < c && Batch(n, j) == b
  }

  /** Follower f has handled the batch with key k. */
  predicate HasBatch(n: nat, w: World, c: nat, f: nat, k: int)
    requires c <= NumBatches(n)
  {
    exists j: nat :: j < c && Key(n, j) == k && w.dlv[Prp(f, Batch(n, j))] > 0
  }

  function Acks(w: World, k: int): nat { w.dlv[PrpAck(1, k)] + w.dlv[PrpAck(2, k)] }

  function CmtAcks(w: World, k: int): nat { w.dlv[CmtAck(1, k)] + w.dlv[CmtAck(2, k)] }

  /** Which messages must have been put on a link by now. */
  predicate Sent(n: nat, w: World, c: nat, m: Msg)
    requires c <= NumBatches(n)
  {
    && (m.f == 1 || m.f == 2)
    && match m
       case Prp(f, b) => IsShipped(n, c, b)
       case PrpAck(f, k) => HasBatch(n, w, c, f, k)
       case Cmt(f, k) => Acks(w, k) == 2
       case CmtAck(f, k) => w.dlv[Cmt(f, k)] > 0
  }

  ghost predicate Balanced(n: nat, w: World, c: nat, m: Msg)
    requires c <= NumBatches(n)
  {
    w.net[m] + w.dlv[m] == Bit(Sent(n, w, c, m))
  }

  ghost predicate NetInv(n: nat, w: World, c: nat)
    requires c <= NumBatches(n)
  {
    forall m: Msg :: Balanced(n, w, c, m)
  }

  /** `prp_acks` holds the keys acked by exactly one follower; `cmt_acks` those whose commit
      has been acked at all. */
  ghost predicate MapsInv(w: World) {
    forall k: int :: MapsAt(w, k)
  }

  predicate MapsAt(w: World, k: int) {
    && (k in w.leader.prpAcks <==> Acks(w, k) == 1)
    && (k in w.leader.cmtAcks <==> CmtAcks(w, k) > 0)
    && (k in w.leader.prpAcks ==> w.leader.prpAcks[k] == 1)
    && (k in w.leader.cmtAcks ==> w.leader.cmtAcks[k] == 1)
  }

  ghost predicate Inv(n: nat, w: World) {
    && SendingOk(n, w.leader) && Shipped(n, w.leader) <= NumBatches(n)
    && NetInv(n, w, Shipped(n, w.leader)) && MapsInv(w)
  }

  // ----- causes -----

  lemma OnceAndCaused(n: nat, w: World, c: nat, m: Msg)
    requires c <= NumBatches(n) && NetInv(n, w, c)
    ensures w.dlv[m] <= 1
    ensures w.dlv[m] == 1 ==> Sent(n, w, c, m)
    ensures m in w.net ==> Sent(n, w, c, m) && w.dlv[m] == 0 && w.net[m] == 1
  {
    assert Balanced(n, w, c, m);
  }

  /** Handling a batch makes its ack due, and nothing else. */
  lemma PrpKeepsNet(n: nat, w: World, c: nat, m: Msg)
    requires KeysOk(n) && c <= NumBatches(n) && NetInv(n, w, c) && m in w.net && m.Prp?
    ensures NetInv(n, OnDeliver(w, m), c)
  {
    var w2 := OnDeliver(w, m);
    OnceAndCaused(n, w, c, m);
    var i: nat :| i < c && Batch(n, i) == m.b;
    forall x: Msg ensures Balanced(n, w2, c, x) {
      assert Balanced(n, w, c, x);
      if x.PrpAck? { HasBatchAfter(n, w, c, m, i, w2, x.f, x.k); }
      if x.CmtAck? { assert w2.dlv[Cmt(x.f, x.k)] == w.dlv[Cmt(x.f, x.k)]; }
      if x.Cmt? { assert Acks(w2, x.k) == Acks(w, x.k); }
    }
  }

  lemma HasBatchAfter(n: nat, w: World, c: nat, m: Msg, i: nat, w2: World, f: nat, k: int)
    requires KeysOk(n) && c <= NumBatches(n) && m.Prp? && i < c && Batch(n, i) == m.b && w.dlv[m] == 0
    requires w2.dlv == w.dlv + multiset{m}
    ensures HasBatch(n, w2, c, f, k) <==> HasBatch(n, w, c, f, k) || (f == m.f && k == KeyOf(m.b))
    ensures !(HasBatch(n, w, c, m.f, KeyOf(m.b)))
  {
    if HasBatch(n, w2, c, f, k) {
      var j: nat :| j < c && Key(n, j) == k && w2.dlv[Prp(f, Batch(n, j))] > 0;
      assert w2.dlv[Prp(f, Batch(n, j))] == w.dlv[Prp(f, Batch(n, j))] + Bit(Prp(f, Batch(n, j)) == m);
    }
    if HasBatch(n, w, c, f, k) {
      var j: nat :| j < c && Key(n, j) == k && w.dlv[Prp(f, Batch(n, j))] > 0;
      assert w2.dlv[Prp(f, Batch(n, j))] > 0;
    }
    if f == m.f && k == KeyOf(m.b) { assert Key(n, i) == k && w2.dlv[Prp(f, Batch(n, i))] > 0; }
    if HasBatch(n, w, c, m.f, KeyOf(m.b)) {
      var j: nat :| j < c && Key(n, j) == KeyOf(m.b) && w.dlv[Prp(m.f, Batch(n, j))] > 0;
      if j != i { KeysAreDistinct(n, i, j); }
    }
  }

  lemma SameBatches(n: nat, w: World, c: nat, w2: World, f: nat, k: int)
    requires c <= NumBatches(n)
    requires forall b :: w2.dlv[Prp(f, b)] == w.dlv[Prp(f, b)]
    ensures HasBatch(n, w2, c, f, k) <==> HasBatch(n, w, c, f, k)
  {
  }

  /** Everything the messages x says of a world, given what it says of the one before. */
  lemma NetAfter(n: nat, w: World, c: nat, m: Msg, x: Msg)
    requires c <= NumBatches(n) && NetInv(n, w, c) && m in w.net && !m.Prp?
    ensures var w2 := OnDeliver(w, m);
            && w2.net[x] + w2.dlv[x] == Bit(Sent(n, w, c, x)) + Handle(w.leader, m).1[x]
            && (!x.Cmt? ==> Bit(Sent(n, w2, c, x)) == Bit(Sent(n, w, c, x)) + Bit(m.Cmt? && x == CmtAck(m.f, m.k)))
  {
    var w2 := OnDeliver(w, m);
    OnceAndCaused(n, w, c, m);
    assert Balanced(n, w, c, x);
    match x
    case Prp(f, b) =>
    case PrpAck(f, k) => SameBatches(n, w, c, w2, f, k);
    case Cmt(f, k) =>
    case CmtAck(f, k) => assert w2.dlv[Cmt(f, k)] == w.dlv[Cmt(f, k)] + Bit(Cmt(f, k) == m);
  }

  /** The other messages: an ack may complete the pair, a commit makes its own ack due. */
  lemma OtherKeepsNet(n: nat, w: World, c: nat, m: Msg)
    requires c <= NumBatches(n) && NetInv(n, w, c) && MapsInv(w) && m in w.net && !m.Prp?
    ensures NetInv(n, OnDeliver(w, m), c)
  {
    var w2 := OnDeliver(w, m);
    forall x: Msg ensures Balanced(n, w2, c, x) {
      NetAfter(n, w, c, m, x);
      if x.Cmt? { CmtBalanced(n, w, c, m, x); }
    }
  }

  lemma CmtBalanced(n: nat, w: World, c: nat, m: Msg, x: Msg)
    requires c <= NumBatches(n) && NetInv(n, w, c) && MapsInv(w) && m in w.net && !m.Prp? && x.Cmt?
    ensures Bit(Sent(n, OnDeliver(w, m), c, x)) == Bit(Sent(n, w, c, x)) + Handle(w.leader, m).1[x]
  {
    OnceAndCaused(n, w, c, m);
    AcksAfter(n, w, c, m, OnDeliver(w, m), x.k);
    assert MapsAt(w, x.k);
  }

  lemma AcksAfter(n: nat, w: World, c: nat, m: Msg, w2: World, k: int)
    requires c <= NumBatches(n) && NetInv(n, w, c) && Sent(n, w, c, m) && w.dlv[m] == 0
    requires w2.dlv == w.dlv + multiset{m}
    ensures Acks(w2, k) == Acks(w, k) + Bit(m.PrpAck? && m.k == k)
    ensures CmtAcks(w2, k) == CmtAcks(w, k) + Bit(m.CmtAck? && m.k == k)
    ensures Acks(w2, k) <= 2
  {
    OnceAndCaused(n, w, c, PrpAck(1, k));
    OnceAndCaused(n, w, c, PrpAck(2, k));
    assert w2.dlv[PrpAck(1, k)] == w.dlv[PrpAck(1, k)] + Bit(PrpAck(1, k) == m);
    assert w2.dlv[PrpAck(2, k)] == w.dlv[PrpAck(2, k)] + Bit(PrpAck(2, k) == m);
    assert w2.dlv[CmtAck(1, k)] == w.dlv[CmtAck(1, k)] + Bit(CmtAck(1, k) == m);
    assert w2.dlv[CmtAck(2, k)] == w.dlv[CmtAck(2, k)] + Bit(CmtAck(2, k) == m);
  }

  /** A commit in flight or acked: both followers have acked the proposal. */
  lemma CommitMeansBothAcked(n: nat, w: World, c: nat, f: nat, k: int)
    requires c <= NumBatches(n) && NetInv(n, w, c)
    requires CmtAck(f, k) in w.net || w.dlv[CmtAck(f, k)] > 0 || Cmt(f, k) in w.net || w.dlv[Cmt(f, k)] > 0
    ensures Acks(w, k) == 2
  {
    OnceAndCaused(n, w, c, CmtAck(f, k));
    OnceAndCaused(n, w, c, Cmt(f, k));
  }

  lemma MapsAfter(n: nat, w: World, c: nat, m: Msg, k: int)
    requires c <= NumBatches(n) && NetInv(n, w, c) && MapsAt(w, k) && m in w.net
    ensures MapsAt(OnDeliver(w, m), k)
  {
    assert Sent(n, w, c, m) && w.dlv[m] == 0 by { OnceAndCaused(n, w, c, m); }
    AcksAfter(n, w, c, m, OnDeliver(w, m), k);
    if m.CmtAck? { CommitMeansBothAcked(n, w, c, m.f, m.k); }
  }

  lemma DeliverKeepsMaps(n: nat, w: World, c: nat, m: Msg)
    requires c <= NumBatches(n) && NetInv(n, w, c) && MapsInv(w) && m in w.net
    ensures MapsInv(OnDeliver(w, m))
  {
    forall k: int ensures MapsAt(OnDeliver(w, m), k) {
      MapsAfter(n, w, c, m, k);
    }
  }

  /** Shipping batch number c to both followers. */
  lemma ShipKeepsNet(n: nat, w: World, c: nat, l: Leader)
    requires KeysOk(n) && c < NumBatches(n) && NetInv(n, w, c)
    ensures NetInv(n, World(l, w.net + BothGet(Batch(n, c)), w.dlv), c + 1)
  {
    var w2 := World(l, w.net + BothGet(Batch(n, c)), w.dlv);
    var c2 := c + 1;
    forall x: Msg ensures Balanced(n, w2, c2, x) {
      assert Balanced(n, w, c, x);
      if x.Prp? {
        assert IsShipped(n, c + 1, x.b) <==> IsShipped(n, c, x.b) || x.b == Batch(n, c);
        if x.b == Batch(n, c) { NotYetShipped(n, c); }
      } else {
        assert w2.net[x] == w.net[x];
        if x.PrpAck? { OneMoreBatch(n, w, c, w2, x.f, x.k); }
      }
    }
  }

  lemma NotYetShipped(n: nat, c: nat)
    requires KeysOk(n) && c < NumBatches(n)
    ensures !IsShipped(n, c, Batch(n, c))
  {
    if IsShipped(n, c, Batch(n, c)) {
      var j: nat :| j < c && Batch(n, j) == Batch(n, c);
      KeysAreDistinct(n, j, c);
    }
  }

  lemma OneMoreBatch(n: nat, w: World, c: nat, w2: World, f: nat, k: int)
    requires KeysOk(n) && c < NumBatches(n) && NetInv(n, w, c) && w2.dlv == w.dlv
    ensures HasBatch(n, w2, c + 1, f, k) <==> HasBatch(n, w, c, f, k)
  {
    OnceAndCaused(n, w, c, Prp(f, Batch(n, c)));
    NotYetShipped(n, c);
  }

  lemma SubmitKeepsInv(n: nat, w: World)
    requires KeysOk(n) && Inv(n, w) && Enabled(n, w, Submit)
    ensures Inv(n, OnSubmit(w))
  {
    var c, w2 := Shipped(n, w.leader), OnSubmit(w);
    FullBeforeStep(n, w.leader.next);
    if |w.leader.buf| == BATCH_COUNT {
      assert w.leader.buf == Batch(n, c);
      ShipKeepsNet(n, w, c, w2.leader);
    } else {
      SameNet(n, w, c, w2);
    }
    SameMaps(w, w2);
  }

  lemma FlushKeepsInv(n: nat, w: World)
    requires KeysOk(n) && Inv(n, w) && Enabled(n, w, Flush)
    ensures Inv(n, OnFlush(w))
  {
    var c, w2 := Shipped(n, w.leader), OnFlush(w);
    assert w.leader.buf == Batch(n, c);
    ShipKeepsNet(n, w, c, w2.leader);
    SameMaps(w, w2);
  }

  lemma SameMaps(w: World, w2: World)
    requires MapsInv(w) && w2.dlv == w.dlv
    requires w2.leader.prpAcks == w.leader.prpAcks && w2.leader.cmtAcks == w.leader.cmtAcks
    ensures MapsInv(w2)
  {
    forall k: int ensures MapsAt(w2, k) { assert MapsAt(w, k); }
  }

  lemma DeliverKeepsInv(n: nat, w: World, m: Msg)
    requires KeysOk(n) && Inv(n, w) && m in w.net
    ensures Inv(n, OnDeliver(w, m))
  {
    var c := Shipped(n, w.leader);
    DeliverKeepsMaps(n, w, c, m);
    if m.Prp? { PrpKeepsNet(n, w, c, m); } else { OtherKeepsNet(n, w, c, m); }
  }

  lemma StepKeepsInv(n: nat, w: World, s: Step)
    requires KeysOk(n) && Inv(n, w) && Enabled(n, w, s)
    ensures Inv(n, Do(w, s))
  {
    match s
    case Submit => SubmitKeepsInv(n, w);
    case Flush => FlushKeepsInv(n, w);
    case Deliver(m) => DeliverKeepsInv(n, w, m);
  }

  lemma SameNet(n: nat, w: World, c: nat, w2: World)
    requires c <= NumBatches(n) && NetInv(n, w, c) && w2.net == w.net && w2.dlv == w.dlv
    ensures NetInv(n, w2, c)
  {
    forall x: Msg ensures Balanced(n, w2, c, x) { assert Balanced(n, w, c, x); }
  }

  lemma {:induction false} ExecKeepsInv(n: nat, steps: seq<Step>)
    requires KeysOk(n)
    ensures Inv(n, Exec(n, steps))
    decreases |steps|
  {
    if steps == [] {
      forall x: Msg ensures Balanced(n, Start, 0, x) {}
      forall k: int ensures MapsAt(Start, k) {}
    } else {
      ExecKeepsInv(n, steps[..|steps| - 1]);
      var w, s := Exec(n, steps[..|steps| - 1]), steps[|steps| - 1];
      if Enabled(n, w, s) { StepKeepsInv(n, w, s); }
    }
  }
}
