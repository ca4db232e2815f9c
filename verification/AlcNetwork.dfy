/** Three ALC nodes over links that deliver every message exactly once, in any order. */
module AlcNetwork {
  import opened AlcNode

  datatype Option<T> = None | Some(value: T)

  /** `net` holds the messages in flight and `dlv` those already handled. */
  datatype World = World(nodes: seq<Node>, net: multiset<Msg>, dlv: multiset<Msg>)

  datatype Step = Submit(i: nat) | Flush(i: nat) | Deliver(m: Msg)

  const Init: World := World([InitNode(0), InitNode(1), InitNode(2)], multiset{}, multiset{})

  predicate Enabled(w: World, s: Step) {
    && |w.nodes| == TOT_NODES
    && match s
       case Submit(i) => i < TOT_NODES
       case Flush(i) => i < TOT_NODES
       case Deliver(m) => m in w.net && m.dst < TOT_NODES
  }

  function Sending(w: World, i: nat, r: (Node, seq<Msg>)): World
    requires i < |w.nodes|
  {
    World(w.nodes[i := r.0], w.net + multiset(r.1), w.dlv)
  }

  /** None when the step dereferences a round that is not in the table. */
  function Apply(w: World, s: Step): Option<World>
    requires Enabled(w, s)
  {
    match s
    case Submit(i) => Some(Sending(w, i, SendReq(w.nodes[i])))
    case Flush(i) => Some(Sending(w, i, FlashBatcher(w.nodes[i])))
    case Deliver(m) =>
      match Handle(w.nodes[m.dst], m)
      case Crash => None
      case Next(n, out) =>
        Some(World(w.nodes[m.dst := n], w.net - multiset{m} + multiset(out), w.dlv + multiset{m}))
  }

  /** Step k is enabled and leads, without a crash, from state k to state k + 1. */
  predicate StepOk(ws: seq<World>, ss: seq<Step>, k: nat)
    requires k < |ss| && |ws| == |ss| + 1
  {
    Enabled(ws[k], ss[k]) && Apply(ws[k], ss[k]) == Some(ws[k + 1])
  }

  /** A run.  `ws[k]` is the state after k steps. */
  ghost predicate Run(ws: seq<World>, ss: seq<Step>) {
    && |ws| == |ss| + 1
    && ws[0] == Init
    && forall k: nat :: k < |ss| ==> StepOk(ws, ss, k)
  }

  predicate FlushOk(w: World, s: Step, F: nat) {
    s.Flush? ==> s.i < |w.nodes| && F <= w.nodes[s.i].count
  }

  /** No node flushes a partial batch as a round below F.  Runs that never flush
      satisfy this for every F. */
  ghost predicate FlushFree(ws: seq<World>, ss: seq<Step>, F: nat)
    requires |ws| == |ss| + 1
  {
    forall k: nat :: k < |ss| ==> FlushOk(ws[k], ss[k], F)
  }

  // ----- what the messages say -----

  function D(w: World, kind: Kind, src: nat, dst: nat, rd: nat): nat {
    w.dlv[Msg(kind, src, dst, rd)]
  }

  function P(i: nat): nat { Followers(i)[0] }
  function Q(i: nat): nat { Followers(i)[1] }

  /** The events node i counts in `nb_acks` of round r: two batches, two acks. */
  function AckEvents(w: World, i: nat, r: nat): nat {
    D(w, Req, P(i), i, r) + D(w, Req, Q(i), i, r) + D(w, Ack, P(i), i, r) + D(w, Ack, Q(i), i, r)
  }

  /** The events node i counts in `nb_cmts` of round r: two commits, two commit-acks. */
  function CmtEvents(w: World, i: nat, r: nat): nat {
    D(w, Cmt, P(i), i, r) + D(w, Cmt, Q(i), i, r) + D(w, CmtAck, P(i), i, r) + D(w, CmtAck, Q(i), i, r)
  }

  /** Which messages the protocol must have put on a link by now. */
  predicate Sent(w: World, m: Msg)
    requires |w.nodes| == TOT_NODES
  {
    && m.src < TOT_NODES && m.dst < TOT_NODES && m.src != m.dst
    && match m.kind
       case Req => m.rd < w.nodes[m.src].count
       case Ack => D(w, Req, m.dst, m.src, m.rd) > 0
       case Cmt => AckEvents(w, m.src, m.rd) == TOT_ACKS
       case CmtAck => D(w, Cmt, m.dst, m.src, m.rd) > 0
  }

  function Bit(b: bool): nat { if b then 1 else 0 }

  /** A message is in flight or handled, exactly once, if it is due; else it is neither. */
  ghost predicate Balanced(w: World, m: Msg)
    requires |w.nodes| == TOT_NODES
  {
    w.net[m] + w.dlv[m] == Bit(Sent(w, m))
  }

  ghost predicate NetInv(w: World, F: nat)
    requires |w.nodes| == TOT_NODES
  {
    forall m: Msg :: m.rd < F ==> Balanced(w, m)
  }

  predicate Known(w: World, i: nat, r: nat)
    requires |w.nodes| == TOT_NODES && i < TOT_NODES
  {
    r < w.nodes[i].count || D(w, Req, P(i), i, r) > 0 || D(w, Req, Q(i), i, r) > 0
  }

  function SenderKeys(w: World, i: nat, r: nat): set<nat>
    requires |w.nodes| == TOT_NODES && i < TOT_NODES
  {
    (if r < w.nodes[i].count then {i} else {}) +
    (if D(w, Req, P(i), i, r) > 0 || D(w, Req, Q(i), i, r) > 0 then {0} else {})
  }

  /** A round table `ms` with last committed round `c` agrees with the messages about round r:
      an entry exists exactly while r is known and uncommitted, and its fields count events. */
  ghost predicate TableInv(w: World, i: nat, c: LastRound, ms: Rounds, r: nat)
    requires |w.nodes| == TOT_NODES && i < TOT_NODES
  {
    && (r in ms <==> c < r && Known(w, i, r))
    && (r in ms ==> ms[r] == Metadata(AckEvents(w, i, r), CmtEvents(w, i, r),
                                      AckEvents(w, i, r) == TOT_ACKS, SenderKeys(w, i, r)))
    && (r <= c ==> CmtEvents(w, i, r) == TOT_ACKS)
    && CmtEvents(w, i, r) <= TOT_ACKS
  }

  ghost predicate EntryInv(w: World, i: nat, r: nat)
    requires |w.nodes| == TOT_NODES && i < TOT_NODES
  {
    && TableInv(w, i, w.nodes[i].cmtRd, w.nodes[i].protoMeta, r)
    && (r == w.nodes[i].cmtRd + 1 ==> CmtEvents(w, i, r) < TOT_ACKS)
  }

  ghost predicate NodeInv(w: World, i: nat, F: nat)
    requires |w.nodes| == TOT_NODES && i < TOT_NODES
  {
    var n := w.nodes[i];
    && n.id == i && n.header == n.count && n.curIdx <= BATCH_COUNT
    && n.curRd == (if n.count == 0 then 0 else n.count - 1)
    && forall r: nat :: r < F ==> EntryInv(w, i, r)
  }

  ghost predicate Inv(w: World, F: nat) {
    && |w.nodes| == TOT_NODES
    && NetInv(w, F)
    && forall i: nat :: i < TOT_NODES ==> NodeInv(w, i, F)
  }
}
