/** One ALC node: the round table of `alc/app_context.h` and the handlers of
    `alc/main.cc`, as functions on values.  The classes in AlcContext are
    proved against these functions, and AlcNetwork runs three of them. */
module AlcNode {
  const TOT_NODES: nat := 3
  const TOT_ACKS: nat := 4
  const BATCH_COUNT: nat := 16

  datatype Kind = Req | Ack | Cmt | CmtAck
  datatype Msg = Msg(kind: Kind, src: nat, dst: nat, rd: nat)

  /** `senders` holds the keys of `ucmt_reqs`; batch contents are not modelled. */
  datatype Metadata = Metadata(nbAcks: nat, nbCmts: nat, underCommit: bool, senders: set<nat>)
  type Rounds = map<nat, Metadata>

  /** The last committed round; -1 before the first commit. */
  type LastRound = x: int | -1 <= x witness -1

  /** `header` is the round id held in the first 8 bytes of the batch buffer. */
  datatype Node = Node(id: nat, cmtRd: LastRound, curRd: int, protoMeta: Rounds,
                       curIdx: nat, count: nat, header: nat)

  /** A handler either dereferences a missing entry or yields a state and messages. */
  datatype Outcome = Crash | Next(node: Node, out: seq<Msg>)

  /** The peers of each node, in the order its session list is built. */
  function Followers(i: nat): (f: seq<nat>)
    ensures |f| == 2
    ensures i < TOT_NODES ==> forall j: nat :: j in f <==> j < TOT_NODES && j != i
    ensures f[0] != f[1]
  {
    if i == 0 then [1, 2] else if i == 1 then [0, 2] else [1, 0]
  }

  function Broadcast(kind: Kind, i: nat, rd: nat): seq<Msg> {
    [Msg(kind, i, Followers(i)[0], rd), Msg(kind, i, Followers(i)[1], rd)]
  }

  function InitNode(i: nat): Node {
    Node(i, -1, 0, map[], 0, 0, 0)
  }

  // ----- the round table -----

  function AddRecvReq(ms: Rounds, sender: nat, rd: nat): Rounds {
    if rd !in ms then ms[rd := Metadata(0, 0, false, {sender})]
    else ms[rd := ms[rd].(senders := ms[rd].senders + {sender})]
  }

  function BumpAcks(ms: Rounds, rd: nat): Rounds
    requires rd in ms
  {
    ms[rd := ms[rd].(nbAcks := ms[rd].nbAcks + 1)]
  }

  function BumpCmts(ms: Rounds, rd: nat): Rounds
    requires rd in ms
  {
    ms[rd := ms[rd].(nbCmts := ms[rd].nbCmts + 1)]
  }

  predicate CanCommit(ms: Rounds, rd: nat)
    requires rd in ms
  {
    ms[rd].nbAcks == TOT_ACKS && !ms[rd].underCommit
  }

  function MarkCommit(ms: Rounds, rd: nat): Rounds
    requires rd in ms
  {
    if CanCommit(ms, rd) then ms[rd := ms[rd].(underCommit := true)] else ms
  }

  predicate Complete(ms: Rounds, r: int) {
    0 <= r && r in ms && ms[r].nbCmts == TOT_ACKS
  }

  /** Erases complete rounds one by one, starting after `c`. */
  function Drain(c: LastRound, cur: int, ms: Rounds): (LastRound, Rounds)
    decreases cur - c
  {
    if c < cur && Complete(ms, c + 1) then Drain(c + 1, cur, ms - {c + 1}) else (c, ms)
  }

  /** (c2, ms2) is what remains of (c, ms) after erasing the longest run of
      complete rounds that starts at c + 1 and does not pass `cur`. */
  ghost predicate MaximalDrain(c: LastRound, cur: int, ms: Rounds, c2: LastRound, ms2: Rounds) {
    && c <= c2
    && (c < c2 ==> c2 <= cur)
    && (forall r: nat :: c < r <= c2 ==> Complete(ms, r))
    && (c2 < cur ==> !Complete(ms, c2 + 1))
    && (forall r: nat :: r in ms2 <==> r in ms && !(c < r <= c2))
    && (forall r: nat :: r in ms2 ==> ms2[r] == ms[r])
  }

  lemma {:induction false} DrainIsMaximal(c: LastRound, cur: int, ms: Rounds)
    ensures MaximalDrain(c, cur, ms, Drain(c, cur, ms).0, Drain(c, cur, ms).1)
    decreases cur - c
  {
    if c < cur && Complete(ms, c + 1) {
      DrainIsMaximal(c + 1, cur, ms - {c + 1});
      var (c2, ms2) := Drain(c, cur, ms);
      forall r: nat | c < r <= c2 ensures Complete(ms, r) {
        if r != c + 1 { assert Complete(ms - {c + 1}, r); }
      }
    }
  }

  /** The ordered drain is pinned down by its outcome: no other cut qualifies. */
  lemma DrainIsTheOnlyMaximal(c: LastRound, cur: int, ms: Rounds, c2: LastRound, ms2: Rounds)
    ensures MaximalDrain(c, cur, ms, c2, ms2) <==> (c2, ms2) == Drain(c, cur, ms)
  {
    DrainIsMaximal(c, cur, ms);
    var (d, md) := Drain(c, cur, ms);
    if MaximalDrain(c, cur, ms, c2, ms2) {
      assert c2 < d ==> Complete(ms, c2 + 1);
      assert d < c2 ==> Complete(ms, d + 1);
      assert ms2 == md;
    }
  }

  // ----- the steps of a node -----

  /** `send_req`: buffer the request, or ship the full batch as round `count`. */
  function SendReq(n: Node): (Node, seq<Msg>) {
    if n.curIdx < BATCH_COUNT then (n.(curIdx := n.curIdx + 1), [])
    else
      (n.(protoMeta := AddRecvReq(n.protoMeta, n.id, n.count), curRd := n.count,
          curIdx := 1, count := n.count + 1, header := n.count + 1),
       Broadcast(Req, n.id, n.header))
  }

  /** `flash_batcher`: ship whatever is buffered, and count one ack of its own. */
  function FlashBatcher(n: Node): (Node, seq<Msg>) {
    (n.(protoMeta := BumpAcks(AddRecvReq(n.protoMeta, n.id, n.count), n.count), curRd := n.count,
        curIdx := 0, count := n.count + 1, header := n.count + 1),
     Broadcast(Req, n.id, n.header))
  }

  function CommitOut(n: Node, ms: Rounds, rd: nat): seq<Msg>
    requires rd in ms
  {
    if CanCommit(ms, rd) then Broadcast(Cmt, n.id, rd) else []
  }

  function OnReq(n: Node, src: nat, rd: nat): Outcome {
    var ms := BumpAcks(AddRecvReq(n.protoMeta, 0, rd), rd);
    Next(n.(protoMeta := MarkCommit(ms, rd)), [Msg(Ack, n.id, src, rd)] + CommitOut(n, ms, rd))
  }

  function OnAck(n: Node, rd: nat): Outcome {
    if rd !in n.protoMeta then Crash
    else
      var ms := BumpAcks(n.protoMeta, rd);
      Next(n.(protoMeta := MarkCommit(ms, rd)), CommitOut(n, ms, rd))
  }

  function CountCmt(n: Node, rd: nat): Node
    requires rd in n.protoMeta
  {
    var (c, ms) := Drain(n.cmtRd, n.curRd, BumpCmts(n.protoMeta, rd));
    n.(cmtRd := c, protoMeta := ms)
  }

  function OnCmt(n: Node, src: nat, rd: nat): Outcome {
    if rd !in n.protoMeta then Crash
    else Next(CountCmt(n, rd), [Msg(CmtAck, n.id, src, rd)])
  }

  function OnCmtAck(n: Node, rd: nat): Outcome {
    if rd !in n.protoMeta then Crash else Next(CountCmt(n, rd), [])
  }

  function Handle(n: Node, m: Msg): Outcome {
    match m.kind
    case Req => OnReq(n, m.src, m.rd)
    case Ack => OnAck(n, m.rd)
    case Cmt => OnCmt(n, m.src, m.rd)
    case CmtAck => OnCmtAck(n, m.rd)
  }
}
