/** Honest three-node runs of `bft-cr`: head, middle and tail over in-order links. */
module BftRun {
  import opened Bytes
  import opened SignedMsg
  import opened BftProto

  /** `buf` is the head's batch buffer; each link is a queue; `ok` falls when a check fails. */
  datatype World = World(
    next: nat, curIdx: nat, buf: seq<byte>, flushed: bool, nbCmts: nat,
    toMiddle: seq<seq<byte>>, toTail: seq<seq<byte>>, toHead: nat,
    midCnt: nat, tailCnt: nat, midSeen: seq<seq<byte>>, tailSeen: seq<seq<byte>>,
    sent: seq<seq<byte>>, ok: bool)

  datatype Step = Submit | Flush | Middle | Tail | Head

  const Start: World :=
    World(0, 0, Zeros(PAYLOAD), false, 0, [], [], 0, TWO32 - 1, TWO32 - 1, [], [], [], true)

  datatype Config = Config(attest: Attest, n: nat)

  /** What `construct_msg` writes for request i at node 0. */
  function Request(i: nat): (r: seq<byte>)
    ensures |r| <= PAYLOAD
  {
    Zeros(2 * MSG) + Le(i % TWO32, CMT)
  }

  function Enqueue(w: World, i: nat): World
    requires |w.buf| == PAYLOAD
  {
    w.(buf := Splice(w.buf, 0, Request(i)), curIdx := 1)
  }

  function Ship(c: Config, w: World): World {
    w.(toMiddle := w.toMiddle + [Sign(c.attest, w.buf)], sent := w.sent + [w.buf])
  }

  predicate Enabled(c: Config, w: World, s: Step) {
    && w.ok && |w.buf| == PAYLOAD
    && match s
       case Submit => w.next < c.n && !w.flushed
       case Flush => w.next == c.n && !w.flushed
       case Middle => w.toMiddle != []
       case Tail => w.toTail != []
       case Head => w.toHead > 0
  }

  function Do(c: Config, w: World, s: Step): World
    requires Enabled(c, w, s)
  {
    match s
    case Submit =>
      var w2 := if w.curIdx < 1 then w else Ship(c, w);
      Enqueue(w2, w.next).(next := w.next + 1)
    case Flush => Ship(c, w).(flushed := true)
    case Middle =>
      var m := w.toMiddle[0];
      (match OnMiddle(c.attest, w.midCnt, m)
       case None => w.(ok := false)
       case Some(r) => w.(midCnt := r.0, toMiddle := w.toMiddle[1..], toTail := w.toTail + [r.1],
                          midSeen := w.midSeen + [PlainOf(m)]))
    case Tail =>
      var m := w.toTail[0];
      (match OnTail(c.attest, w.tailCnt, m)
       case None => w.(ok := false)
       case Some(r) => w.(tailCnt := r, toTail := w.toTail[1..], toHead := w.toHead + 1,
                          tailSeen := w.tailSeen + [Innermost(c.attest, m).value]))
    case Head => w.(toHead := w.toHead - 1, nbCmts := w.nbCmts + 1)
  }

  /** Any list of steps; one that is not enabled does nothing. */
  function Exec(c: Config, steps: seq<Step>): World
    decreases |steps|
  {
    if steps == [] then Start
    else
      var w, s := Exec(c, steps[..|steps| - 1]), steps[|steps| - 1];
      if Enabled(c, w, s) then Do(c, w, s) else w
  }

  function Payloads(k: nat): (p: seq<seq<byte>>)
    ensures |p| == k
    ensures forall i :: 0 <= i < k ==> p[i] == HeadPayload(i)
  {
    seq(k, i requires 0 <= i => HeadPayload(i))
  }

  ghost predicate HeadInv(c: Config, w: World) {
    && w.next <= c.n && (w.flushed ==> w.next == c.n)
    && w.curIdx == (if w.next == 0 then 0 else 1)
    && w.buf == HeadPayload(if w.next == 0 then 0 else w.next - 1)
    && |w.sent| == (if w.flushed then (if c.n == 0 then 1 else c.n) else w.next - w.curIdx)
    && w.sent == Payloads(|w.sent|)
  }

  /** A node that accepted `seen`, with counter c and a queue of what is still to come. */
  ghost predicate NodeInv(seen: seq<seq<byte>>, c: nat, queue: seq<seq<byte>>, msg: nat -> seq<byte>, total: nat) {
    && seen == Payloads(|seen|) && c == Counter(|seen|)
    && |seen| + |queue| == total
    && forall k: nat :: k < |queue| ==> queue[k] == msg(|seen| + k)
  }

  ghost predicate ChainInv(c: Config, w: World) {
    && NodeInv(w.midSeen, w.midCnt, w.toMiddle, i => HeadMsg(c.attest, i), |w.sent|)
    && NodeInv(w.tailSeen, w.tailCnt, w.toTail, i => MiddleMsg(c.attest, i), |w.midSeen|)
    && w.nbCmts + w.toHead == |w.tailSeen|
  }

  ghost predicate Inv(c: Config, w: World) {
    w.ok && HeadInv(c, w) && ChainInv(c, w)
  }

  /** At its turn the middle accepts message number `seen` and forwards its envelope. */
  lemma MiddleAccepts(attest: Attest, seen: nat)
    ensures OnMiddle(attest, Counter(seen), HeadMsg(attest, seen)) == Some((Counter(seen + 1), MiddleMsg(attest, seen)))
    ensures Accepts(attest, HeadMsg(attest, seen)) && PlainOf(HeadMsg(attest, seen)) == HeadPayload(seen)
  {
    assert HeadMsg(attest, seen) + [] == HeadMsg(attest, seen);
    HeadMsgUnwraps(attest, seen, []);
    HonestPayloadPasses(seen);
    OnMiddleIs(attest, Counter(seen), HeadMsg(attest, seen), HeadPayload(seen), Counter(seen + 1));
  }

  lemma TailAccepts(attest: Attest, seen: nat)
    ensures OnTail(attest, Counter(seen), MiddleMsg(attest, seen)) == Some(Counter(seen + 1))
    ensures Innermost(attest, MiddleMsg(attest, seen)) == Some(HeadPayload(seen))
  {
    MiddleMsgUnwraps(attest, seen);
    HonestPayloadPasses(seen);
    OnTailIs(attest, Counter(seen), MiddleMsg(attest, seen), HeadPayload(seen), Counter(seen + 1));
  }

  lemma RequestMakesPayload(i: nat, j: nat)
    ensures Splice(HeadPayload(i), 0, Request(j)) == HeadPayload(j)
  {
  }

  lemma ZeroBufferIsPayload()
    ensures Zeros(PAYLOAD) == HeadPayload(0)
  {
    assert Le(0, 4) == [0] + Le(0, 3) == [0, 0] + Le(0, 2) == [0, 0, 0] + Le(0, 1) == [0, 0, 0, 0];
  }

  /** One more message of number |seen| + |queue| on a link. */
  lemma QueueGrows(seen: seq<seq<byte>>, c: nat, queue: seq<seq<byte>>, msg: nat -> seq<byte>, total: nat, m: seq<byte>)
    requires NodeInv(seen, c, queue, msg, total) && m == msg(total)
    ensures NodeInv(seen, c, queue + [m], msg, total + 1)
  {
  }

  /** The node takes the first message off its link. */
  lemma QueueShrinks(seen: seq<seq<byte>>, c: nat, queue: seq<seq<byte>>, msg: nat -> seq<byte>, total: nat)
    requires NodeInv(seen, c, queue, msg, total) && queue != []
    ensures queue[0] == msg(|seen|)
    ensures NodeInv(seen + [HeadPayload(|seen|)], Counter(|seen| + 1), queue[1..], msg, total)
  {
    assert queue[0] == msg(|seen| + 0);
    assert seen + [HeadPayload(|seen|)] == Payloads(|seen| + 1);
    forall k: nat | k < |queue[1..]| ensures queue[1..][k] == msg(|seen| + 1 + k) {
      assert queue[k + 1] == msg(|seen| + (k + 1));
    }
  }

  lemma KeepsHead(c: Config, w: World, w2: World)
    requires HeadInv(c, w)
    requires w2.next == w.next && w2.curIdx == w.curIdx && w2.buf == w.buf && w2.flushed == w.flushed && w2.sent == w.sent
    ensures HeadInv(c, w2)
  {
  }

  lemma ShipKeepsInv(c: Config, w: World)
    requires Inv(c, w) && !w.flushed && (w.curIdx == 1 || w.next == c.n)
    ensures ChainInv(c, Ship(c, w))
    ensures Ship(c, w).sent == Payloads(|w.sent| + 1)
  {
    assert w.buf == HeadPayload(|w.sent|);
    assert w.sent + [w.buf] == Payloads(|w.sent| + 1);
    QueueGrows(w.midSeen, w.midCnt, w.toMiddle, i => HeadMsg(c.attest, i), |w.sent|, Sign(c.attest, w.buf));
  }

  lemma HeadStepKeepsInv(c: Config, w: World, s: Step)
    requires Inv(c, w) && Enabled(c, w, s) && (s.Submit? || s.Flush?)
    ensures Inv(c, Do(c, w, s))
  {
    if s.Submit? { RequestMakesPayload(if w.next == 0 then 0 else w.next - 1, w.next); }
    if s.Flush? || w.curIdx == 1 { ShipKeepsInv(c, w); }
  }

  lemma MiddleKeepsInv(c: Config, w: World)
    requires Inv(c, w) && w.toMiddle != []
    ensures Inv(c, Do(c, w, Middle))
  {
    var seen := |w.midSeen|;
    QueueShrinks(w.midSeen, w.midCnt, w.toMiddle, i => HeadMsg(c.attest, i), |w.sent|);
    assert OnMiddle(c.attest, w.midCnt, w.toMiddle[0]) == Some((Counter(seen + 1), MiddleMsg(c.attest, seen)))
        && PlainOf(w.toMiddle[0]) == HeadPayload(seen) by { MiddleAccepts(c.attest, seen); }
    QueueGrows(w.tailSeen, w.tailCnt, w.toTail, i => MiddleMsg(c.attest, i), seen, MiddleMsg(c.attest, seen));
    KeepsHead(c, w, Do(c, w, Middle));
  }

  lemma TailKeepsInv(c: Config, w: World)
    requires Inv(c, w) && w.toTail != []
    ensures Inv(c, Do(c, w, Tail))
  {
    var seen := |w.tailSeen|;
    QueueShrinks(w.tailSeen, w.tailCnt, w.toTail, i => MiddleMsg(c.attest, i), |w.midSeen|);
    assert OnTail(c.attest, w.tailCnt, w.toTail[0]) == Some(Counter(seen + 1))
        && Innermost(c.attest, w.toTail[0]) == Some(HeadPayload(seen)) by { TailAccepts(c.attest, seen); }
    KeepsHead(c, w, Do(c, w, Tail));
  }

  lemma CommitCountedKeepsInv(c: Config, w: World)
    requires Inv(c, w) && w.toHead > 0
    ensures Inv(c, Do(c, w, Head))
  {
    KeepsHead(c, w, Do(c, w, Head));
  }

  lemma StepKeepsInv(c: Config, w: World, s: Step)
    requires Inv(c, w) && Enabled(c, w, s)
    ensures Inv(c, Do(c, w, s))
  {
    match s
    case Submit => HeadStepKeepsInv(c, w, s);
    case Flush => HeadStepKeepsInv(c, w, s);
    case Middle => MiddleKeepsInv(c, w);
    case Tail => TailKeepsInv(c, w);
    case Head => CommitCountedKeepsInv(c, w);
  }

  lemma {:induction false} ExecKeepsInv(c: Config, steps: seq<Step>)
    ensures Inv(c, Exec(c, steps))
    decreases |steps|
  {
    if steps == [] {
      ZeroBufferIsPayload();
    } else {
      ExecKeepsInv(c, steps[..|steps| - 1]);
      var w, s := Exec(c, steps[..|steps| - 1]), steps[|steps| - 1];
      if Enabled(c, w, s) { StepKeepsInv(c, w, s); }
    }
  }

  /** Prefix chain: what the tail accepted is a prefix of what the middle accepted, which is a
      prefix of what the head sent; every check succeeds; each counter is seen - 1 mod 2^32. */
  lemma PrefixChain(c: Config, steps: seq<Step>)
    ensures var w := Exec(c, steps);
            && w.ok
            && w.tailSeen <= w.midSeen <= w.sent == Payloads(|w.sent|)
            && w.midCnt == (|w.midSeen| + TWO32 - 1) % TWO32
            && w.tailCnt == (|w.tailSeen| + TWO32 - 1) % TWO32
            && w.nbCmts <= |w.tailSeen|
  {
    ExecKeepsInv(c, steps);
  }

  /** When every queue is empty after the flush, the head has counted N commits, so its waiting
      loop ends; only a run of no requests ships one message too many. */
  lemma QuiescentHead(c: Config, steps: seq<Step>)
    requires var w := Exec(c, steps); w.flushed && w.toMiddle == [] && w.toTail == [] && w.toHead == 0
    ensures Exec(c, steps).nbCmts == c.n <==> c.n >= 1
    ensures c.n >= 1 ==> Exec(c, steps).tailSeen == Payloads(c.n)
  {
    ExecKeepsInv(c, steps);
  }
}
