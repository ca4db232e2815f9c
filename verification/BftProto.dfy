/** The messages of `bft-cr`: the head's payload, the middle's envelope around it, and the
    checks that middle and tail make. */
module BftProto {
  import opened Bytes
  import opened SignedMsg

  const MSG: nat := 64                          // sizeof(msg)
  const CMT: nat := 4                           // sizeof(uint32_t)
  const PAYLOAD: nat := MSG + MSG + CMT + 2 * MSG
  const OUTPUT: nat := MSG + CMT                // what the middle copies out of the payload
  const MIDDLE: nat := 1
  const TAIL: nat := 2

  /** The head's payload number i: zeroed request and action, the index, zeroed outputs. */
  function HeadPayload(i: nat): (p: seq<byte>)
    ensures |p| == PAYLOAD
  {
    Zeros(2 * MSG) + Le(i % TWO32, CMT) + Zeros(2 * MSG)
  }

  function HeadMsg(attest: Attest, i: nat): seq<byte> { Sign(attest, HeadPayload(i)) }

  function MiddleMsg(attest: Attest, i: nat): seq<byte> {
    Sign(attest, HeadMsg(attest, i) + HeadPayload(i)[..OUTPUT])
  }

  /** `construct_msg`: only the index and `node_id` copies of the message are written. */
  method ConstructMsg(nodeId: nat, seqIdx: nat, m: seq<byte>) returns (buf: array<byte>)
    requires |m| == MSG
    ensures fresh(buf) && buf.Length == 2 * MSG + CMT + nodeId * MSG
    ensures buf[..2 * MSG + CMT] == Zeros(2 * MSG) + Le(seqIdx, CMT)
    ensures forall k: nat :: k < nodeId ==> buf[2 * MSG + CMT + k * MSG..2 * MSG + CMT + (k + 1) * MSG] == m
  {
    buf := Calloc(2 * MSG + CMT + nodeId * MSG);
    Memcpy(buf, 2 * MSG, Le(seqIdx, CMT));
    var offset := 2 * MSG + CMT;
    for i := 0 to nodeId
      invariant offset == 2 * MSG + CMT + i * MSG
      invariant buf[..2 * MSG + CMT] == Zeros(2 * MSG) + Le(seqIdx, CMT)
      invariant forall k: nat :: k < i ==> buf[2 * MSG + CMT + k * MSG..2 * MSG + CMT + (k + 1) * MSG] == m
    {
      ghost var before := buf[..];
      Memcpy(buf, offset, m);
      forall k: nat | k < i + 1
        ensures buf[2 * MSG + CMT + k * MSG..2 * MSG + CMT + (k + 1) * MSG] == m
      {
        if k < i {
          assert buf[2 * MSG + CMT + k * MSG..2 * MSG + CMT + (k + 1) * MSG]
              == before[2 * MSG + CMT + k * MSG..2 * MSG + CMT + (k + 1) * MSG];
        }
      }
      offset := offset + MSG;
    }
  }

  /** `msg_manager` with `batch_count` 1: one payload-sized, zeroed buffer. */
  class MsgManager {
    const buffer: array<byte>
    var curIdx: nat

    constructor ()
      ensures Valid() && curIdx == 0 && buffer[..] == Zeros(PAYLOAD) && fresh(buffer)
    {
      var b := Calloc(PAYLOAD);
      buffer := b;
      curIdx := 0;
    }

    ghost predicate Valid()
      reads this
    {
      buffer.Length == PAYLOAD && curIdx <= 1
    }

    method EnqueueReq(buf: seq<byte>) returns (ok: bool)
      requires Valid() && |buf| <= PAYLOAD
      modifies this`curIdx, buffer
      ensures Valid() && curIdx == 1
      ensures ok <==> old(curIdx) == 0
      ensures buffer[..] == if ok then Splice(old(buffer[..]), 0, buf) else old(buffer[..])
    {
      if curIdx < 1 {
        Memcpy(buffer, curIdx * PAYLOAD, buf);
        curIdx := curIdx + 1;
        return true;
      }
      return false;
    }

    /** Signs the whole buffer, whatever its fill level. */
    method Attestation(attest: Attest) returns (msg: array<byte>)
      requires Valid()
      ensures fresh(msg) && msg[..] == Sign(attest, buffer[..])
    {
      msg := Calloc(HASH_SIZE + 8 + PAYLOAD);
      var ok := SignMsg(attest, buffer[..], msg);
      assert msg[..] == Sign(attest, buffer[..]) + [];
    }

    method EmptyBuff()
      requires Valid()
      modifies this`curIdx
      ensures Valid() && curIdx == 0
    {
      curIdx := 0;
    }
  }

  /** `check_leader` on the payload with counter c: the verdict and the new counter. */
  function LeaderVerdict(p: seq<byte>, c: nat): (bool, nat)
    requires 2 * MSG + CMT <= |p|
  {
    if p[..MSG] != p[MSG..2 * MSG] then (false, c)
    else
      var c2 := (c + 1) % TWO32;
      (FromLe(p[2 * MSG..2 * MSG + CMT]) == c2, c2)
  }

  class State {
    var cmtIdx: nat

    /** `proto_func` sets the unsigned counter to -1. */
    constructor ()
      ensures cmtIdx == TWO32 - 1
    {
      cmtIdx := TWO32 - 1;
    }

    method CheckLeader(ptr: array<byte>) returns (ok: bool)
      requires 2 * MSG + CMT <= ptr.Length
      modifies this
      ensures (ok, cmtIdx) == LeaderVerdict(old(ptr[..]), old(cmtIdx))
      ensures cmtIdx == if ptr[..64] == ptr[64..128] then (old(cmtIdx) + 1) % TWO32 else old(cmtIdx)
      ensures ok <==> ptr[..64] == ptr[64..128] && FromLe(ptr[128..132]) == cmtIdx
    {
      var creq := ptr[..MSG];
      var output := ptr[MSG..2 * MSG];
      if creq != output {
        return false;
      }
      cmtIdx := (cmtIdx + 1) % TWO32;
      var c := FromLe(ptr[2 * MSG..2 * MSG + CMT]);
      return c == cmtIdx;
    }
  }

  /** Every earlier node's output equals the leader's. */
  predicate OutputsAgree(p: seq<byte>, nodeId: nat)
    requires 2 * MSG + CMT + nodeId * MSG <= |p|
  {
    forall i: nat :: 1 <= i < nodeId ==>
      p[2 * MSG + CMT + (i - 1) * MSG..2 * MSG + CMT + i * MSG] == p[MSG..2 * MSG]
  }

  method CheckOutputs(ptr: array<byte>, nodeId: nat) returns (ok: bool)
    requires 2 * MSG + CMT + nodeId * MSG <= ptr.Length
    ensures ok <==> OutputsAgree(ptr[..], nodeId)
  {
    ghost var p := ptr[..];
    var creq := ptr[MSG..2 * MSG];
    var offset := MSG;
    offset := offset + MSG + CMT;
    var i := 1;
    while i < nodeId
      invariant 1 <= i && offset == 2 * MSG + CMT + (i - 1) * MSG
      invariant nodeId >= 1 ==> i <= nodeId
      invariant forall k: nat :: 1 <= k < i && k < nodeId ==>
                  p[2 * MSG + CMT + (k - 1) * MSG..2 * MSG + CMT + k * MSG] == p[MSG..2 * MSG]
    {
      var output := ptr[offset..offset + MSG];
      assert output == p[2 * MSG + CMT + (i - 1) * MSG..2 * MSG + CMT + i * MSG];
      if creq != output {
        return false;
      }
      offset := offset + MSG;
      i := i + 1;
    }
    return true;
  }

  /** `construct_msg_middle`: the head's envelope and the payload's first bytes, signed. */
  method ConstructMsgMiddle(attest: Attest, leaderMsg: seq<byte>, payload: seq<byte>) returns (msg: array<byte>)
    requires OUTPUT <= |payload|
    ensures fresh(msg) && msg.Length == |leaderMsg| + HASH_SIZE + 8 + OUTPUT
    ensures msg[..] == Sign(attest, leaderMsg + payload[..OUTPUT])
  {
    var allocSz := HASH_SIZE + 8 + MSG + CMT;
    msg := Calloc(|leaderMsg| + allocSz);
    var data := Calloc(|leaderMsg| + MSG + CMT);
    Memcpy(data, 0, leaderMsg);
    Memcpy(data, |leaderMsg|, payload[..OUTPUT]);
    assert data[..] == leaderMsg + payload[..OUTPUT];
    var ok := SignMsg(attest, data[..], msg);
    assert msg[..] == Sign(attest, data[..]) + [];
  }

  // ----- the two forwarding handlers -----

  /** `req_handler_fw` at the middle: the new counter and the message for the tail, or None
      when a check fails (the source reports it and goes on with undefined data). */
  function OnMiddle(attest: Attest, c: nat, msg: seq<byte>): Option<(nat, seq<byte>)> {
    if !Accepts(attest, msg) || |PlainOf(msg)| < 2 * MSG + CMT then None
    else
      var (ok, c2) := LeaderVerdict(PlainOf(msg), c);
      if ok then Some((c2, Sign(attest, msg + PlainOf(msg)[..OUTPUT]))) else None
  }

  lemma OnMiddleIs(attest: Attest, c: nat, msg: seq<byte>, p: seq<byte>, c2: nat)
    requires Accepts(attest, msg) && PlainOf(msg) == p && 2 * MSG + CMT <= |p| && LeaderVerdict(p, c) == (true, c2)
    ensures OnMiddle(attest, c, msg) == Some((c2, Sign(attest, msg + p[..OUTPUT])))
  {
  }

  /** The head's payload as the tail reaches it, through two envelopes. */
  function Innermost(attest: Attest, msg: seq<byte>): Option<seq<byte>> {
    if Accepts(attest, msg) && Accepts(attest, PlainOf(msg)) then Some(PlainOf(PlainOf(msg))) else None
  }

  /** `req_handler_fw` at the tail, with `verify_execution_tail`. */
  function OnTail(attest: Attest, c: nat, msg: seq<byte>): Option<nat> {
    match Innermost(attest, msg)
    case None => None
    case Some(p) =>
      if |p| < 2 * MSG + CMT + TAIL * MSG then None
      else
        var (ok, c2) := LeaderVerdict(p, c);
        if ok && OutputsAgree(p, TAIL) then Some(c2) else None
  }

  lemma OnTailIs(attest: Attest, c: nat, msg: seq<byte>, p: seq<byte>, c2: nat)
    requires Innermost(attest, msg) == Some(p) && 2 * MSG + CMT + TAIL * MSG <= |p|
    requires LeaderVerdict(p, c) == (true, c2) && OutputsAgree(p, TAIL)
    ensures OnTail(attest, c, msg) == Some(c2)
  {
  }

  class NodeContext {
    const attest: Attest
    const st: State

    constructor (attest: Attest)
      ensures this.attest == attest && fresh(st) && st.cmtIdx == TWO32 - 1
    {
      this.attest := attest;
      st := new State();
    }

    method MiddleHandler(msg: seq<byte>) returns (fwd: array<byte>)
      requires OnMiddle(attest, st.cmtIdx, msg).Some?
      modifies st
      ensures Some((st.cmtIdx, fwd[..])) == OnMiddle(attest, old(st.cmtIdx), msg)
    {
      var size, payload := VerifyGetMsg(attest, msg);
      var ok := st.CheckLeader(payload);
      fwd := ConstructMsgMiddle(attest, msg, payload[..]);
    }

    method VerifyExecutionTail(data: seq<byte>) returns (ok: bool)
      requires Accepts(attest, data) && 2 * MSG + CMT + TAIL * MSG <= |PlainOf(data)|
      modifies st
      ensures var v := LeaderVerdict(PlainOf(data), old(st.cmtIdx));
              st.cmtIdx == v.1 && (ok <==> v.0 && OutputsAgree(PlainOf(data), TAIL))
    {
      var size, inner := VerifyGetMsg(attest, data);
      ok := st.CheckLeader(inner);
      if !ok {
        return false;
      }
      ok := CheckOutputs(inner, TAIL);
    }

    method TailHandler(msg: seq<byte>) returns (ok: bool)
      requires OnTail(attest, st.cmtIdx, msg).Some?
      modifies st
      ensures ok && Some(st.cmtIdx) == OnTail(attest, old(st.cmtIdx), msg)
    {
      var size, payload := VerifyGetMsg(attest, msg);
      ok := VerifyExecutionTail(payload[..]);
    }
  }

  // ----- the envelopes of an honest run -----

  /** The middle unwraps the head's message to the payload the head signed. */
  lemma HeadMsgUnwraps(attest: Attest, i: nat, more: seq<byte>)
    ensures Accepts(attest, HeadMsg(attest, i) + more) && PlainOf(HeadMsg(attest, i) + more) == HeadPayload(i)
  {
    SignedUnwraps(attest, HeadPayload(i), more);
  }

  /** Two unwraps of the middle's message give back the head's payload. */
  lemma MiddleMsgUnwraps(attest: Attest, i: nat)
    ensures Accepts(attest, MiddleMsg(attest, i))
    ensures var inner := PlainOf(MiddleMsg(attest, i));
            Accepts(attest, inner) && PlainOf(inner) == HeadPayload(i)
    ensures PlainOf(MiddleMsg(attest, i)) == HeadMsg(attest, i) + HeadPayload(i)[..68]
    ensures Unwrap(attest, MiddleMsg(attest, i), 2) == Some(HeadPayload(i))
  {
    var out := HeadPayload(i)[..OUTPUT];
    var inner := HeadMsg(attest, i) + out;
    SignedUnwraps(attest, inner, []);
    assert MiddleMsg(attest, i) + [] == MiddleMsg(attest, i);
    HeadMsgUnwraps(attest, i, out);
    assert Unwrap(attest, inner, 1) == Some(HeadPayload(i));
  }

  lemma HonestFields(i: nat)
    ensures var p := HeadPayload(i);
            && p[..MSG] == p[MSG..2 * MSG] == p[2 * MSG + CMT..2 * MSG + CMT + MSG] == Zeros(MSG)
            && FromLe(p[2 * MSG..2 * MSG + CMT]) == i % TWO32
  {
    var p := HeadPayload(i);
    assert p[2 * MSG..2 * MSG + CMT] == Le(i % TWO32, CMT);
    Le32RoundTrip(i % TWO32);
  }

  /** A node's 32-bit counter after `seen` messages; it starts at -1. */
  function Counter(seen: nat): nat { (TWO32 - 1 + seen) % TWO32 }

  lemma CounterSteps(i: nat)
    ensures (Counter(i) + 1) % TWO32 == i % TWO32 == Counter(i + 1)
  {
  }

  /** The honest payload passes both checks, and moves the counter on by one. */
  lemma HonestPayloadPasses(i: nat)
    ensures LeaderVerdict(HeadPayload(i), Counter(i)) == (true, Counter(i + 1))
    ensures OutputsAgree(HeadPayload(i), TAIL)
  {
    HonestFields(i);
    CounterSteps(i);
  }

  /** A payload passes the leader check exactly at its own turn: a replayed, skipped or early
      one fails it, and moves the counter on all the same. */
  lemma PassesOnlyAtItsTurn(i: nat, j: nat)
    ensures LeaderVerdict(HeadPayload(i), Counter(j)).0 <==> i % TWO32 == j % TWO32
    ensures LeaderVerdict(HeadPayload(i), Counter(j)).1 == Counter(j + 1)
  {
    HonestFields(i);
    CounterSteps(j);
  }

  /** A payload whose action or whose middle output was changed fails its check. */
  lemma ChangedPayloadFails(i: nat, c: nat, m: seq<byte>)
    requires |m| == MSG
    ensures LeaderVerdict(Splice(HeadPayload(i), MSG, m), c).0 ==> m == Zeros(MSG)
    ensures m != Zeros(MSG) ==> LeaderVerdict(Splice(HeadPayload(i), MSG, m), c).1 == c
    ensures OutputsAgree(Splice(HeadPayload(i), 2 * MSG + CMT, m), TAIL) <==> m == Zeros(MSG)
  {
    HonestFields(i);
    var p, q := Splice(HeadPayload(i), MSG, m), Splice(HeadPayload(i), 2 * MSG + CMT, m);
    assert p[..MSG] == HeadPayload(i)[..MSG] && p[MSG..2 * MSG] == m;
    assert q[MSG..2 * MSG] == HeadPayload(i)[MSG..2 * MSG];
    var k: nat := 1;
    assert q[2 * MSG + CMT + (k - 1) * MSG..2 * MSG + CMT + k * MSG] == m;
  }

  /** The middle accepts the head's message number i exactly at its turn. */
  lemma MiddleTurn(attest: Attest, i: nat, j: nat)
    ensures OnMiddle(attest, Counter(j), HeadMsg(attest, i)).Some? <==> i % TWO32 == j % TWO32
  {
    assert HeadMsg(attest, i) + [] == HeadMsg(attest, i);
    HeadMsgUnwraps(attest, i, []);
    PassesOnlyAtItsTurn(i, j);
  }

  /** The tail accepts the middle's message number i exactly at its turn. */
  lemma TailTurn(attest: Attest, i: nat, j: nat)
    ensures OnTail(attest, Counter(j), MiddleMsg(attest, i)).Some? <==> i % TWO32 == j % TWO32
  {
    MiddleMsgUnwraps(attest, i);
    PassesOnlyAtItsTurn(i, j);
    HonestPayloadPasses(i);
  }

  /** A payload whose middle output was changed fails at the tail, however well it was signed. */
  lemma TailSeesChangedOutput(attest: Attest, i: nat, c: nat, m: seq<byte>, out: seq<byte>)
    requires |m| == MSG && m != Zeros(MSG) && HEADER + PAYLOAD + |out| < TWO64
    ensures OnTail(attest, c, Sign(attest, Sign(attest, Splice(HeadPayload(i), 2 * MSG + CMT, m)) + out)) == None
  {
    var q := Splice(HeadPayload(i), 2 * MSG + CMT, m);
    var inner := Sign(attest, q) + out;
    SignedUnwraps(attest, q, out);
    SignedUnwraps(attest, inner, []);
    assert Sign(attest, inner) + [] == Sign(attest, inner);
    ChangedPayloadFails(i, c, m);
  }
}
