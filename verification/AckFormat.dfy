/** The follower's ack of `trusted-log/msg_format.h`, written field by field and read back
    by the leader's audit at fixed offsets. */
module AckFormat {
  import opened Bytes

  const ACK_SIZE: nat := 1
  const OUT_SIZE: nat := 16
  const CMD_SIZE: nat := 16
  const ACK_MSG_SIZE: nat := 76   // sizeof(ack_msg), padding included
  const P_MSG_SIZE: nat := 132    // sizeof(p_msg)
  const K_MSG_SIZE: nat := P_MSG_SIZE + ACK_MSG_SIZE
  const ENCODED: nat := ACK_SIZE + OUT_SIZE + 4 + 4

  datatype AckMsg = AckMsg(ack: byte, output: seq<byte>, cmt: nat, sender: nat)

  predicate WellFormed(m: AckMsg) {
    |m.output| == OUT_SIZE && m.cmt < TWO32 && m.sender < TWO32
  }

  /** The bytes the encoder writes; the rest of the buffer keeps what it held. */
  function Encode(m: AckMsg): (b: seq<byte>)
    requires WellFormed(m)
    ensures |b| == ENCODED
  {
    [m.ack] + m.output + Le(m.cmt, 4) + Le(m.sender, 4)
  }

  method MemcpyAckIntoBuffer(m: AckMsg, buf: array<byte>)
    requires WellFormed(m) && ENCODED <= buf.Length
    modifies buf
    ensures buf[..] == Encode(m) + old(buf[ENCODED..])
    ensures buf[0] == m.ack && buf[1..17] == m.output && buf[17..21] == Le(m.cmt, 4) && buf[21..25] == Le(m.sender, 4)
  {
    var offset := 0;
    ghost var rest := buf[ENCODED..];
    Memcpy(buf, offset, [m.ack]);
    offset := offset + ACK_SIZE;
    Memcpy(buf, offset, m.output);
    assert buf[..offset + OUT_SIZE] == [m.ack] + m.output && buf[ENCODED..] == rest;
    offset := offset + OUT_SIZE;
    Memcpy(buf, offset, Le(m.cmt, 4));
    assert buf[..offset + 4] == [m.ack] + m.output + Le(m.cmt, 4) && buf[ENCODED..] == rest;
    offset := offset + 4;
    Memcpy(buf, offset, Le(m.sender, 4));
    assert buf[..] == buf[..ENCODED] + buf[ENCODED..];
  }

  /** What the audit reads out of a log entry's context. */
  datatype AckView = AckView(cmt: nat, output: nat, sender: nat)

  function GetAckVal(ctx: seq<byte>): bool
    requires ENCODED <= |ctx|
  {
    ctx[0] != 0
  }

  function GetOutput(ctx: seq<byte>): nat
    requires ENCODED <= |ctx|
  {
    FromLe(ctx[ACK_SIZE..ACK_SIZE + 4])
  }

  function GetCmt(ctx: seq<byte>): nat
    requires ENCODED <= |ctx|
  {
    FromLe(ctx[ACK_SIZE + OUT_SIZE..ACK_SIZE + OUT_SIZE + 4])
  }

  function GetSender(ctx: seq<byte>): nat
    requires ENCODED <= |ctx|
  {
    FromLe(ctx[ACK_SIZE + OUT_SIZE + 4..ENCODED])
  }

  const CMD_OFFSET: nat := ACK_SIZE + OUT_SIZE + 4 + HASH_SIZE

  /** `decode_print_ctx_leader`: None where the source calls exit. */
  function DecodeCtx(ctx: seq<byte>): Option<AckView>
    requires CMD_OFFSET + CMD_SIZE <= |ctx|
  {
    if !GetAckVal(ctx) then None
    else if ctx[CMD_OFFSET..CMD_OFFSET + CMD_SIZE] != Zeros(CMD_SIZE) then None
    else Some(AckView(GetCmt(ctx), GetOutput(ctx), GetSender(ctx)))
  }

  /** The audit reads back what the encoder wrote, whatever follows, and accepts the
      context exactly when the ack is true and the command bytes are zero. */
  lemma DecodeReadsEncode(m: AckMsg, rest: seq<byte>)
    requires WellFormed(m) && CMD_OFFSET + CMD_SIZE <= ENCODED + |rest|
    ensures DecodeCtx(Encode(m) + rest) ==
            if m.ack != 0 && rest[CMD_OFFSET - ENCODED..CMD_OFFSET - ENCODED + CMD_SIZE] == Zeros(CMD_SIZE)
            then Some(AckView(m.cmt, FromLe(m.output[..4]), m.sender)) else None
  {
    var c := Encode(m) + rest;
    assert c[CMD_OFFSET..CMD_OFFSET + CMD_SIZE] == rest[CMD_OFFSET - ENCODED..CMD_OFFSET - ENCODED + CMD_SIZE];
    assert c[ACK_SIZE..ACK_SIZE + 4] == m.output[..4];
    assert c[ACK_SIZE + OUT_SIZE..ACK_SIZE + OUT_SIZE + 4] == Le(m.cmt, 4);
    assert c[ACK_SIZE + OUT_SIZE + 4..ENCODED] == Le(m.sender, 4);
    Le32RoundTrip(m.cmt);
    Le32RoundTrip(m.sender);
  }

  /** Only the first bytes matter: a context may be followed by anything. */
  lemma DecodeIgnoresSuffix(ctx: seq<byte>, more: seq<byte>)
    requires CMD_OFFSET + CMD_SIZE <= |ctx|
    ensures DecodeCtx(ctx + more) == DecodeCtx(ctx)
  {
    var c := ctx + more;
    assert c[CMD_OFFSET..CMD_OFFSET + CMD_SIZE] == ctx[CMD_OFFSET..CMD_OFFSET + CMD_SIZE];
    assert c[ACK_SIZE..ACK_SIZE + 4] == ctx[ACK_SIZE..ACK_SIZE + 4];
    assert c[ACK_SIZE + OUT_SIZE..ACK_SIZE + OUT_SIZE + 4] == ctx[ACK_SIZE + OUT_SIZE..ACK_SIZE + OUT_SIZE + 4];
    assert c[ACK_SIZE + OUT_SIZE + 4..ENCODED] == ctx[ACK_SIZE + OUT_SIZE + 4..ENCODED];
  }
}
