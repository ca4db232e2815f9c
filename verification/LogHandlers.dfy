/** The two ends of a `trusted-log` proposal, as `trusted-log/main.cc` runs them in place; each
    method is one step of LogRun. */
module LogHandlers {
  import opened Bytes
  import opened AckFormat
  import TL = TrustedLog
  import opened LogChain
  import opened LogAudit
  import opened LogContext
  import opened LogRun

  lemma CountOne(n: nat)
    ensures (n % TWO32 + 1) % TWO32 == (n + 1) % TWO32
  {
  }

  class FollowerContext {
    const nodeId: nat
    const metadata: ProtocolMetadata
    var cmtIdx: nat

    constructor (nodeId: nat, metadata: ProtocolMetadata)
      requires nodeId < TWO32 && metadata.Valid()
      ensures Valid() && this.nodeId == nodeId && this.metadata == metadata && cmtIdx == 0
    {
      this.nodeId, this.metadata, cmtIdx := nodeId, metadata, 0;
    }

    ghost predicate Valid()
      reads this, metadata.tlog, metadata.tlog.memLog
    {
      metadata.Valid() && cmtIdx < TWO32 && nodeId < TWO32
    }

    /** Logs the batch, counts its messages one by one, and answers with the encoded ack and
        its MAC in a zeroed response; None where an oversized batch makes the source exit. */
    method ReqHandlerPrp(recv: seq<byte>, junk: seq<byte>, stale: seq<byte>) returns (resp: Option<seq<byte>>)
      requires Valid() && HASH_SIZE <= |recv| && |junk| == OUT_SIZE - 4 && |stale| == TL.CTX_SIZE
      modifies this, metadata.tlog`curIdx, metadata.tlog`tail, metadata.tlog.memLog
      ensures Valid()
      ensures resp.None? <==> TL.CTX_SIZE + HASH_SIZE < |recv|
      ensures resp.Some? ==>
                HandleProposal(metadata.attest, LogRun.Follower(old(cmtIdx), [|recv|], []), nodeId, junk)
                == LogRun.Follower(cmtIdx, [], [resp.value])
      ensures resp.Some? ==> cmtIdx == (old(cmtIdx) + (|recv| - 32) / 208) % TWO32
      ensures resp.Some? ==> MacOk(metadata.attest, resp.value) && ReadsAs(resp.value, cmtIdx, nodeId)
      ensures resp.Some? ==>
                LogOne(metadata.attest, metadata.tlog.nbMaxEntries, old(metadata.tlog.Contents()),
                       LogCall(recv[..|recv| - HASH_SIZE], stale, recv[|recv| - HASH_SIZE..]))
                == metadata.tlog.Contents()
    {
      var size := |recv| - HASH_SIZE;
      var logged := metadata.Log(recv[..size], stale, recv[size..]);
      if logged.TooLong? {
        return None;
      }
      ApplyBatch(size);
      var answer := Answer(junk);
      return Some(answer);
    }

    /** One `cmt_idx++` per whole message in the batch. */
    method ApplyBatch(size: nat)
      requires cmtIdx < TWO32
      modifies this
      ensures cmtIdx == (old(cmtIdx) + size / 208) % TWO32
    {
      var batchSz := size / K_MSG_SIZE;
      for i := 0 to batchSz
        invariant cmtIdx == (old(cmtIdx) + i) % TWO32
      {
        CountOne(old(cmtIdx) + i);
        cmtIdx := (cmtIdx + 1) % TWO32;
      }
    }

    /** Fills the response buffer and hands over its bytes. */
    method Answer(junk: seq<byte>) returns (answer: seq<byte>)
      requires |junk| == OUT_SIZE - 4 && cmtIdx < TWO32 && nodeId < TWO32
      ensures answer == Response(metadata.attest, cmtIdx, nodeId, junk)
      ensures MacOk(metadata.attest, answer) && ReadsAs(answer, cmtIdx, nodeId)
    {
      var ack := AckMsg(1, Le(cmtIdx, 4) + junk, cmtIdx, nodeId);
      var buf := Calloc(ACK_MSG_SIZE + HASH_SIZE);
      MemcpyAckIntoBuffer(ack, buf);
      ghost var body := Encode(ack) + Zeros(ACK_MSG_SIZE - ENCODED);
      assert buf[..ACK_MSG_SIZE] == body;
      var mac := metadata.attest(buf[..ACK_MSG_SIZE]);
      Memcpy(buf, ACK_MSG_SIZE, mac);
      answer := buf[..];
      assert answer == body + mac;
      ResponseMacOk(metadata.attest, cmtIdx, nodeId, junk);
      ResponseReadsAs(metadata.attest, cmtIdx, nodeId, junk);
    }
  }

  class LeaderContext {
    const metadata: ProtocolMetadata
    var curIdx: nat         // fill level of the batcher
    var countReplies: nat

    constructor (metadata: ProtocolMetadata)
      requires metadata.Valid()
      ensures Valid() && this.metadata == metadata && curIdx == countReplies == 0
    {
      this.metadata, curIdx, countReplies := metadata, 0, 0;
    }

    ghost predicate Valid()
      reads this, metadata.tlog, metadata.tlog.memLog
    {
      metadata.Valid() && curIdx <= BATCH_COUNT
    }

    ghost function View(): Leader
      requires Valid()
      reads this, metadata, metadata.tlog, metadata.tlog.memLog
    {
      Live(metadata.tlog.Contents(), metadata.View())
    }

    /** The system state s with the leader's parts taken from this object. */
    ghost function On(s: Sys): Sys
      requires Valid()
      reads this, metadata, metadata.tlog, metadata.tlog.memLog
    {
      s.(curIdx := curIdx, replies := countReplies, leader := View())
    }

    /** Buffers the request, or ships the full buffer to both followers first; then audits.
        `out` is the size of the buffer shipped; `ok` is false where the audit exits. */
    method SendReq(ghost c: Config, ghost s: Sys) returns (out: Option<nat>, ok: bool)
      requires Valid() && On(s) == s && Enabled(c, s, Submit) && metadata.lastStateCmt <= metadata.tlog.curIdx
      modifies this`curIdx, metadata
      ensures Valid()
      ensures old(curIdx) == 0 ==> out == None
      ensures old(curIdx) == 1 ==> out == Some(208 + 32)
      ensures curIdx == 1
      ensures ok <==> Do(c, s, Submit).leader.Live?
      ensures ok ==> Do(c, s, Submit) == (match out case None => On(s) case Some(sz) => Ship(On(s), sz)).(next := s.next + 1)
    {
      if curIdx < BATCH_COUNT {
        curIdx := curIdx + 1;
        out := None;
      } else {
        out := Some(K_MSG_SIZE * BATCH_COUNT + HASH_SIZE);
        curIdx := 0;
        curIdx := curIdx + 1;
      }
      ok := metadata.LogAudit();
    }

    /** `flash_batcher` ships what is buffered and leaves the buffer as it is. */
    method FlashBatcher(ghost c: Config, ghost s: Sys) returns (out: nat)
      requires Valid() && On(s) == s && Enabled(c, s, Flush)
      ensures out == 208 * curIdx + 32
      ensures Do(c, s, Flush) == Ship(s, out).(flushed := true)
    {
      out := K_MSG_SIZE * curIdx + HASH_SIZE;
    }

    /** `cont_func_prp`: the response without its MAC goes into the log. */
    method ContFuncPrp(response: seq<byte>, stale: seq<byte>)
      requires Valid() && |response| == ACK_MSG_SIZE + HASH_SIZE && |stale| == TL.CTX_SIZE
      modifies this`countReplies, metadata.tlog`curIdx, metadata.tlog`tail, metadata.tlog.memLog
      ensures Valid() && countReplies == old(countReplies) + 1
      ensures View() == Live(LogOne(metadata.attest, metadata.tlog.nbMaxEntries, old(metadata.tlog.Contents()),
                                    CallFor(response, stale)), old(metadata.View()))
    {
      var size := |response| - HASH_SIZE;
      var _ := metadata.Log(response[..size], stale, response[size..]);
      countReplies := countReplies + 1;
    }
  }
}
