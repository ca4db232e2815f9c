/** The leader's `protocol_metadata` of `trusted-log/main.cc`, updated in place. */
module LogContext {
  import opened Bytes
  import opened AckFormat
  import TL = TrustedLog
  import opened LogChain
  import opened LogAudit

  datatype LogResult = Appended | Full | TooLong

  class ProtocolMetadata {
    const attest: Attest
    const tlog: TL.TrustedLog
    var witnessMeta: map<nat, nat>
    var lastStateCmt: nat

    ghost predicate Valid()
      reads tlog, tlog.memLog
    {
      tlog.Valid() && 0 < tlog.nbMaxEntries
    }

    ghost function View(): AuditState
      reads this
    {
      AuditState(witnessMeta, lastStateCmt)
    }

    /** The log holds 4 * reqs_num contexts' worth of bytes. */
    constructor (attest: Attest, reqsNum: nat)
      requires 0 < Capacity(reqsNum)
      ensures Valid() && fresh(tlog) && fresh(tlog.memLog)
      ensures this.attest == attest && tlog.nbMaxEntries == Capacity(reqsNum)
      ensures tlog.Contents() == [] && View() == Fresh
    {
      this.attest := attest;
      witnessMeta := map[1 := 0, 2 := 0];
      lastStateCmt := 0;
      tlog := new TL.TrustedLog(TL.CTX_SIZE * reqsNum * 4 / BATCH_COUNT);
    }

    /** Checks one link of the chain against a fresh copy of the previous entry. */
    method ValidateLogEntry(curIdx: nat) returns (ok: bool)
      requires Valid() && curIdx < tlog.curIdx
      ensures ok == LinkValid(attest, tlog.Contents(), curIdx)
    {
      if curIdx == 0 {
        return true;
      }
      var prev := tlog.SerializeEntry(curIdx - 1);
      var cur := tlog.SerializeEntry(curIdx);
      var from := TL.SEQ_SIZE + TL.CTX_SIZE;
      return attest(prev[..]) == cur[from..from + HASH_SIZE];
    }

    /** Links a new entry to the tail and appends it; refuses when full, exits when too long. */
    method Log(ctxData: seq<byte>, stale: seq<byte>, authenticator: Digest) returns (r: LogResult)
      requires Valid() && |stale| == TL.CTX_SIZE
      modifies tlog`curIdx, tlog`tail, tlog.memLog
      ensures Valid()
      ensures r.TooLong? <==> TL.CTX_SIZE < |ctxData|
      ensures r.TooLong? ==> tlog.Contents() == old(tlog.Contents())
      ensures !r.TooLong? ==>
                && tlog.Contents() == LogOne(attest, tlog.nbMaxEntries, old(tlog.Contents()), LogCall(ctxData, stale, authenticator))
                && (r.Appended? <==> |old(tlog.Contents())| < tlog.nbMaxEntries)
    {
      var tail := tlog.SerializeTail();
      var digest := attest(tail[..]);
      if |ctxData| > TL.CTX_SIZE {
        return TooLong;
      }
      var e := TL.LogEntry(tlog.curIdx, Overlay(ctxData, stale), digest, authenticator);
      var ok := tlog.Append(e);
      return if ok then Appended else Full;
    }

    /** One iteration of the audit loop.  The link is checked but its verdict is not used. */
    method AuditEntry(i: nat) returns (ok: bool)
      requires Valid() && i < tlog.curIdx
      modifies this
      ensures AuditOne(old(View()), tlog.Contents()[i]) == if ok then Some(View()) else None
    {
      var _ := ValidateLogEntry(i);
      var entry := tlog.SerializeEntry(i);
      var decoded := DecodeCtx(entry[TL.SEQ_SIZE..TL.SEQ_SIZE + TL.CTX_SIZE]);
      assert decoded == DecodeEntry(tlog.Contents()[i]);
      if decoded.None? {
        return false;
      }
      var v := decoded.value;
      witnessMeta := witnessMeta[v.sender := CounterOf(witnessMeta, v.sender) + BATCH_COUNT];
      if v.cmt != v.output || v.cmt != witnessMeta[v.sender] {
        return false;
      }
      lastStateCmt := lastStateCmt + 1;
      return true;
    }

    /** Audits the entries logged since the last audit; `ok` is false where the source exits. */
    method LogAudit() returns (ok: bool)
      requires Valid() && lastStateCmt <= tlog.curIdx
      modifies this
      ensures AuditSuffix(tlog.Contents(), old(View())) ==
              if ok then Live(tlog.Contents(), View()) else Exited(tlog.Contents())
    {
      var tailIdx := tlog.curIdx;
      if lastStateCmt == tailIdx {
        return true;
      }
      ghost var st, es := View(), tlog.Contents()[lastStateCmt..];
      for i := lastStateCmt to tailIdx
        invariant Audit(st, es[..i - st.last]) == Some(View())
      {
        AuditSnoc(st, es, i - st.last);
        ok := AuditEntry(i);
        if !ok {
          FailureSticks(st, es, i + 1 - st.last);
          return;
        }
      }
      assert es[..tailIdx - st.last] == es;
      return true;
    }
  }

  lemma AuditSnoc(st: AuditState, es: TL.Log, n: nat)
    requires n < |es|
    ensures Audit(st, es[..n + 1]) ==
            (match Audit(st, es[..n]) case None => None case Some(st2) => AuditOne(st2, es[n]))
  {
    assert es[..n + 1][..n] == es[..n];
  }

  function Capacity(reqsNum: nat): nat {
    TL.CTX_SIZE * reqsNum * 4 / BATCH_COUNT / TL.ENTRY_SIZE % TWO32
  }

  lemma FailureSticks(st: AuditState, es: TL.Log, n: nat)
    requires n <= |es| && Audit(st, es[..n]) == None
    ensures Audit(st, es) == None
  {
    assert es == es[..n] + es[n..];
    AuditSplits(st, es[..n], es[n..]);
  }
}
