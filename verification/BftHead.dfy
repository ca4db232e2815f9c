/** The head of the chain in `bft-cr/main.cc`, in place; each method is one step of BftRun. */
module BftHead {
  import opened Bytes
  import opened SignedMsg
  import opened BftProto
  import opened BftRun

  class HeadContext {
    const attest: Attest
    const batcher: MsgManager
    var nbCmts: nat

    constructor (attest: Attest)
      ensures Valid() && fresh(batcher) && fresh(batcher.buffer)
      ensures this.attest == attest && On(Start) == Start
    {
      this.attest := attest;
      batcher := new MsgManager();
      nbCmts := 0;
    }

    ghost predicate Valid()
      reads batcher
    {
      batcher.Valid()
    }

    /** The world w with the head's parts taken from this object. */
    ghost function On(w: World): World
      reads this, batcher, batcher.buffer
    {
      w.(curIdx := batcher.curIdx, buf := batcher.buffer[..], nbCmts := nbCmts)
    }

    /** Buffers the request's message, signing and sending the full buffer first if need be. */
    method SendReq(ghost c: Config, ghost w: World, idx: nat, m: seq<byte>) returns (out: Option<seq<byte>>)
      requires Valid() && c.attest == attest && On(w) == w && Enabled(c, w, Submit) && idx == w.next && |m| == MSG
      modifies batcher`curIdx, batcher.buffer
      ensures Valid()
      ensures out.Some? ==> out.value == Sign(attest, w.buf)
      ensures Do(c, w, Submit) == On(if out.None? then w else Ship(c, w)).(next := w.next + 1)
    {
      out := None;
      var msg := ConstructMsg(0, idx % TWO32, m);
      assert msg[..] == Request(idx);
      var ok := batcher.EnqueueReq(msg[..]);
      if !ok {
        var signed := batcher.Attestation(attest);
        out := Some(signed[..]);
        batcher.EmptyBuff();
        ok := batcher.EnqueueReq(msg[..]);
      }
    }

    method FlashBatcher(ghost c: Config, ghost w: World) returns (out: seq<byte>)
      requires Valid() && c.attest == attest && On(w) == w && Enabled(c, w, BftRun.Flush)
      ensures Do(c, w, BftRun.Flush) == w.(toMiddle := w.toMiddle + [out], sent := w.sent + [w.buf], flushed := true)
    {
      var signed := batcher.Attestation(attest);
      out := signed[..];
    }

    /** `req_handler_cmt`. */
    method ReqHandlerCmt(ghost c: Config, ghost w: World)
      requires c.attest == attest && On(w) == w && Enabled(c, w, BftRun.Head)
      modifies this`nbCmts
      ensures Do(c, w, BftRun.Head) == On(w).(toHead := w.toHead - 1)
    {
      nbCmts := nbCmts + 1;
    }
  }
}
