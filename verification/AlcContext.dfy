/** The objects of one ALC node, updated in place as the C++ does, each method proved
    against the functions of AlcNode. */
module AlcContext {
  import opened AlcNode

  /** `msg_manager` of `alc/msg.h`: fill level, round counter and the round id in the buffer. */
  class MsgManager {
    var curIdx: nat
    var count: nat
    var header: nat

    constructor ()
      ensures curIdx == count == header == 0
    {
      curIdx, count, header := 0, 0, 0;
    }

    method EnqueueReq() returns (ok: bool)
      modifies this`curIdx
      ensures ok <==> old(curIdx) < BATCH_COUNT
      ensures curIdx == if ok then old(curIdx) + 1 else old(curIdx)
    {
      ok := curIdx < BATCH_COUNT;
      if ok { curIdx := curIdx + 1; }
    }

    method EmptyBuff()
      modifies this
      ensures curIdx == 0 && count == header == old(count) + 1
    {
      curIdx := 0;
      count := count + 1;
      header := count;
    }
  }

  class ProtocolMetadata {
    var cmtRd: LastRound
    var curRd: int
    var protoMeta: Rounds

    constructor ()
      ensures cmtRd == -1 && curRd == 0 && protoMeta == map[]
    {
      cmtRd, curRd, protoMeta := -1, 0, map[];
    }

    /** Looks the round up unchecked, as the source does. */
    method CanCommit(cnsRd: nat) returns (ok: bool)
      requires cnsRd in protoMeta
      modifies this`protoMeta
      ensures ok == AlcNode.CanCommit(old(protoMeta), cnsRd)
      ensures protoMeta == MarkCommit(old(protoMeta), cnsRd)
    {
      if protoMeta[cnsRd].nbAcks == TOT_ACKS {
        if protoMeta[cnsRd].underCommit {
          return false;
        }
        protoMeta := protoMeta[cnsRd := protoMeta[cnsRd].(underCommit := true)];
        return true;
      }
      return false;
    }

    method IsRoundCompleted() returns (done: bool)
      modifies this`cmtRd, this`protoMeta
      ensures done <==> Complete(old(protoMeta), old(cmtRd) + 1)
      ensures done ==> cmtRd == old(cmtRd) + 1 && protoMeta == old(protoMeta) - {old(cmtRd) + 1}
      ensures !done ==> cmtRd == old(cmtRd) && protoMeta == old(protoMeta)
    {
      if cmtRd + 1 !in protoMeta {
        return false;
      }
      if protoMeta[cmtRd + 1].nbCmts == TOT_ACKS {
        protoMeta := protoMeta - {cmtRd + 1};
        cmtRd := cmtRd + 1;
        return true;
      }
      return false;
    }

    method AddRecvReq(sender: nat, rd: nat)
      modifies this`protoMeta
      ensures protoMeta == AlcNode.AddRecvReq(old(protoMeta), sender, rd)
    {
      if rd !in protoMeta {
        protoMeta := protoMeta[rd := Metadata(0, 0, false, {sender})];
      } else {
        protoMeta := protoMeta[rd := protoMeta[rd].(senders := protoMeta[rd].senders + {sender})];
      }
    }

    /** Erases exactly the longest run of complete rounds from `cmt_rd + 1` up to `cur_rd`. */
    method CommitCompletedRds()
      modifies this`cmtRd, this`protoMeta
      ensures MaximalDrain(old(cmtRd), curRd, old(protoMeta), cmtRd, protoMeta)
    {
      while cmtRd < curRd
        invariant Drain(cmtRd, curRd, protoMeta) == Drain(old(cmtRd), curRd, old(protoMeta))
        decreases curRd - cmtRd
      {
        var done := IsRoundCompleted();
        if !done {
          DrainIsMaximal(old(cmtRd), curRd, old(protoMeta));
          return;
        }
      }
      DrainIsMaximal(old(cmtRd), curRd, old(protoMeta));
    }
  }

  class AppContext {
    const nodeId: nat
    const followers: seq<nat>
    const batcher: MsgManager
    const metadata: ProtocolMetadata

    constructor (id: nat)
      ensures Valid() && fresh(batcher) && fresh(metadata)
      ensures View() == InitNode(id)
    {
      nodeId := id;
      followers := Followers(id);
      batcher := new MsgManager();
      metadata := new ProtocolMetadata();
    }

    ghost predicate Valid() { followers == Followers(nodeId) }

    ghost function View(): Node
      reads batcher, metadata
    {
      Node(nodeId, metadata.cmtRd, metadata.curRd, metadata.protoMeta,
           batcher.curIdx, batcher.count, batcher.header)
    }

    /** The sending loops: one message to every follower. */
    method ToFollowers(kind: Kind, rd: nat) returns (out: seq<Msg>)
      requires Valid()
      ensures out == Broadcast(kind, nodeId, rd)
    {
      out := [];
      for k := 0 to |followers|
        invariant out == Broadcast(kind, nodeId, rd)[..k]
      {
        out := out + [Msg(kind, nodeId, followers[k], rd)];
      }
    }

    method SendReq() returns (out: seq<Msg>)
      requires Valid()
      modifies batcher, metadata
      ensures (View(), out) == AlcNode.SendReq(old(View()))
    {
      out := [];
      var ok := batcher.EnqueueReq();
      if !ok {
        out := ToFollowers(Req, batcher.header);
        metadata.AddRecvReq(nodeId, batcher.count);
        metadata.curRd := batcher.count;
        batcher.EmptyBuff();
        ok := batcher.EnqueueReq();
      }
    }

    method FlashBatcher() returns (out: seq<Msg>)
      requires Valid()
      modifies batcher, metadata
      ensures (View(), out) == AlcNode.FlashBatcher(old(View()))
    {
      out := ToFollowers(Req, batcher.header);
      metadata.AddRecvReq(nodeId, batcher.count);
      metadata.curRd := batcher.count;
      metadata.protoMeta := BumpAcks(metadata.protoMeta, batcher.count);
      batcher.EmptyBuff();
    }

    /** `can_commit` followed, when it says so, by `send_cmt`. */
    method TryCommit(rd: nat) returns (out: seq<Msg>)
      requires Valid() && rd in metadata.protoMeta
      modifies metadata`protoMeta
      ensures metadata.protoMeta == MarkCommit(old(metadata.protoMeta), rd)
      ensures out == CommitOut(old(View()), old(metadata.protoMeta), rd)
    {
      out := [];
      var ok := metadata.CanCommit(rd);
      if ok { out := ToFollowers(Cmt, rd); }
    }

    method ReqHandlerSend(src: nat, rd: nat) returns (out: seq<Msg>)
      requires Valid()
      modifies metadata
      ensures Next(View(), out) == OnReq(old(View()), src, rd)
    {
      metadata.AddRecvReq(0, rd);
      metadata.protoMeta := BumpAcks(metadata.protoMeta, rd);
      var commits := TryCommit(rd);
      out := [Msg(Ack, nodeId, src, rd)] + commits;
    }

    method ContFuncSend(rd: nat) returns (out: seq<Msg>)
      requires Valid() && rd in metadata.protoMeta
      modifies metadata
      ensures Next(View(), out) == OnAck(old(View()), rd)
    {
      metadata.protoMeta := BumpAcks(metadata.protoMeta, rd);
      out := TryCommit(rd);
    }

    /** The counting and draining shared by both commit handlers. */
    method CountCmt(rd: nat)
      requires rd in metadata.protoMeta
      modifies metadata
      ensures View() == AlcNode.CountCmt(old(View()), rd)
    {
      metadata.protoMeta := BumpCmts(metadata.protoMeta, rd);
      ghost var c, cur, ms := metadata.cmtRd, metadata.curRd, metadata.protoMeta;
      metadata.CommitCompletedRds();
      DrainIsTheOnlyMaximal(c, cur, ms, metadata.cmtRd, metadata.protoMeta);
    }

    method ReqHandlerCmt(src: nat, rd: nat) returns (out: seq<Msg>)
      requires rd in metadata.protoMeta
      modifies metadata
      ensures Next(View(), out) == OnCmt(old(View()), src, rd)
    {
      CountCmt(rd);
      out := [Msg(CmtAck, nodeId, src, rd)];
    }

    method ContFuncCmt(rd: nat)
      requires rd in metadata.protoMeta
      modifies metadata
      ensures Next(View(), []) == OnCmtAck(old(View()), rd)
    {
      CountCmt(rd);
    }

    /** The event loop hands one message to its handler. */
    method Deliver(m: Msg) returns (out: seq<Msg>)
      requires Valid() && Handle(View(), m).Next?
      modifies metadata
      ensures Next(View(), out) == Handle(old(View()), m)
    {
      match m.kind {
        case Req => out := ReqHandlerSend(m.src, m.rd);
        case Ack => out := ContFuncSend(m.rd);
        case Cmt => out := ReqHandlerCmt(m.src, m.rd);
        case CmtAck => ContFuncCmt(m.rd); out := [];
      }
    }
  }
}
