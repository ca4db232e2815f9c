/** The leader's two ack maps in `rf`, updated in place. */
module RfContext {
  import opened RfProtocol

  class ProtocolMetadata {
    var prpAcks: AckMap
    var cmtAcks: AckMap

    constructor ()
      ensures prpAcks == map[] && cmtAcks == map[]
    {
      prpAcks, cmtAcks := map[], map[];
    }

    ghost function On(l: Leader): Leader
      reads this
    {
      l.(prpAcks := prpAcks, cmtAcks := cmtAcks)
    }

    method UpdatePrpAcks(idx: int) returns (second: bool)
      modifies this`prpAcks
      ensures second <==> idx in old(prpAcks)
      ensures forall l :: (On(l), second) == RfProtocol.UpdatePrpAcks(old(On(l)), idx)
    {
      if idx !in prpAcks {
        prpAcks := prpAcks[idx := 1];
        return false;
      } else {
        prpAcks := prpAcks - {idx};
        return true;
      }
    }

    method UpdateCmtAcks(idx: int) returns (second: bool)
      modifies this
      ensures second <==> idx in old(cmtAcks)
      ensures forall l :: (On(l), second) == RfProtocol.UpdateCmtAcks(old(On(l)), idx)
    {
      if idx !in cmtAcks {
        cmtAcks := cmtAcks[idx := 1];
        return false;
      } else {
        prpAcks := prpAcks - {idx};
        return true;
      }
    }

    /** `cont_func_prp`: the second ack broadcasts the commit. */
    method ContFuncPrp(eIdx: int, followers: seq<nat>) returns (out: seq<Msg>)
      requires followers == [1, 2]
      modifies this`prpAcks
      ensures forall l :: On(l) == RfProtocol.UpdatePrpAcks(old(On(l)), eIdx).0
      ensures out == if eIdx in old(prpAcks) then [Cmt(1, eIdx), Cmt(2, eIdx)] else []
    {
      out := [];
      ghost var l: Leader := Leader(0, [], false, map[], map[]);
      ghost var was := On(l);
      var second := UpdatePrpAcks(eIdx);
      assert (On(l), second) == RfProtocol.UpdatePrpAcks(was, eIdx);
      if second {
        for i := 0 to |followers|
          invariant out == [Cmt(1, eIdx), Cmt(2, eIdx)][..i]
        {
          out := out + [Cmt(followers[i], eIdx)];
        }
      }
    }
  }
}
