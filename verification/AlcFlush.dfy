/** Why AlcTheorems speaks of rounds below F only: `flash_batcher` counts one ack of its own,
    so a flushed round can be erased while an ack for it is still on a link.  The bound cannot
    be moved: for every round r, flushing round r and none before it can crash at round r. */
module AlcFlush {
  import opened AlcNode
  import opened AlcNetwork
  import opened AlcInvariant
  import opened AlcTheorems

  /** A run that flushes no round below r and ends in w. */
  ghost predicate Reaches(ws: seq<World>, ss: seq<Step>, w: World, r: nat) {
    Run(ws, ss) && FlushFree(ws, ss, r) && ws[|ss|] == w
  }

  lemma Extend(ws: seq<World>, ss: seq<Step>, w: World, s: Step, w2: World, r: nat)
    requires Reaches(ws, ss, w, r) && Enabled(w, s) && Apply(w, s) == Some(w2)
    requires s.Flush? ==> r <= w.nodes[s.i].count
    ensures Reaches(ws + [w2], ss + [s], w2, r)
  {
    RunExtends(ws, ss, s, w2);
    var ws2, ss2 := ws + [w2], ss + [s];
    forall k: nat | k < |ss2| ensures FlushOk(ws2[k], ss2[k], r) {
      if k < |ss| { assert FlushOk(ws[k], ss[k], r); }
    }
  }

  // ----- the schedule: every node has committed up to r - 1 and flushes round r -----

  /** Node i has committed up to r - 1, and its entry for round r has these counts. */
  predicate At(w: World, r: nat, i: nat, acks: nat, cmts: nat) {
    && |w.nodes| == TOT_NODES && i < TOT_NODES
    && w.nodes[i].id == i && w.nodes[i].cmtRd == r - 1 && w.nodes[i].curRd == r
    && r in w.nodes[i].protoMeta
    && w.nodes[i].protoMeta[r].nbAcks == acks && w.nodes[i].protoMeta[r].nbCmts == cmts
    && w.nodes[i].protoMeta[r].underCommit == (acks >= TOT_ACKS)
  }

  predicate AllAt(w: World, r: nat, a0: nat, c0: nat, a1: nat, c1: nat, a2: nat, c2: nat) {
    At(w, r, 0, a0, c0) && At(w, r, 1, a1, c1) && At(w, r, 2, a2, c2)
  }

  /** Handling m leaves every other message on the links. */
  predicate Keeps(w: World, m: Msg, w2: World) {
    forall x :: x in w.net && x != m ==> x in w2.net
  }

  lemma DeliveryKeeps(w: World, m: Msg, w2: World)
    requires Enabled(w, Deliver(m)) && Apply(w, Deliver(m)) == Some(w2)
    ensures Keeps(w, m, w2)
    ensures forall x :: x in Handle(w.nodes[m.dst], m).out ==> x in w2.net
  {
    var out := multiset(Handle(w.nodes[m.dst], m).out);
    forall x | x in w.net && x != m ensures x in w2.net {
      assert w2.net[x] == w.net[x] + out[x];
    }
  }

  /** Handles the next message of the schedule: a batch or an ack of round r. */
  lemma TakeAck(ws: seq<World>, ss: seq<Step>, w: World, m: Msg, acks: nat, cmts: nat)
    returns (vs: seq<World>, ts: seq<Step>, w2: World)
    requires Reaches(ws, ss, w, m.rd) && m in w.net && IsAckEvent(m) && acks < TOT_ACKS
    requires At(w, m.rd, m.dst, acks, cmts)
    ensures Reaches(vs, ts, w2, m.rd) && At(w2, m.rd, m.dst, acks + 1, cmts)
    ensures forall i, a, c :: i != m.dst && At(w, m.rd, i, a, c) ==> At(w2, m.rd, i, a, c)
    ensures Keeps(w, m, w2)
    ensures m.kind == Req ==> Msg(Ack, m.dst, m.src, m.rd) in w2.net
    ensures acks + 1 == TOT_ACKS ==> Msg(Cmt, m.dst, P(m.dst), m.rd) in w2.net && Msg(Cmt, m.dst, Q(m.dst), m.rd) in w2.net
  {
    AckHandlerEffect(w.nodes[m.dst], m);
    w2 := Apply(w, Deliver(m)).value;
    vs, ts := ws + [w2], ss + [Deliver(m)];
    Extend(ws, ss, w, Deliver(m), w2, m.rd);
    DeliveryKeeps(w, m, w2);
    var cs, out := Broadcast(Cmt, m.dst, m.rd), Handle(w.nodes[m.dst], m).out;
    assert cs[0] in cs && cs[1] in cs;
    assert m.kind == Req ==> out[0] in out;
  }

  /** Handles a commit or a commit-ack of round r that does not complete the round. */
  lemma TakeCmt(ws: seq<World>, ss: seq<Step>, w: World, m: Msg, acks: nat, cmts: nat)
    returns (vs: seq<World>, ts: seq<Step>, w2: World)
    requires Reaches(ws, ss, w, m.rd) && m in w.net && !IsAckEvent(m) && cmts + 1 < TOT_ACKS
    requires At(w, m.rd, m.dst, acks, cmts)
    ensures Reaches(vs, ts, w2, m.rd) && At(w2, m.rd, m.dst, acks, cmts + 1)
    ensures forall i, a, c :: i != m.dst && At(w, m.rd, i, a, c) ==> At(w2, m.rd, i, a, c)
    ensures Keeps(w, m, w2)
    ensures m.kind == Cmt ==> Msg(CmtAck, m.dst, m.src, m.rd) in w2.net
  {
    assert !Complete(BumpCmts(w.nodes[m.dst].protoMeta, m.rd), m.rd);
    w2 := Apply(w, Deliver(m)).value;
    vs, ts := ws + [w2], ss + [Deliver(m)];
    Extend(ws, ss, w, Deliver(m), w2, m.rd);
    DeliveryKeeps(w, m, w2);
    var out := Handle(w.nodes[m.dst], m).out;
    assert m.kind == Cmt ==> out[0] in out;
  }

  predicate Hold(w: World, ms: set<Msg>) { forall m :: m in ms ==> m in w.net }

  function ReqOf(i: nat, r: nat): set<Msg> { {Msg(Req, i, P(i), r), Msg(Req, i, Q(i), r)} }

  /** Node i has committed up to r - 1, knows nothing of round r, and has r as its next round. */
  predicate Idle(w: World, r: nat, i: nat) {
    && |w.nodes| == TOT_NODES && i < TOT_NODES
    && w.nodes[i].id == i && w.nodes[i].cmtRd == r - 1
    && w.nodes[i].count == r == w.nodes[i].header && r !in w.nodes[i].protoMeta
  }

  lemma TakeFlush(ws: seq<World>, ss: seq<Step>, w: World, r: nat, i: nat)
    returns (vs: seq<World>, ts: seq<Step>, w2: World)
    requires Reaches(ws, ss, w, r) && Idle(w, r, i)
    ensures Reaches(vs, ts, w2, r) && At(w2, r, i, 1, 0)
    ensures |w2.nodes| == TOT_NODES && forall j: nat :: j < TOT_NODES && j != i ==> w2.nodes[j] == w.nodes[j]
    ensures Hold(w2, ReqOf(i, r)) && forall m :: m in w.net ==> m in w2.net
  {
    w2 := Apply(w, Flush(i)).value;
    Extend(ws, ss, w, Flush(i), w2, r);
    vs, ts := ws + [w2], ss + [Flush(i)];
    var rs := Broadcast(Req, i, r);
    assert rs[0] in rs && rs[1] in rs;
  }

  lemma AllFlushed(r: nat) returns (ws: seq<World>, ss: seq<Step>, w: World)
    ensures Reaches(ws, ss, w, r) && AllAt(w, r, 1, 0, 1, 0, 1, 0)
    ensures Hold(w, ReqOf(0, r) + ReqOf(1, r) + ReqOf(2, r))
  {
    ws, ss, w := AllIdle(r);
    ws, ss, w := TakeFlush(ws, ss, w, r, 0);
    ws, ss, w := TakeFlush(ws, ss, w, r, 1);
    ws, ss, w := TakeFlush(ws, ss, w, r, 2);
  }

  /** Node 0 reaches four acks without node 1's: its own, two batches, and node 2's ack. */
  lemma NodeZeroCommits(r: nat) returns (ws: seq<World>, ss: seq<Step>, w: World)
    ensures Reaches(ws, ss, w, r) && AllAt(w, r, 4, 0, 1, 0, 2, 0)
    ensures Hold(w, {Msg(Req, 0, 1, r), Msg(Req, 1, 2, r), Msg(Req, 2, 1, r), Msg(Ack, 0, 1, r),
                     Msg(Ack, 0, 2, r), Msg(Cmt, 0, 1, r), Msg(Cmt, 0, 2, r)})
  {
    ws, ss, w := AllFlushed(r);
    ws, ss, w := TakeAck(ws, ss, w, Msg(Req, 1, 0, r), 1, 0);
    ws, ss, w := TakeAck(ws, ss, w, Msg(Req, 2, 0, r), 2, 0);
    ws, ss, w := TakeAck(ws, ss, w, Msg(Req, 0, 2, r), 1, 0);
    ws, ss, w := TakeAck(ws, ss, w, Msg(Ack, 2, 0, r), 3, 0);
  }

  lemma NodeOneCommits(r: nat) returns (ws: seq<World>, ss: seq<Step>, w: World)
    ensures Reaches(ws, ss, w, r) && AllAt(w, r, 4, 0, 4, 0, 2, 0)
    ensures Hold(w, {Msg(Req, 1, 2, r), Msg(Ack, 0, 2, r), Msg(Ack, 1, 0, r), Msg(Cmt, 0, 1, r), Msg(Cmt, 0, 2, r),
                     Msg(Cmt, 1, 0, r), Msg(Cmt, 1, 2, r)})
  {
    ws, ss, w := NodeZeroCommits(r);
    ws, ss, w := TakeAck(ws, ss, w, Msg(Req, 0, 1, r), 1, 0);
    ws, ss, w := TakeAck(ws, ss, w, Msg(Req, 2, 1, r), 2, 0);
    ws, ss, w := TakeAck(ws, ss, w, Msg(Ack, 0, 1, r), 3, 0);
  }

  /** All three have committed, while node 1's ack to node 0 stays on its link. */
  lemma PeersCommit(r: nat) returns (ws: seq<World>, ss: seq<Step>, w: World)
    ensures Reaches(ws, ss, w, r) && AllAt(w, r, 4, 0, 4, 0, 4, 0)
    ensures Hold(w, {Msg(Ack, 1, 0, r), Msg(Cmt, 0, 1, r), Msg(Cmt, 0, 2, r), Msg(Cmt, 1, 0, r), Msg(Cmt, 2, 0, r)})
  {
    ws, ss, w := NodeOneCommits(r);
    ws, ss, w := TakeAck(ws, ss, w, Msg(Req, 1, 2, r), 2, 0);
    ws, ss, w := TakeAck(ws, ss, w, Msg(Ack, 0, 2, r), 3, 0);
  }

  lemma ThreeCommitsCounted(r: nat) returns (ws: seq<World>, ss: seq<Step>, w: World)
    ensures Reaches(ws, ss, w, r) && At(w, r, 0, 4, 3)
    ensures Msg(CmtAck, 2, 0, r) in w.net && Msg(Ack, 1, 0, r) in w.net
  {
    ws, ss, w := PeersCommit(r);
    ws, ss, w := TakeCmt(ws, ss, w, Msg(Cmt, 0, 1, r), 4, 0);
    ws, ss, w := TakeCmt(ws, ss, w, Msg(Cmt, 0, 2, r), 4, 0);
    ws, ss, w := TakeCmt(ws, ss, w, Msg(Cmt, 1, 0, r), 4, 0);
    ws, ss, w := TakeCmt(ws, ss, w, Msg(Cmt, 2, 0, r), 4, 1);
    ws, ss, w := TakeCmt(ws, ss, w, Msg(CmtAck, 1, 0, r), 4, 2);
  }

  // ----- getting there: every node has shipped and committed exactly r rounds -----

  /** Submits requests at node i until it has shipped r batches and holds one more request. */
  lemma {:induction false} SubmitUntil(ws: seq<World>, ss: seq<Step>, w: World, i: nat, r: nat)
    returns (vs: seq<World>, ts: seq<Step>, w2: World)
    requires Run(ws, ss) && NoFlush(ss) && ws[|ss|] == w && |w.nodes| == TOT_NODES && i < TOT_NODES
    requires w.nodes[i].count <= r && w.nodes[i].curIdx <= BATCH_COUNT
    ensures Run(vs, ts) && NoFlush(ts) && vs[|ts|] == w2 && |w2.nodes| == TOT_NODES
    ensures w2.nodes[i].count == r && w2.nodes[i].curIdx >= 1
    ensures forall j: nat :: j < TOT_NODES && j != i ==> w2.nodes[j] == w.nodes[j]
    decreases 17 * (r - w.nodes[i].count) + 17 - w.nodes[i].curIdx
  {
    if w.nodes[i].count == r && w.nodes[i].curIdx >= 1 { return ws, ss, w; }
    if w.nodes[i].count == r { assert w.nodes[i].curIdx == 0; }
    var w1 := Apply(w, Submit(i)).value;
    RunExtends(ws, ss, Submit(i), w1);
    vs, ts, w2 := SubmitUntil(ws + [w1], ss + [Submit(i)], w1, i, r);
  }

  lemma {:induction false} DeliveriesKeepCounts(ws: seq<World>, ss: seq<Step>, a: nat, b: nat, i: nat)
    requires Run(ws, ss) && a <= b <= |ss| && |ws[a].nodes| == TOT_NODES && i < TOT_NODES
    requires forall k: nat :: a <= k < b ==> ss[k].Deliver?
    ensures |ws[b].nodes| == TOT_NODES && ws[b].nodes[i].count == ws[a].nodes[i].count
  {
    if a < b {
      DeliveriesKeepCounts(ws, ss, a, b - 1, i);
      assert StepOk(ws, ss, b - 1);
      HandlerStaysInRound(ws[b - 1].nodes[ss[b - 1].m.dst], ss[b - 1].m);
    }
  }

  lemma AllShipped(r: nat) returns (ws: seq<World>, ss: seq<Step>, w: World)
    ensures Run(ws, ss) && NoFlush(ss) && ws[|ss|] == w && |w.nodes| == TOT_NODES
    ensures forall i: nat :: i < TOT_NODES ==> w.nodes[i].count == r
  {
    ws, ss, w := [Init], [], Init;
    ws, ss, w := SubmitUntil(ws, ss, w, 0, r);
    ws, ss, w := SubmitUntil(ws, ss, w, 1, r);
    ws, ss, w := SubmitUntil(ws, ss, w, 2, r);
  }

  lemma QuietIsIdle(ws: seq<World>, ss: seq<Step>, w: World, r: nat, i: nat)
    requires Run(ws, ss) && NoFlush(ss) && ws[|ss|] == w && w.net == multiset{}
    requires |w.nodes| == TOT_NODES && i < TOT_NODES && forall j: nat :: j < TOT_NODES ==> w.nodes[j].count == r
    ensures Idle(w, r, i)
  {
    CountIsShipments(ws, ss, |ss|, i);
    QuiescentNodesHaveCommitted(ws, ss, |ss|, i);
    assert !SomeoneSent(w, r);
  }

  lemma AllIdle(r: nat) returns (ws: seq<World>, ss: seq<Step>, w: World)
    ensures Reaches(ws, ss, w, r) && Idle(w, r, 0) && Idle(w, r, 1) && Idle(w, r, 2)
  {
    ws, ss, w := AllShipped(r);
    var vs, ts := LinksCanBeEmptied(ws, ss);
    var ws2, ss2 := ws + vs, ss + ts;
    forall k: nat | |ss| <= k < |ss2| ensures ss2[k].Deliver? { assert ss2[k] == ts[k - |ss|]; }
    assert ws2[|ss|] == w;
    DeliveriesKeepCounts(ws2, ss2, |ss|, |ss2|, 0);
    DeliveriesKeepCounts(ws2, ss2, |ss|, |ss2|, 1);
    DeliveriesKeepCounts(ws2, ss2, |ss|, |ss2|, 2);
    ws, ss, w := ws2, ss2, ws2[|ss2|];
    QuietIsIdle(ws, ss, w, r, 0);
    QuietIsIdle(ws, ss, w, r, 1);
    QuietIsIdle(ws, ss, w, r, 2);
  }

  /** For every round r there is a run that flushes no round below r, and in which node 0 then
      looks up a round r that it has erased. */
  lemma FlushedRoundCanCrash(r: nat) returns (ws: seq<World>, ss: seq<Step>)
    ensures Run(ws, ss) && FlushFree(ws, ss, r)
    ensures Enabled(ws[|ss|], Deliver(Msg(Ack, 1, 0, r))) && Apply(ws[|ss|], Deliver(Msg(Ack, 1, 0, r))) == None
  {
    var w;
    ws, ss, w := ThreeCommitsCounted(r);
    var m := Msg(CmtAck, 2, 0, r);
    var n, ms := w.nodes[0], BumpCmts(w.nodes[0].protoMeta, r);
    assert Complete(ms, r);
    assert r !in CountCmt(n, r).protoMeta by { DrainIsMaximal(r - 1, r, ms); }
    var w2 := Apply(w, Deliver(m)).value;
    Extend(ws, ss, w, Deliver(m), w2, r);
    DeliveryKeeps(w, m, w2);
    ws, ss := ws + [w2], ss + [Deliver(m)];
  }

  /** If m is on a link at the end of the run, it can be handled without a failed lookup. */
  predicate CanHandle(ws: seq<World>, ss: seq<Step>, m: Msg)
    requires |ws| == |ss| + 1
  {
    m in ws[|ss|].net ==> Enabled(ws[|ss|], Deliver(m)) && Apply(ws[|ss|], Deliver(m)).Some?
  }

  /** No run that flushes nothing below F ever fails to look up round r. */
  ghost predicate AlwaysLive(r: nat, F: nat) {
    forall ws: seq<World>, ss: seq<Step>, m: Msg ::
      Run(ws, ss) && FlushFree(ws, ss, F) && m.rd == r ==> CanHandle(ws, ss, m)
  }

  /** The unchecked lookups of round r are safe in all runs that flush no round below F exactly
      when r is below F. */
  lemma LiveExactlyBelowFlushes(r: nat, F: nat)
    ensures AlwaysLive(r, F) <==> r < F
  {
    if r < F {
      forall ws: seq<World>, ss: seq<Step>, m: Msg | Run(ws, ss) && FlushFree(ws, ss, F) && m.rd == r
        ensures CanHandle(ws, ss, m)
      {
        if m in ws[|ss|].net { EntriesAreLive(ws, ss, F, |ss|, m); }
      }
    } else {
      var ws, ss := FlushedRoundCanCrash(r);
      assert FlushFree(ws, ss, F) by {
        forall k: nat | k < |ss| ensures FlushOk(ws[k], ss[k], F) { assert FlushOk(ws[k], ss[k], r); }
      }
      assert !CanHandle(ws, ss, Msg(Ack, 1, 0, r));
    }
  }
}
