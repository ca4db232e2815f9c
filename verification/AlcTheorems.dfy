/** What holds of every run of the three ALC nodes, in every delivery order. */
module AlcTheorems {
  import opened AlcNode
  import opened AlcNetwork
  import opened AlcInvariant

  /** No handler ever dereferences a missing round: the unchecked lookups are safe. */
  lemma EntriesAreLive(ws: seq<World>, ss: seq<Step>, F: nat, k: nat, m: Msg)
    requires Run(ws, ss) && FlushFree(ws, ss, F) && k < |ws|
    requires m in ws[k].net && m.rd < F
    ensures Enabled(ws[k], Deliver(m)) && Apply(ws[k], Deliver(m)).Some?
    ensures m.kind != Req ==> m.rd in ws[k].nodes[m.dst].protoMeta
  {
    RunKeepsInv(ws, ss, F, k);
    RoundIsLive(ws[k], F, m);
    SendsWhatIsDue(ws[k], F, m);
  }

  lemma FourAcksMeanBatches(w: World, F: nat, j: nat, l: nat, r: nat)
    requires |w.nodes| == TOT_NODES && NetInv(w, F) && r < F
    requires j < TOT_NODES && l < TOT_NODES && j != l && AckEvents(w, l, r) == TOT_ACKS
    ensures D(w, Req, j, l, r) == 1
  {
    FourAcksMean(w, F, l, r);
    assert j in Followers(l);
  }

  /** Stability: once any node has erased round r, every node has counted its four acks for
      r, has sent its own batch r and has received both peers' batches r. */
  lemma ErasedRoundsAreStable(ws: seq<World>, ss: seq<Step>, F: nat, k: nat, i: nat, r: nat)
    requires Run(ws, ss) && FlushFree(ws, ss, F) && k < |ws|
    requires i < TOT_NODES && r < F && |ws[k].nodes| == TOT_NODES && r <= ws[k].nodes[i].cmtRd
    ensures forall j: nat :: j < TOT_NODES ==>
              AckEvents(ws[k], j, r) == TOT_ACKS && r < ws[k].nodes[j].count
    ensures forall j: nat, l: nat :: j < TOT_NODES && l < TOT_NODES && j != l ==>
              D(ws[k], Req, j, l, r) == 1
  {
    var w := ws[k];
    RunKeepsInv(ws, ss, F, k);
    assert NodeInv(w, i, F);
    assert EntryInv(w, i, r);
    FourCommitsMean(w, F, i, r);
    forall j: nat, l: nat | j < TOT_NODES && l < TOT_NODES && j != l ensures D(w, Req, j, l, r) == 1 {
      FourAcksMeanBatches(w, F, j, l, r);
    }
  }

  /** No node commits past what every other node has sent. */
  lemma CommitsTrailSends(ws: seq<World>, ss: seq<Step>, F: nat, k: nat, i: nat, j: nat)
    requires Run(ws, ss) && FlushFree(ws, ss, F) && k < |ws|
    requires i < TOT_NODES && j < TOT_NODES && |ws[k].nodes| == TOT_NODES && ws[k].nodes[i].cmtRd < F
    ensures ws[k].nodes[i].cmtRd < ws[k].nodes[j].count
  {
    if ws[k].nodes[i].cmtRd >= 0 {
      ErasedRoundsAreStable(ws, ss, F, k, i, ws[k].nodes[i].cmtRd);
    }
  }

  function InFlight(w: World, i: nat, kinds: (Kind, Kind), r: nat): nat {
    w.net[Msg(kinds.0, P(i), i, r)] + w.net[Msg(kinds.0, Q(i), i, r)] +
    w.net[Msg(kinds.1, P(i), i, r)] + w.net[Msg(kinds.1, Q(i), i, r)]
  }

  function Unsent(w: World, i: nat, kinds: (Kind, Kind), r: nat): nat
    requires |w.nodes| == TOT_NODES
  {
    Bit(!Sent(w, Msg(kinds.0, P(i), i, r))) + Bit(!Sent(w, Msg(kinds.0, Q(i), i, r))) +
    Bit(!Sent(w, Msg(kinds.1, P(i), i, r))) + Bit(!Sent(w, Msg(kinds.1, Q(i), i, r)))
  }

  /** Conservation: the counters of a live round plus what is still on a link or still to be
      sent always make four. */
  lemma CountersAreConserved(ws: seq<World>, ss: seq<Step>, F: nat, k: nat, i: nat, r: nat)
    requires Run(ws, ss) && FlushFree(ws, ss, F) && k < |ws|
    requires i < TOT_NODES && r < F && |ws[k].nodes| == TOT_NODES && r in ws[k].nodes[i].protoMeta
    ensures var w, e := ws[k], ws[k].nodes[i].protoMeta[r];
            && e.nbAcks + InFlight(w, i, (Req, Ack), r) + Unsent(w, i, (Req, Ack), r) == TOT_ACKS
            && e.nbCmts + InFlight(w, i, (Cmt, CmtAck), r) + Unsent(w, i, (Cmt, CmtAck), r) == TOT_ACKS
            && e.underCommit == (e.nbAcks == TOT_ACKS)
  {
    var w := ws[k];
    RunKeepsInv(ws, ss, F, k);
    assert NodeInv(w, i, F);
    assert EntryInv(w, i, r);
    forall kind: Kind, j: nat | j in Followers(i) ensures Balanced(w, Msg(kind, j, i, r)) {}
    assert P(i) in Followers(i) && Q(i) in Followers(i);
    assert Balanced(w, Msg(Req, P(i), i, r)) && Balanced(w, Msg(Req, Q(i), i, r));
    assert Balanced(w, Msg(Ack, P(i), i, r)) && Balanced(w, Msg(Ack, Q(i), i, r));
    assert Balanced(w, Msg(Cmt, P(i), i, r)) && Balanced(w, Msg(Cmt, Q(i), i, r));
    assert Balanced(w, Msg(CmtAck, P(i), i, r)) && Balanced(w, Msg(CmtAck, Q(i), i, r));
  }

  /** Commit messages are produced once: nothing is ever on the links twice. */
  lemma NothingIsSentTwice(ws: seq<World>, ss: seq<Step>, F: nat, k: nat, m: Msg)
    requires Run(ws, ss) && FlushFree(ws, ss, F) && k < |ws| && m.rd < F
    ensures ws[k].net[m] + ws[k].dlv[m] <= 1
    ensures |ws[k].nodes| == TOT_NODES && m.kind == Cmt && m.src < TOT_NODES && m.dst < TOT_NODES && m.src != m.dst ==>
              (ws[k].net[m] + ws[k].dlv[m] == 1 <==> AckEvents(ws[k], m.src, m.rd) == TOT_ACKS)
  {
    RunKeepsInv(ws, ss, F, k);
    assert Balanced(ws[k], m);
  }

  /** The table in which the handler of m evaluates `can_commit`. */
  function AckTable(n: Node, m: Msg): Rounds
    requires m.kind == Req || (m.kind == Ack && m.rd in n.protoMeta)
  {
    BumpAcks(if m.kind == Req then AddRecvReq(n.protoMeta, 0, m.rd) else n.protoMeta, m.rd)
  }

  /** `can_commit` returns true for (i, r) in step s. */
  predicate Fires(w: World, s: Step, i: nat, r: nat) {
    && Enabled(w, s) && s.Deliver? && s.m.dst == i && s.m.rd == r
    && (s.m.kind == Req || (s.m.kind == Ack && r in w.nodes[i].protoMeta))
    && CanCommit(AckTable(w.nodes[i], s.m), r)
  }

  /** The already-under-commit branch of `can_commit` is never taken. */
  lemma NeverAlreadyUnderCommit(ws: seq<World>, ss: seq<Step>, F: nat, k: nat, m: Msg)
    requires Run(ws, ss) && FlushFree(ws, ss, F) && k < |ws|
    requires m in ws[k].net && m.rd < F && (m.kind == Req || m.kind == Ack)
    ensures |ws[k].nodes| == TOT_NODES && m.dst < TOT_NODES
    ensures m.kind == Ack ==> m.rd in ws[k].nodes[m.dst].protoMeta
    ensures !AckTable(ws[k].nodes[m.dst], m)[m.rd].underCommit
  {
    RunKeepsInv(ws, ss, F, k);
    RoundIsLive(ws[k], F, m);
    SendsWhatIsDue(ws[k], F, m);
  }

  function Firings(ws: seq<World>, ss: seq<Step>, k: nat, i: nat, r: nat): nat
    requires k <= |ss| && |ws| == |ss| + 1
  {
    if k == 0 then 0 else Firings(ws, ss, k - 1, i, r) + Bit(Fires(ws[k - 1], ss[k - 1], i, r))
  }

  lemma FiringMakesFour(w: World, F: nat, s: Step, i: nat, r: nat)
    requires Inv(w, F) && Enabled(w, s) && Apply(w, s).Some? && (s.Flush? ==> F <= w.nodes[s.i].count)
    requires i < TOT_NODES && r < F
    ensures Bit(AckEvents(Apply(w, s).value, i, r) == TOT_ACKS)
         == Bit(AckEvents(w, i, r) == TOT_ACKS) + Bit(Fires(w, s, i, r))
  {
    if s.Deliver? {
      if s.m.dst == i && s.m.rd == r {
        FiringHere(w, F, s.m, Apply(w, s).value);
      } else {
        EventsElsewhere(w, s.m, Apply(w, s).value, i, r);
      }
    }
  }

  lemma FiringHere(w: World, F: nat, m: Msg, w2: World)
    requires Inv(w, F) && m in w.net && m.dst < TOT_NODES && m.rd < F && w2.dlv == w.dlv + multiset{m}
    ensures Bit(AckEvents(w2, m.dst, m.rd) == TOT_ACKS)
         == Bit(AckEvents(w, m.dst, m.rd) == TOT_ACKS) + Bit(Fires(w, Deliver(m), m.dst, m.rd))
  {
    var i, r, acks := m.dst, m.rd, AckEvents(w, m.dst, m.rd);
    OnceAndCaused(w, F, m);
    assert IsAckEvent(m) ==> acks < TOT_ACKS by { EventsBelowFour(w, F, m); }
    assert AckEvents(w2, i, r) == acks + Bit(IsAckEvent(m)) by { EventsAfter(w, m, w2, i, r); }
    assert Fires(w, Deliver(m), i, r) <==> IsAckEvent(m) && acks + 1 == TOT_ACKS by { FiresAtFour(w, F, m); }
  }

  lemma FiresAtFour(w: World, F: nat, m: Msg)
    requires Inv(w, F) && m in w.net && m.dst < TOT_NODES && m.rd < F
    ensures Fires(w, Deliver(m), m.dst, m.rd) <==> IsAckEvent(m) && AckEvents(w, m.dst, m.rd) + 1 == TOT_ACKS
  {
    assert NodeInv(w, m.dst, F);
    assert EntryInv(w, m.dst, m.rd);
    RoundIsLive(w, F, m);
    SendsWhatIsDue(w, F, m);
  }

  /** `can_commit` has returned true for (i, r) exactly once if node i has counted its four
      acks for r, and never before; so `send_cmt` runs once per node and round. */
  lemma {:induction false} CommitsOnce(ws: seq<World>, ss: seq<Step>, F: nat, k: nat, i: nat, r: nat)
    requires Run(ws, ss) && FlushFree(ws, ss, F) && k <= |ss| && i < TOT_NODES && r < F
    ensures Firings(ws, ss, k, i, r) == Bit(AckEvents(ws[k], i, r) == TOT_ACKS)
  {
    if k > 0 {
      CommitsOnce(ws, ss, F, k - 1, i, r);
      RunKeepsInv(ws, ss, F, k - 1);
      assert StepOk(ws, ss, k - 1);
      FiringMakesFour(ws[k - 1], F, ss[k - 1], i, r);
    }
  }

  /** No handler leaves a complete next round behind. */
  lemma NoCompleteRoundIsLeft(ws: seq<World>, ss: seq<Step>, F: nat, k: nat, i: nat)
    requires Run(ws, ss) && FlushFree(ws, ss, F) && k < |ws|
    requires i < TOT_NODES && |ws[k].nodes| == TOT_NODES && ws[k].nodes[i].cmtRd + 1 < F
    ensures !Complete(ws[k].nodes[i].protoMeta, ws[k].nodes[i].cmtRd + 1)
    ensures CmtEvents(ws[k], i, ws[k].nodes[i].cmtRd + 1) < TOT_ACKS
  {
    RunKeepsInv(ws, ss, F, k);
    assert NodeInv(ws[k], i, F);
    assert EntryInv(ws[k], i, ws[k].nodes[i].cmtRd + 1);
  }

  // ----- round ids -----

  /** Step s ships a batch of node i. */
  predicate Ships(w: World, s: Step, i: nat) {
    i < |w.nodes| && (s == Flush(i) || (s == Submit(i) && w.nodes[i].curIdx >= BATCH_COUNT))
  }

  function Shipments(ws: seq<World>, ss: seq<Step>, k: nat, i: nat): nat
    requires k <= |ss| && |ws| == |ss| + 1
  {
    if k == 0 then 0 else Shipments(ws, ss, k - 1, i) + Bit(Ships(ws[k - 1], ss[k - 1], i))
  }

  predicate Numbered(w: World, i: nat, n: nat) {
    && |w.nodes| == TOT_NODES && i < TOT_NODES
    && w.nodes[i].id == i && w.nodes[i].count == n == w.nodes[i].header
  }

  lemma StepNumbers(w: World, s: Step, i: nat, n: nat)
    requires Numbered(w, i, n) && Enabled(w, s) && Apply(w, s).Some?
    ensures Numbered(Apply(w, s).value, i, n + Bit(Ships(w, s, i)))
  {
    if s.Deliver? { HandlerStaysInRound(w.nodes[s.m.dst], s.m); }
  }

  lemma {:induction false} CountIsShipments(ws: seq<World>, ss: seq<Step>, k: nat, i: nat)
    requires Run(ws, ss) && k <= |ss| && i < TOT_NODES
    ensures Numbered(ws[k], i, Shipments(ws, ss, k, i))
  {
    if k > 0 {
      CountIsShipments(ws, ss, k - 1, i);
      assert StepOk(ws, ss, k - 1);
      StepNumbers(ws[k - 1], ss[k - 1], i, Shipments(ws, ss, k - 1, i));
    }
  }

  /** The j-th batch a node ships, flushed ones included, carries round id j on both links,
      and j is the round under which the sender files it. */
  lemma BatchCarriesItsRound(ws: seq<World>, ss: seq<Step>, k: nat, i: nat)
    requires Run(ws, ss) && k < |ss| && i < TOT_NODES && Ships(ws[k], ss[k], i)
    ensures |ws[k + 1].nodes| == TOT_NODES
    ensures var j, n := Shipments(ws, ss, k, i), ws[k + 1].nodes[i];
            && ws[k + 1].net == ws[k].net + multiset(Broadcast(Req, i, j))
            && j in n.protoMeta && i in n.protoMeta[j].senders && n.curRd == j
  {
    CountIsShipments(ws, ss, k, i);
    assert StepOk(ws, ss, k);
  }

  // ----- where requests go -----

  /** How many of the first k steps hand a request to node i. */
  function Submitted(ss: seq<Step>, k: nat, i: nat): nat
    requires k <= |ss|
  {
    if k == 0 then 0 else Submitted(ss, k - 1, i) + Bit(ss[k - 1] == Submit(i))
  }

  /** How many requests the batches shipped in the first k steps hold. */
  function ShippedRequests(ws: seq<World>, ss: seq<Step>, k: nat, i: nat): nat
    requires k <= |ss| && |ws| == |ss| + 1
  {
    if k == 0 then 0
    else ShippedRequests(ws, ss, k - 1, i) +
         (if Ships(ws[k - 1], ss[k - 1], i) then ws[k - 1].nodes[i].curIdx else 0)
  }

  /** A step buffers the request it is given, and ships exactly what was buffered. */
  lemma StepMovesRequests(w: World, s: Step, i: nat)
    requires Enabled(w, s) && Apply(w, s).Some? && i < TOT_NODES
    ensures var w2 := Apply(w, s).value;
            && |w2.nodes| == TOT_NODES
            && w2.nodes[i].curIdx + (if Ships(w, s, i) then w.nodes[i].curIdx else 0)
               == w.nodes[i].curIdx + Bit(s == Submit(i))
  {
    if s.Deliver? { HandlerStaysInRound(w.nodes[s.m.dst], s.m); }
  }

  /** No request is lost or duplicated, in runs with flushes too: every request handed to a node
      is in exactly one shipped batch or still in its buffer. */
  lemma {:induction false} RequestsAreConserved(ws: seq<World>, ss: seq<Step>, k: nat, i: nat)
    requires Run(ws, ss) && k <= |ss| && i < TOT_NODES
    ensures |ws[k].nodes| == TOT_NODES
    ensures Submitted(ss, k, i) == ShippedRequests(ws, ss, k, i) + ws[k].nodes[i].curIdx
  {
    if k > 0 {
      RequestsAreConserved(ws, ss, k - 1, i);
      assert StepOk(ws, ss, k - 1);
      StepMovesRequests(ws[k - 1], ss[k - 1], i);
    }
  }

  lemma {:induction false} FullBatchesOnly(ws: seq<World>, ss: seq<Step>, k: nat, i: nat)
    requires Run(ws, ss) && NoFlush(ss) && k <= |ss| && i < TOT_NODES
    ensures ShippedRequests(ws, ss, k, i) == BATCH_COUNT * Shipments(ws, ss, k, i)
  {
    if k > 0 {
      FullBatchesOnly(ws, ss, k - 1, i);
      RunKeepsInv(ws, ss, 0, k - 1);
      assert NodeInv(ws[k - 1], i, 0);
    }
  }

  /** Without a flush every shipped batch is full, so the requests handed to a node are sixteen
      per shipped batch and those still in its buffer. */
  lemma SixteenPerBatch(ws: seq<World>, ss: seq<Step>, k: nat, i: nat)
    requires Run(ws, ss) && NoFlush(ss) && k <= |ss| && i < TOT_NODES
    ensures |ws[k].nodes| == TOT_NODES
    ensures Submitted(ss, k, i) == 16 * Shipments(ws, ss, k, i) + ws[k].nodes[i].curIdx
  {
    RequestsAreConserved(ws, ss, k, i);
    FullBatchesOnly(ws, ss, k, i);
  }

  /** A flush empties the buffer of its node, and a request sent to a full buffer is the first
      of the next batch. */
  lemma BufferAfterShipment(ws: seq<World>, ss: seq<Step>, k: nat, i: nat)
    requires Run(ws, ss) && k < |ss| && i < TOT_NODES && Ships(ws[k], ss[k], i)
    ensures |ws[k + 1].nodes| == TOT_NODES
    ensures ws[k + 1].nodes[i].curIdx == if ss[k].Flush? then 0 else 1
  {
    assert StepOk(ws, ss, k);
    StepMovesRequests(ws[k], ss[k], i);
  }

  // ----- termination -----

  predicate NoFlush(ss: seq<Step>) {
    forall k :: 0 <= k < |ss| ==> !ss[k].Flush?
  }

  /** The messages that batch r of node i can ever cause: 2 batches, 2 acks, 2 commits, 2 commit-acks. */
  function Caused(i: nat, r: nat): seq<Msg> {
    Broadcast(Req, i, r) + Broadcast(Cmt, i, r) +
    [Msg(Ack, P(i), i, r), Msg(Ack, Q(i), i, r), Msg(CmtAck, P(i), i, r), Msg(CmtAck, Q(i), i, r)]
  }

  function CausedUpTo(i: nat, n: nat): (ms: seq<Msg>)
    ensures |ms| == 8 * n
  {
    if n == 0 then [] else CausedUpTo(i, n - 1) + Caused(i, n - 1)
  }

  lemma {:induction false} CausedCovers(i: nat, n: nat, r: nat, m: Msg)
    requires r < n && m in Caused(i, r)
    ensures m in CausedUpTo(i, n)
  {
    if r < n - 1 { CausedCovers(i, n - 1, r, m); }
  }

  function AllCaused(w: World): (ms: seq<Msg>)
    requires |w.nodes| == TOT_NODES
    ensures |ms| == 8 * (w.nodes[0].count + w.nodes[1].count + w.nodes[2].count)
  {
    CausedUpTo(0, w.nodes[0].count) + CausedUpTo(1, w.nodes[1].count) + CausedUpTo(2, w.nodes[2].count)
  }

  /** The node whose batch set m in motion. */
  function Origin(m: Msg): nat {
    if m.kind == Req || m.kind == Cmt then m.src else m.dst
  }

  lemma WellAddressedIsCaused(m: Msg)
    requires m.src < TOT_NODES && m.dst < TOT_NODES && m.src != m.dst
    ensures m in Caused(Origin(m), m.rd)
  {
    var i := Origin(m);
    var j := if i == m.src then m.dst else m.src;
    assert j in Followers(i);
    var c, first := Caused(i, m.rd), Bit(j != P(i));
    assert c[match m.kind case Req => first case Cmt => 2 + first case Ack => 4 + first case CmtAck => 6 + first] == m;
  }

  lemma OriginHasSent(w: World, F: nat, m: Msg)
    requires |w.nodes| == TOT_NODES && NetInv(w, F) && m.rd < F && Sent(w, m)
    ensures m.rd < w.nodes[Origin(m)].count
  {
    match m.kind
    case Req =>
    case Ack => OnceAndCaused(w, F, Msg(Req, m.dst, m.src, m.rd));
    case Cmt => FourAcksMean(w, F, m.src, m.rd);
    case CmtAck =>
      OnceAndCaused(w, F, Msg(Cmt, m.dst, m.src, m.rd));
      FourAcksMean(w, F, m.dst, m.rd);
  }

  lemma CausedInAll(w: World, m: Msg)
    requires |w.nodes| == TOT_NODES && m.src < TOT_NODES && m.dst < TOT_NODES && m.src != m.dst
    requires m.rd < w.nodes[Origin(m)].count
    ensures m in AllCaused(w)
  {
    var i, n := Origin(m), w.nodes[Origin(m)].count;
    assert m in CausedUpTo(i, n) by {
      WellAddressedIsCaused(m);
      CausedCovers(i, n, m.rd, m);
    }
    assert i == 0 || i == 1 || i == 2;
  }

  lemma SentIsCaused(w: World, F: nat, m: Msg)
    requires |w.nodes| == TOT_NODES && NetInv(w, F) && m.rd < F && Sent(w, m)
    ensures m in AllCaused(w)
  {
    assert m.src < TOT_NODES && m.dst < TOT_NODES && m.src != m.dst;
    OriginHasSent(w, F, m);
    CausedInAll(w, m);
  }

  lemma SubmultisetIsSmaller<T>(a: multiset<T>, b: multiset<T>)
    requires a <= b
    ensures |a| <= |b|
  {
    assert b == a + (b - a);
  }

  /** Termination: a run handles at most eight messages per batch sent, so once sending
      stops at most `8 * batches - handled` deliveries remain. */
  lemma DeliveriesAreBounded(ws: seq<World>, ss: seq<Step>, k: nat)
    requires Run(ws, ss) && NoFlush(ss) && k < |ws|
    ensures |ws[k].nodes| == TOT_NODES
    ensures |ws[k].dlv| <= 8 * (ws[k].nodes[0].count + ws[k].nodes[1].count + ws[k].nodes[2].count)
  {
    var w := ws[k];
    RunKeepsInv(ws, ss, 0, k);
    forall m: Msg ensures w.dlv[m] <= multiset(AllCaused(w))[m] {
      RunKeepsInv(ws, ss, m.rd + 1, k);
      OnceAndCaused(w, m.rd + 1, m);
      if w.dlv[m] == 1 { SentIsCaused(w, m.rd + 1, m); }
    }
    SubmultisetIsSmaller(w.dlv, multiset(AllCaused(w)));
  }

  function Deliveries(ss: seq<Step>): nat {
    if ss == [] then 0 else Deliveries(ss[..|ss| - 1]) + Bit(ss[|ss| - 1].Deliver?)
  }

  lemma {:induction false} HandledAreCounted(ws: seq<World>, ss: seq<Step>, k: nat)
    requires Run(ws, ss) && k <= |ss|
    ensures |ws[k].dlv| == Deliveries(ss[..k])
  {
    if k > 0 {
      HandledAreCounted(ws, ss, k - 1);
      assert ss[..k][..k - 1] == ss[..k - 1];
      assert StepOk(ws, ss, k - 1);
    }
  }

  lemma RunExtends(ws: seq<World>, ss: seq<Step>, s: Step, w: World)
    requires Run(ws, ss) && Enabled(ws[|ss|], s) && Apply(ws[|ss|], s) == Some(w)
    ensures Run(ws + [w], ss + [s])
    ensures NoFlush(ss) && !s.Flush? ==> NoFlush(ss + [s])
  {
    var ws2, ss2 := ws + [w], ss + [s];
    forall k: nat | k < |ss2| ensures StepOk(ws2, ss2, k) {
      if k < |ss| { assert StepOk(ws, ss, k); }
    }
  }

  function Batches(w: World): nat {
    if |w.nodes| == TOT_NODES then w.nodes[0].count + w.nodes[1].count + w.nodes[2].count else 0
  }

  /** One more delivery is possible, safe, and brings the links closer to empty. */
  lemma OneMoreDelivery(ws: seq<World>, ss: seq<Step>, m: Msg) returns (w: World)
    requires Run(ws, ss) && NoFlush(ss) && m in ws[|ss|].net
    ensures Run(ws + [w], ss + [Deliver(m)]) && NoFlush(ss + [Deliver(m)])
    ensures Batches(w) == Batches(ws[|ss|]) && |w.dlv| == |ws[|ss|].dlv| + 1 <= 8 * Batches(w)
  {
    var k, ws2, ss2 := |ss|, ws, ss;
    EntriesAreLive(ws, ss, m.rd + 1, k, m);
    w := Apply(ws[k], Deliver(m)).value;
    HandlerStaysInRound(ws[k].nodes[m.dst], m);
    RunExtends(ws, ss, Deliver(m), w);
    DeliveriesAreBounded(ws + [w], ss + [Deliver(m)], k + 1);
  }

  /** From every reachable state the links can be emptied, and doing so never crashes. */
  lemma {:induction false} LinksCanBeEmptied(ws: seq<World>, ss: seq<Step>) returns (vs: seq<World>, ts: seq<Step>)
    requires Run(ws, ss) && NoFlush(ss)
    ensures Run(ws + vs, ss + ts) && NoFlush(ss + ts)
    ensures forall s :: s in ts ==> s.Deliver?
    ensures (ws + vs)[|ss + ts|].net == multiset{}
    decreases 8 * Batches(ws[|ss|]) - |ws[|ss|].dlv|
  {
    if ws[|ss|].net == multiset{} {
      assert ws + [] == ws && ss + [] == ss;
      return [], [];
    }
    var m :| m in ws[|ss|].net;
    var w := OneMoreDelivery(ws, ss, m);
    vs, ts := LinksCanBeEmptied(ws + [w], ss + [Deliver(m)]);
    assert (ws + [w]) + vs == ws + ([w] + vs) && (ss + [Deliver(m)]) + ts == ss + ([Deliver(m)] + ts);
    vs, ts := [w] + vs, [Deliver(m)] + ts;
  }

  // ----- quiescence -----

  function Min3(a: int, b: int, c: int): int {
    if a <= b && a <= c then a else if b <= c then b else c
  }

  /** Nothing of a round below F is on a link. */
  ghost predicate Drained(w: World, F: nat) {
    forall m: Msg :: m in w.net ==> F <= m.rd
  }

  predicate AllSent(w: World, r: nat)
    requires |w.nodes| == TOT_NODES
  {
    forall j: nat :: j < TOT_NODES ==> r < w.nodes[j].count
  }

  lemma BatchAndAckHandled(w: World, F: nat, j: nat, l: nat, r: nat)
    requires |w.nodes| == TOT_NODES && NetInv(w, F) && r < F && Drained(w, F)
    requires j < TOT_NODES && l < TOT_NODES && j != l && r < w.nodes[j].count
    ensures D(w, Req, j, l, r) == 1 && D(w, Ack, l, j, r) == 1
  {
    assert Balanced(w, Msg(Req, j, l, r)) && Balanced(w, Msg(Ack, l, j, r));
  }

  lemma CommitAndAckHandled(w: World, F: nat, j: nat, l: nat, r: nat)
    requires |w.nodes| == TOT_NODES && NetInv(w, F) && r < F && Drained(w, F)
    requires j < TOT_NODES && l < TOT_NODES && j != l && AckEvents(w, j, r) == TOT_ACKS
    ensures D(w, Cmt, j, l, r) == 1 && D(w, CmtAck, l, j, r) == 1
  {
    assert Balanced(w, Msg(Cmt, j, l, r)) && Balanced(w, Msg(CmtAck, l, j, r));
  }

  lemma QuiescentAcks(w: World, F: nat, j: nat, r: nat)
    requires |w.nodes| == TOT_NODES && NetInv(w, F) && r < F && Drained(w, F)
    requires j < TOT_NODES && AllSent(w, r)
    ensures AckEvents(w, j, r) == TOT_ACKS
  {
    assert P(j) in Followers(j) && Q(j) in Followers(j);
    BatchAndAckHandled(w, F, P(j), j, r);
    BatchAndAckHandled(w, F, Q(j), j, r);
    BatchAndAckHandled(w, F, j, P(j), r);
    BatchAndAckHandled(w, F, j, Q(j), r);
  }

  lemma QuiescentRound(w: World, F: nat, i: nat, r: nat)
    requires |w.nodes| == TOT_NODES && NetInv(w, F) && r < F && Drained(w, F)
    requires i < TOT_NODES && AllSent(w, r)
    ensures CmtEvents(w, i, r) == TOT_ACKS
  {
    assert P(i) in Followers(i) && Q(i) in Followers(i);
    forall j: nat | j < TOT_NODES ensures AckEvents(w, j, r) == TOT_ACKS { QuiescentAcks(w, F, j, r); }
    CommitAndAckHandled(w, F, P(i), i, r);
    CommitAndAckHandled(w, F, Q(i), i, r);
    CommitAndAckHandled(w, F, i, P(i), r);
    CommitAndAckHandled(w, F, i, Q(i), r);
  }

  /** The first uncommitted round of a node has not been sent by everyone. */
  lemma NextRoundIsShort(w: World, F: nat, i: nat, r: nat)
    requires Inv(w, F) && i < TOT_NODES && Drained(w, F) && r < F && r == w.nodes[i].cmtRd + 1
    ensures !AllSent(w, r)
  {
    assert NodeInv(w, i, F);
    assert EntryInv(w, i, r);
    if AllSent(w, r) { QuiescentRound(w, F, i, r); }
  }

  /** No lost commit, flushes or not: once nothing of the rounds below F is on a link, every
      node has committed round r < F exactly if all three have sent it. */
  lemma CommittedExactlyIfSent(ws: seq<World>, ss: seq<Step>, F: nat, k: nat, i: nat, r: nat)
    requires Run(ws, ss) && FlushFree(ws, ss, F) && k < |ws|
    requires i < TOT_NODES && r < F && Drained(ws[k], F)
    ensures |ws[k].nodes| == TOT_NODES
    ensures r <= ws[k].nodes[i].cmtRd <==> AllSent(ws[k], r)
  {
    RunKeepsInv(ws, ss, F, k);
    if r <= ws[k].nodes[i].cmtRd {
      ErasedRoundsAreStable(ws, ss, F, k, i, r);
    } else {
      NextRoundIsShort(ws[k], F, i, ws[k].nodes[i].cmtRd + 1);
    }
  }

  /** The commit point of a quiescent node: the last round that all three have sent. */
  lemma QuiescentCommitPoint(ws: seq<World>, ss: seq<Step>, k: nat, i: nat)
    requires Run(ws, ss) && NoFlush(ss) && k < |ws| && i < TOT_NODES
    requires ws[k].net == multiset{}
    ensures |ws[k].nodes| == TOT_NODES
    ensures var w := ws[k];
            w.nodes[i].cmtRd == Min3(w.nodes[0].count, w.nodes[1].count, w.nodes[2].count) - 1
  {
    var w := ws[k];
    RunKeepsInv(ws, ss, 0, k);
    var c, least := w.nodes[i].cmtRd, Min3(w.nodes[0].count, w.nodes[1].count, w.nodes[2].count);
    if 0 <= c { CommittedExactlyIfSent(ws, ss, c + 1, k, i, c); }
    if 0 < least { CommittedExactlyIfSent(ws, ss, least, k, i, least - 1); }
  }

  predicate SomeoneSent(w: World, r: nat)
    requires |w.nodes| == TOT_NODES
  {
    r < w.nodes[0].count || r < w.nodes[1].count || r < w.nodes[2].count
  }

  lemma QuiescentTable(w: World, i: nat, r: nat)
    requires Inv(w, r + 1) && w.net == multiset{} && i < TOT_NODES
    ensures r in w.nodes[i].protoMeta <==> w.nodes[i].cmtRd < r && SomeoneSent(w, r)
  {
    assert NodeInv(w, i, r + 1) && EntryInv(w, i, r);
    assert P(i) in Followers(i) && Q(i) in Followers(i);
    assert Balanced(w, Msg(Req, P(i), i, r)) && Balanced(w, Msg(Req, Q(i), i, r));
  }

  /** No lost commit: when the links are empty, every node has committed exactly the rounds
      that all three have sent, and its table holds exactly the rounds only some have sent. */
  lemma QuiescentNodesHaveCommitted(ws: seq<World>, ss: seq<Step>, k: nat, i: nat)
    requires Run(ws, ss) && NoFlush(ss) && k < |ws| && i < TOT_NODES
    requires ws[k].net == multiset{}
    ensures |ws[k].nodes| == TOT_NODES
    ensures var w := ws[k];
            && w.nodes[i].cmtRd == Min3(w.nodes[0].count, w.nodes[1].count, w.nodes[2].count) - 1
            && forall r: nat ::
                 r in w.nodes[i].protoMeta <==> w.nodes[i].cmtRd < r && SomeoneSent(w, r)
  {
    QuiescentCommitPoint(ws, ss, k, i);
    forall r: nat
      ensures var w := ws[k]; r in w.nodes[i].protoMeta <==> w.nodes[i].cmtRd < r && SomeoneSent(w, r)
    {
      RunKeepsInv(ws, ss, r + 1, k);
      QuiescentTable(ws[k], i, r);
    }
  }
}
