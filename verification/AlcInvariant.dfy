/** The protocol invariant holds initially and after every step. */
module AlcInvariant {
  import opened AlcNode
  import opened AlcNetwork

  /** What NetInv says of one message: nothing happens twice, nothing uncaused. */
  lemma OnceAndCaused(w: World, F: nat, m: Msg)
    requires |w.nodes| == TOT_NODES && NetInv(w, F) && m.rd < F
    ensures w.dlv[m] <= 1
    ensures w.dlv[m] == 1 ==> Sent(w, m)
    ensures m in w.net ==> Sent(w, m) && w.dlv[m] == 0 && w.net[m] == 1
  {
    assert Balanced(w, m);
  }

  lemma AllOnceAndCaused(w: World, F: nat)
    requires |w.nodes| == TOT_NODES && NetInv(w, F)
    ensures forall m: Msg {:trigger w.dlv[m]} :: m.rd < F ==>
              w.dlv[m] <= 1 && (w.dlv[m] == 1 ==> Sent(w, m))
  {
    forall m: Msg | m.rd < F ensures w.dlv[m] <= 1 && (w.dlv[m] == 1 ==> Sent(w, m)) {
      OnceAndCaused(w, F, m);
    }
  }

  /** A node that counted four acks has sent its batch, and so have its peers. */
  lemma FourAcksMean(w: World, F: nat, i: nat, r: nat)
    requires |w.nodes| == TOT_NODES && NetInv(w, F) && i < TOT_NODES && r < F
    requires AckEvents(w, i, r) == TOT_ACKS
    ensures forall j: nat :: j < TOT_NODES ==> r < w.nodes[j].count
    ensures D(w, Req, P(i), i, r) == D(w, Req, Q(i), i, r) == 1
    ensures D(w, Req, i, P(i), r) == D(w, Req, i, Q(i), r) == 1
  {
    AllOnceAndCaused(w, F);
    var f := Followers(i);
    assert f[0] in f && f[1] in f;
    assert Sent(w, Msg(Req, P(i), i, r)) && Sent(w, Msg(Req, Q(i), i, r));
    assert Sent(w, Msg(Ack, P(i), i, r)) && Sent(w, Msg(Ack, Q(i), i, r));
    assert Sent(w, Msg(Req, i, P(i), r));
  }

  /** A node that counted four commits: every node counted four acks. */
  lemma FourCommitsMean(w: World, F: nat, i: nat, r: nat)
    requires |w.nodes| == TOT_NODES && NetInv(w, F) && i < TOT_NODES && r < F
    requires CmtEvents(w, i, r) == TOT_ACKS
    ensures forall j: nat :: j < TOT_NODES ==> AckEvents(w, j, r) == TOT_ACKS
    ensures forall j: nat :: j < TOT_NODES ==> r < w.nodes[j].count
  {
    OnceAndCaused(w, F, Msg(Cmt, P(i), i, r));
    OnceAndCaused(w, F, Msg(Cmt, Q(i), i, r));
    OnceAndCaused(w, F, Msg(CmtAck, P(i), i, r));
    OnceAndCaused(w, F, Msg(CmtAck, Q(i), i, r));
    OnceAndCaused(w, F, Msg(Cmt, i, P(i), r));
    FourAcksMean(w, F, i, r);
    forall j: nat | j < TOT_NODES ensures AckEvents(w, j, r) == TOT_ACKS {
      assert j == i || j in Followers(i);
    }
  }

  /** The messages that become due when m is handled. */
  function Due(w: World, m: Msg): seq<Msg>
  {
    var cmts := if AckEvents(w, m.dst, m.rd) == TOT_ACKS - 1 then Broadcast(Cmt, m.dst, m.rd) else [];
    match m.kind
    case Req => [Msg(Ack, m.dst, m.src, m.rd)] + cmts
    case Ack => cmts
    case Cmt => [Msg(CmtAck, m.dst, m.src, m.rd)]
    case CmtAck => []
  }

  predicate CompletesAcks(w: World, m: Msg) {
    (m.kind == Req || m.kind == Ack) && AckEvents(w, m.dst, m.rd) == TOT_ACKS - 1
  }

  predicate IsDue(w: World, m: Msg, x: Msg) {
    || (m.kind == Req && x == Msg(Ack, m.dst, m.src, m.rd))
    || (m.kind == Cmt && x == Msg(CmtAck, m.dst, m.src, m.rd))
    || (CompletesAcks(w, m) && x.kind == Cmt && x.src == m.dst && x.rd == m.rd &&
        (x.dst == P(m.dst) || x.dst == Q(m.dst)))
  }

  lemma DueOnce(w: World, m: Msg, x: Msg)
    ensures multiset(Due(w, m))[x] == Bit(IsDue(w, m, x))
  {
    var cmts := Broadcast(Cmt, m.dst, m.rd);
    assert multiset(cmts) == multiset{cmts[0], cmts[1]};
    var ack := [Msg(Ack, m.dst, m.src, m.rd)];
    assert multiset(ack + cmts) == multiset(ack) + multiset(cmts);
    assert ack + [] == ack;
  }

  function Hit(kind: Kind, i: nat, r: nat, m: Msg): nat {
    Bit(m == Msg(kind, P(i), i, r)) + Bit(m == Msg(kind, Q(i), i, r))
  }

  lemma HitsOnce(kind: Kind, i: nat, r: nat, m: Msg)
    requires i < TOT_NODES && m.src < TOT_NODES && m.src != m.dst
    ensures Hit(kind, i, r, m) == Bit(m.kind == kind && m.dst == i && m.rd == r)
  {
    assert i == m.dst ==> m.src in Followers(i);
  }

  /** Handling m adds one event to its own node and round, and none elsewhere. */
  lemma EventsAfter(w: World, m: Msg, w2: World, i: nat, r: nat)
    requires i < TOT_NODES && m.src < TOT_NODES && m.src != m.dst
    requires w2.dlv == w.dlv + multiset{m}
    ensures AckEvents(w2, i, r) == AckEvents(w, i, r) + Bit((m.kind == Req || m.kind == Ack) && m.dst == i && m.rd == r)
    ensures CmtEvents(w2, i, r) == CmtEvents(w, i, r) + Bit((m.kind == Cmt || m.kind == CmtAck) && m.dst == i && m.rd == r)
  {
    HitsOnce(Req, i, r, m); HitsOnce(Ack, i, r, m); HitsOnce(Cmt, i, r, m); HitsOnce(CmtAck, i, r, m);
    KindAfter(w, m, w2, Req, i, r); KindAfter(w, m, w2, Ack, i, r);
    KindAfter(w, m, w2, Cmt, i, r); KindAfter(w, m, w2, CmtAck, i, r);
  }

  lemma KindAfter(w: World, m: Msg, w2: World, kind: Kind, i: nat, r: nat)
    requires w2.dlv == w.dlv + multiset{m}
    ensures D(w2, kind, P(i), i, r) + D(w2, kind, Q(i), i, r)
         == D(w, kind, P(i), i, r) + D(w, kind, Q(i), i, r) + Hit(kind, i, r, m)
  {
    var a, b := Msg(kind, P(i), i, r), Msg(kind, Q(i), i, r);
    assert w2.dlv[a] == w.dlv[a] + Bit(a == m);
    assert w2.dlv[b] == w.dlv[b] + Bit(b == m);
  }

  lemma EventsBelowFour(w: World, F: nat, m: Msg)
    requires |w.nodes| == TOT_NODES && NetInv(w, F)
    requires m.rd < F && Sent(w, m) && w.dlv[m] == 0
    ensures m.kind == Req || m.kind == Ack ==> AckEvents(w, m.dst, m.rd) < TOT_ACKS
    ensures m.kind == Cmt || m.kind == CmtAck ==> CmtEvents(w, m.dst, m.rd) < TOT_ACKS
  {
    var i, r := m.dst, m.rd;
    assert m.src in Followers(i);
    forall kind: Kind ensures D(w, kind, P(i), i, r) <= 1 && D(w, kind, Q(i), i, r) <= 1 {
      OnceAndCaused(w, F, Msg(kind, P(i), i, r));
      OnceAndCaused(w, F, Msg(kind, Q(i), i, r));
    }
    assert D(w, m.kind, m.src, i, r) == 0;
  }

  lemma CmtSentAfter(w: World, F: nat, m: Msg, w2: World, x: Msg)
    requires |w.nodes| == TOT_NODES == |w2.nodes| && NetInv(w, F)
    requires m.rd < F && x.rd < F && Sent(w, m) && w.dlv[m] == 0
    requires w2.dlv == w.dlv + multiset{m}
    requires x.kind == Cmt && x.src < TOT_NODES && x.dst < TOT_NODES && x.src != x.dst
    ensures Sent(w2, x) <==> Sent(w, x) || IsDue(w, m, x)
    ensures !(Sent(w, x) && IsDue(w, m, x))
  {
    var hit := (m.kind == Req || m.kind == Ack) && m.dst == x.src && m.rd == x.rd;
    assert AckEvents(w2, x.src, x.rd) == AckEvents(w, x.src, x.rd) + Bit(hit) by {
      EventsAfter(w, m, w2, x.src, x.rd);
    }
    assert hit ==> AckEvents(w, x.src, x.rd) < TOT_ACKS by { EventsBelowFour(w, F, m); }
    assert IsDue(w, m, x) <==> hit && AckEvents(w, x.src, x.rd) == TOT_ACKS - 1 by {
      assert x.dst in Followers(x.src);
    }
  }

  lemma EchoSentAfter(w: World, F: nat, m: Msg, w2: World, x: Msg)
    requires |w.nodes| == TOT_NODES == |w2.nodes|
    requires Sent(w, m) && w.dlv[m] == 0
    requires w2.dlv == w.dlv + multiset{m}
    requires (x.kind == Ack || x.kind == CmtAck) && x.src < TOT_NODES && x.dst < TOT_NODES && x.src != x.dst
    ensures Sent(w2, x) <==> Sent(w, x) || IsDue(w, m, x)
    ensures !(Sent(w, x) && IsDue(w, m, x))
  {
    var cause := Msg(if x.kind == Ack then Req else Cmt, x.dst, x.src, x.rd);
    assert w2.dlv[cause] == w.dlv[cause] + Bit(cause == m);
  }

  lemma SentAfter(w: World, F: nat, m: Msg, w2: World, x: Msg)
    requires |w.nodes| == TOT_NODES == |w2.nodes| && NetInv(w, F)
    requires m.rd < F && x.rd < F && Sent(w, m) && w.dlv[m] == 0
    requires w2.dlv == w.dlv + multiset{m}
    requires forall i: nat :: i < TOT_NODES ==> w2.nodes[i].count == w.nodes[i].count
    ensures Sent(w2, x) <==> Sent(w, x) || IsDue(w, m, x)
    ensures !(Sent(w, x) && IsDue(w, m, x))
  {
    if x.src >= TOT_NODES || x.dst >= TOT_NODES || x.src == x.dst {
      assert P(m.dst) in Followers(m.dst) && Q(m.dst) in Followers(m.dst);
    } else if x.kind == Cmt {
      CmtSentAfter(w, F, m, w2, x);
    } else if x.kind != Req {
      EchoSentAfter(w, F, m, w2, x);
    }
  }

  /** Handling m moves it to `dlv` and puts exactly the due messages on the links. */
  lemma DueKeepsNet(w: World, F: nat, m: Msg, w2: World)
    requires |w.nodes| == TOT_NODES == |w2.nodes| && NetInv(w, F)
    requires m in w.net && m.rd < F
    requires w2.net == w.net - multiset{m} + multiset(Due(w, m))
    requires w2.dlv == w.dlv + multiset{m}
    requires forall i: nat :: i < TOT_NODES ==> w2.nodes[i].count == w.nodes[i].count
    ensures NetInv(w2, F)
  {
    OnceAndCaused(w, F, m);
    forall x: Msg | x.rd < F ensures Balanced(w2, x) {
      assert Balanced(w, x);
      DueOnce(w, m, x);
      SentAfter(w, F, m, w2, x);
    }
  }

  // ----- node tables -----

  /** Everything node i knows of round r is untouched by a message that is not for it. */
  lemma EventsElsewhere(w: World, m: Msg, w2: World, i: nat, r: nat)
    requires |w.nodes| == TOT_NODES == |w2.nodes| && i < TOT_NODES
    requires w2.dlv == w.dlv + multiset{m}
    requires w2.nodes[i].count == w.nodes[i].count
    requires m.dst != i || m.rd != r
    ensures AckEvents(w2, i, r) == AckEvents(w, i, r) && CmtEvents(w2, i, r) == CmtEvents(w, i, r)
    ensures Known(w2, i, r) == Known(w, i, r) && SenderKeys(w2, i, r) == SenderKeys(w, i, r)
  {
    KindAfter(w, m, w2, Req, i, r); KindAfter(w, m, w2, Ack, i, r);
    KindAfter(w, m, w2, Cmt, i, r); KindAfter(w, m, w2, CmtAck, i, r);
  }

  lemma KnownAfter(w: World, m: Msg, w2: World, i: nat, r: nat)
    requires |w.nodes| == TOT_NODES == |w2.nodes| && i < TOT_NODES
    requires m.src < TOT_NODES && m.src != m.dst
    requires w2.dlv == w.dlv + multiset{m}
    requires w2.nodes[i].count == w.nodes[i].count
    ensures var hit := m.kind == Req && m.dst == i && m.rd == r;
            Known(w2, i, r) == (Known(w, i, r) || hit) &&
            SenderKeys(w2, i, r) == SenderKeys(w, i, r) + (if hit then {0} else {})
  {
    KindAfter(w, m, w2, Req, i, r);
    HitsOnce(Req, i, r, m);
  }

  /** An unknown round has no events at all. */
  lemma UnknownRound(w: World, F: nat, i: nat, r: nat)
    requires |w.nodes| == TOT_NODES && NetInv(w, F) && i < TOT_NODES && r < F
    requires w.nodes[i].count <= r
    ensures D(w, Ack, P(i), i, r) == D(w, Ack, Q(i), i, r) == 0
    ensures CmtEvents(w, i, r) == 0
  {
    forall j: nat | j in Followers(i)
      ensures D(w, Ack, j, i, r) == 0 && D(w, Cmt, j, i, r) == 0 && D(w, CmtAck, j, i, r) == 0
    {
      OnceAndCaused(w, F, Msg(Req, i, j, r));
      OnceAndCaused(w, F, Msg(Ack, j, i, r));
      OnceAndCaused(w, F, Msg(Cmt, j, i, r));
      if AckEvents(w, j, r) == TOT_ACKS { FourAcksMean(w, F, j, r); }
      OnceAndCaused(w, F, Msg(Cmt, i, j, r));
      if AckEvents(w, i, r) == TOT_ACKS { FourAcksMean(w, F, i, r); }
      OnceAndCaused(w, F, Msg(CmtAck, j, i, r));
    }
    assert P(i) in Followers(i) && Q(i) in Followers(i);
  }

  /** The round of a message about to be handled: below its commit point and, unless
      the message is a batch, present in the table of the node that handles it. */
  lemma RoundIsLive(w: World, F: nat, m: Msg)
    requires Inv(w, F) && m in w.net && m.rd < F
    ensures m.dst < TOT_NODES && w.nodes[m.dst].cmtRd < m.rd
    ensures m.kind != Req ==> m.rd in w.nodes[m.dst].protoMeta && m.rd < w.nodes[m.dst].count
    ensures m.rd !in w.nodes[m.dst].protoMeta ==>
              AckEvents(w, m.dst, m.rd) == 0 == CmtEvents(w, m.dst, m.rd) && SenderKeys(w, m.dst, m.rd) == {}
  {
    OnceAndCaused(w, F, m);
    var i, r := m.dst, m.rd;
    assert NodeInv(w, i, F);
    assert EntryInv(w, i, r);
    EventsBelowFour(w, F, m);
    if CmtEvents(w, i, r) == TOT_ACKS { FourCommitsMean(w, F, i, r); }
    match m.kind {
      case Req =>
      case Ack => OnceAndCaused(w, F, Msg(Req, i, m.src, r));
      case Cmt => FourAcksMean(w, F, m.src, r);
      case CmtAck =>
        OnceAndCaused(w, F, Msg(Cmt, i, m.src, r));
        FourAcksMean(w, F, i, r);
    }
    if r !in w.nodes[i].protoMeta { UnknownRound(w, F, i, r); }
  }

  predicate IsAckEvent(m: Msg) { m.kind == Req || m.kind == Ack }

  function EntryOr0(ms: Rounds, rd: nat): Metadata {
    if rd in ms then ms[rd] else Metadata(0, 0, false, {})
  }

  function AfterAck(e: Metadata, m: Msg): Metadata {
    Metadata(e.nbAcks + 1, e.nbCmts, e.underCommit || e.nbAcks + 1 == TOT_ACKS,
             e.senders + (if m.kind == Req then {0} else {}))
  }

  /** What the two ack-counting handlers do to the table and to the links. */
  lemma AckHandlerEffect(n: Node, m: Msg)
    requires IsAckEvent(m) && Handle(n, m).Next?
    ensures var n2, out, e := Handle(n, m).node, Handle(n, m).out, EntryOr0(n.protoMeta, m.rd);
            && n2 == n.(protoMeta := n.protoMeta[m.rd := AfterAck(e, m)])
            && out == (if m.kind == Req then [Msg(Ack, n.id, m.src, m.rd)] else []) +
                      (if e.nbAcks + 1 == TOT_ACKS && !e.underCommit then Broadcast(Cmt, n.id, m.rd) else [])
  {
    var e := EntryOr0(n.protoMeta, m.rd);
    var ms := BumpAcks(if m.kind == Req then AddRecvReq(n.protoMeta, 0, m.rd) else n.protoMeta, m.rd);
    assert e.senders + {} == e.senders;
    assert {} + {0 as nat} == {0 as nat};
    assert ms == n.protoMeta[m.rd := e.(nbAcks := e.nbAcks + 1, senders := AfterAck(e, m).senders)];
    assert MarkCommit(ms, m.rd) == n.protoMeta[m.rd := AfterAck(e, m)];
  }

  /** The state after handling m. */
  function Handled(w: World, m: Msg, n: Node, out: seq<Msg>): World
    requires m.dst < |w.nodes|
  {
    World(w.nodes[m.dst := n], w.net - multiset{m} + multiset(out), w.dlv + multiset{m})
  }

  /** A batch or an ack only touches the entry of its own round. */
  lemma AckHandlerKeepsEntry(w: World, F: nat, m: Msg, w2: World, i: nat, r: nat)
    requires Inv(w, F) && m in w.net && m.dst < TOT_NODES && IsAckEvent(m)
    requires i < TOT_NODES && r < F
    requires var n := w.nodes[m.dst];
             && |w2.nodes| == TOT_NODES && w2.dlv == w.dlv + multiset{m}
             && w2.nodes == w.nodes[m.dst := n.(protoMeta := n.protoMeta[m.rd := AfterAck(EntryOr0(n.protoMeta, m.rd), m)])]
    ensures EntryInv(w2, i, r)
  {
    assert NodeInv(w, i, F);
    assert EntryInv(w, i, r);
    if i != m.dst || r != m.rd {
      EventsElsewhere(w, m, w2, i, r);
    } else {
      AckCountedOnce(w, F, m, w2);
    }
  }

  lemma AckCountedOnce(w: World, F: nat, m: Msg, w2: World)
    requires Inv(w, F) && m in w.net && m.rd < F && m.dst < TOT_NODES && IsAckEvent(m)
    requires var n := w.nodes[m.dst];
             && |w2.nodes| == TOT_NODES && w2.dlv == w.dlv + multiset{m}
             && w2.nodes == w.nodes[m.dst := n.(protoMeta := n.protoMeta[m.rd := AfterAck(EntryOr0(n.protoMeta, m.rd), m)])]
    ensures EntryInv(w2, m.dst, m.rd)
  {
    var i, r := m.dst, m.rd;
    var e := EntryOr0(w.nodes[i].protoMeta, r);
    assert NodeInv(w, i, F);
    assert EntryInv(w, i, r);
    RoundIsLive(w, F, m);
    OnceAndCaused(w, F, m);
    EventsBelowFour(w, F, m);
    assert e == Metadata(AckEvents(w, i, r), CmtEvents(w, i, r), false, SenderKeys(w, i, r));
    EventsAfter(w, m, w2, i, r);
    KnownAfter(w, m, w2, i, r);
  }

  // ----- the two commit-counting handlers -----

  /** The table just before the drain: one commit event more for the round of m. */
  function Counted(n: Node, m: Msg): Rounds
    requires m.rd in n.protoMeta
  {
    BumpCmts(n.protoMeta, m.rd)
  }

  /** After counting, and before draining, only the commit count of (m.dst, m.rd) moved. */
  lemma CommitCounted(w: World, F: nat, m: Msg, w2: World, r: nat)
    requires Inv(w, F) && m in w.net && m.dst < TOT_NODES && !IsAckEvent(m) && r < F
    requires m.rd in w.nodes[m.dst].protoMeta
    requires |w2.nodes| == TOT_NODES && w2.dlv == w.dlv + multiset{m}
    requires w2.nodes[m.dst].count == w.nodes[m.dst].count
    ensures TableInv(w2, m.dst, w.nodes[m.dst].cmtRd, Counted(w.nodes[m.dst], m), r)
  {
    var i := m.dst;
    assert NodeInv(w, i, F);
    assert EntryInv(w, i, r);
    if r != m.rd {
      EventsElsewhere(w, m, w2, i, r);
    } else {
      RoundIsLive(w, F, m);
      OnceAndCaused(w, F, m);
      EventsBelowFour(w, F, m);
      EventsAfter(w, m, w2, i, r);
      KnownAfter(w, m, w2, i, r);
    }
  }

  /** The drain stops at the first incomplete round: `cur_rd` never holds back a complete one. */
  lemma DrainReachesEnd(w: World, F: nat, i: nat, c: LastRound, ms: Rounds, c2: LastRound)
    requires |w.nodes| == TOT_NODES && NetInv(w, F) && i < TOT_NODES
    requires w.nodes[i].curRd == (if w.nodes[i].count == 0 then 0 else w.nodes[i].count - 1)
    requires c <= c2 && c2 + 1 < F && TableInv(w, i, c, ms, c2 + 1)
    requires c2 < w.nodes[i].curRd ==> !Complete(ms, c2 + 1)
    ensures CmtEvents(w, i, c2 + 1) < TOT_ACKS
  {
    assert CmtEvents(w, i, c2 + 1) == TOT_ACKS ==> c2 + 1 < w.nodes[i].count by {
      if CmtEvents(w, i, c2 + 1) == TOT_ACKS { FourCommitsMean(w, F, i, c2 + 1); }
    }
  }

  lemma DrainKeepsTable(w: World, i: nat, c: LastRound, cur: int, ms: Rounds, r: nat)
    requires |w.nodes| == TOT_NODES && i < TOT_NODES && TableInv(w, i, c, ms, r)
    ensures TableInv(w, i, Drain(c, cur, ms).0, Drain(c, cur, ms).1, r)
  {
    DrainIsMaximal(c, cur, ms);
    assert c < r <= Drain(c, cur, ms).0 ==> Complete(ms, r);
  }

  /** The drained table of node i, from the table with the new commit event counted. */
  lemma DrainedEntry(w: World, F: nat, i: nat, c: LastRound, ms: Rounds, r: nat)
    requires |w.nodes| == TOT_NODES && NetInv(w, F) && i < TOT_NODES && r < F
    requires w.nodes[i].curRd == (if w.nodes[i].count == 0 then 0 else w.nodes[i].count - 1)
    requires (w.nodes[i].cmtRd, w.nodes[i].protoMeta) == Drain(c, w.nodes[i].curRd, ms)
    requires TableInv(w, i, c, ms, r)
    ensures EntryInv(w, i, r)
  {
    var c2, cur := w.nodes[i].cmtRd, w.nodes[i].curRd;
    DrainKeepsTable(w, i, c, cur, ms, r);
    if r == c2 + 1 {
      assert c <= c2 && (c2 < cur ==> !Complete(ms, c2 + 1)) by { DrainIsMaximal(c, cur, ms); }
      DrainReachesEnd(w, F, i, c, ms, c2);
    }
  }

  /** A commit or a commit-ack keeps every entry invariant, through the drain. */
  lemma CmtHandlerKeepsEntry(w: World, F: nat, m: Msg, w2: World, i: nat, r: nat)
    requires Inv(w, F) && m in w.net && m.dst < TOT_NODES && !IsAckEvent(m)
    requires m.rd in w.nodes[m.dst].protoMeta
    requires |w2.nodes| == TOT_NODES && w2.dlv == w.dlv + multiset{m} && NetInv(w2, F)
    requires w2.nodes == w.nodes[m.dst := CountCmt(w.nodes[m.dst], m.rd)]
    requires i < TOT_NODES && r < F
    ensures EntryInv(w2, i, r)
  {
    assert NodeInv(w, i, F);
    if i != m.dst {
      assert EntryInv(w, i, r);
      EventsElsewhere(w, m, w2, i, r);
    } else {
      var n := w.nodes[i];
      CommitCounted(w, F, m, w2, r);
      DrainedEntry(w2, F, i, n.cmtRd, Counted(n, m), r);
    }
  }

  // ----- steps at or beyond F -----

  /** No handler touches another round's entry, or sends for another round. */
  lemma HandlerStaysInRound(n: Node, m: Msg)
    requires Handle(n, m).Next?
    ensures var n2, out := Handle(n, m).node, Handle(n, m).out;
            && (forall x :: x in out ==> x.rd == m.rd)
            && n2 == n.(protoMeta := n2.protoMeta, cmtRd := n2.cmtRd)
  {
    if IsAckEvent(m) { AckHandlerEffect(n, m); }
  }

  lemma LateMessageKeepsNet(w: World, F: nat, m: Msg, n: Node, out: seq<Msg>)
    requires |w.nodes| == TOT_NODES && NetInv(w, F) && m in w.net && m.dst < TOT_NODES && F <= m.rd
    requires forall x :: x in out ==> x.rd == m.rd
    requires n.count == w.nodes[m.dst].count
    ensures NetInv(Handled(w, m, n, out), F)
  {
    var w2 := Handled(w, m, n, out);
    forall x: Msg | x.rd < F ensures Balanced(w2, x) {
      assert Balanced(w, x);
      assert multiset(out)[x] == 0;
      SameBelow(w, F, m, w2, x);
    }
  }

  lemma SameBelow(w: World, F: nat, m: Msg, w2: World, x: Msg)
    requires |w.nodes| == TOT_NODES == |w2.nodes| && x.rd < F <= m.rd
    requires w2.dlv == w.dlv + multiset{m}
    requires forall i: nat :: i < TOT_NODES ==> w2.nodes[i].count == w.nodes[i].count
    ensures Sent(w2, x) == Sent(w, x)
  {
    if x.src < TOT_NODES { EventsElsewhere(w, m, w2, x.src, x.rd); }
  }

  lemma DeliverKeepsNet(w: World, F: nat, m: Msg)
    requires Inv(w, F) && Enabled(w, Deliver(m)) && Handle(w.nodes[m.dst], m).Next?
    ensures NetInv(Apply(w, Deliver(m)).value, F)
  {
    var n := w.nodes[m.dst];
    var n2, out := Handle(n, m).node, Handle(n, m).out;
    HandlerStaysInRound(n, m);
    if m.rd < F {
      assert out == Due(w, m) by { SendsWhatIsDue(w, F, m); }
      DueKeepsNet(w, F, m, Handled(w, m, n2, out));
    } else {
      LateMessageKeepsNet(w, F, m, n2, out);
    }
  }

  lemma SendsWhatIsDue(w: World, F: nat, m: Msg)
    requires Inv(w, F) && m in w.net && m.rd < F
    ensures m.dst < TOT_NODES && Handle(w.nodes[m.dst], m).Next? && Handle(w.nodes[m.dst], m).out == Due(w, m)
    ensures IsAckEvent(m) ==> !EntryOr0(w.nodes[m.dst].protoMeta, m.rd).underCommit
  {
    RoundIsLive(w, F, m);
    OnceAndCaused(w, F, m);
    EventsBelowFour(w, F, m);
    var n := w.nodes[m.dst];
    assert NodeInv(w, m.dst, F);
    assert EntryInv(w, m.dst, m.rd);
    if IsAckEvent(m) { AckHandlerEffect(n, m); }
  }

  lemma DeliverKeepsInv(w: World, F: nat, m: Msg)
    requires Inv(w, F) && Enabled(w, Deliver(m)) && Apply(w, Deliver(m)).Some?
    ensures Inv(Apply(w, Deliver(m)).value, F)
  {
    DeliverKeepsNet(w, F, m);
    var w2 := Apply(w, Deliver(m)).value;
    HandlerStaysInRound(w.nodes[m.dst], m);
    forall i: nat | i < TOT_NODES ensures NodeInv(w2, i, F) {
      assert NodeInv(w, i, F);
      forall r: nat | r < F ensures EntryInv(w2, i, r) {
        if IsAckEvent(m) {
          AckHandlerEffect(w.nodes[m.dst], m);
          AckHandlerKeepsEntry(w, F, m, w2, i, r);
        } else {
          CmtHandlerKeepsEntry(w, F, m, w2, i, r);
        }
      }
    }
  }

  // ----- sending -----

  /** Node i ships its batch of round `count` to both peers. */
  lemma BroadcastKeepsNet(w: World, F: nat, i: nat, n: Node)
    requires Inv(w, F) && i < TOT_NODES && n.count == w.nodes[i].count + 1
    ensures NetInv(Sending(w, i, (n, Broadcast(Req, i, w.nodes[i].count))), F)
  {
    var r, out := w.nodes[i].count, Broadcast(Req, i, w.nodes[i].count);
    var w2 := Sending(w, i, (n, out));
    assert multiset(out) == multiset{out[0], out[1]};
    forall x: Msg | x.rd < F ensures Balanced(w2, x) {
      assert Balanced(w, x);
      if x.kind == Req && x.src == i && x.rd == r {
        assert x.dst in Followers(i) <==> x.dst == P(i) || x.dst == Q(i);
      }
      assert x.kind == Cmt ==> AckEvents(w2, x.src, x.rd) == AckEvents(w, x.src, x.rd);
    }
  }

  lemma BroadcastKeepsOthers(w: World, F: nat, i: nat, n: Node, out: seq<Msg>, j: nat, r: nat)
    requires Inv(w, F) && i < TOT_NODES && j < TOT_NODES && r < F
    requires n.cmtRd == w.nodes[i].cmtRd
    requires r in n.protoMeta <==> r in w.nodes[i].protoMeta
    requires r in n.protoMeta ==> n.protoMeta[r] == w.nodes[i].protoMeta[r]
    requires r < n.count <==> r < w.nodes[i].count
    ensures EntryInv(Sending(w, i, (n, out)), j, r)
  {
    assert NodeInv(w, j, F);
    assert EntryInv(w, j, r);
    var w2 := Sending(w, i, (n, out));
    assert AckEvents(w2, j, r) == AckEvents(w, j, r) && CmtEvents(w2, j, r) == CmtEvents(w, j, r);
    assert Known(w2, j, r) == Known(w, j, r) && SenderKeys(w2, j, r) == SenderKeys(w, j, r);
  }

  /** The entry a node makes when it ships a round, whether or not a peer's batch came first. */
  lemma ShippedEntry(w: World, F: nat, i: nat, n: Node, out: seq<Msg>)
    requires Inv(w, F) && i < TOT_NODES && w.nodes[i].count < F
    requires n.cmtRd == w.nodes[i].cmtRd && n.count == w.nodes[i].count + 1
    requires n.protoMeta == AddRecvReq(w.nodes[i].protoMeta, i, w.nodes[i].count)
    ensures EntryInv(Sending(w, i, (n, out)), i, w.nodes[i].count)
  {
    var r, w2 := w.nodes[i].count, Sending(w, i, (n, out));
    assert NodeInv(w, i, F);
    assert EntryInv(w, i, r);
    UnknownRound(w, F, i, r);
    assert AckEvents(w2, i, r) == AckEvents(w, i, r) && CmtEvents(w2, i, r) == CmtEvents(w, i, r);
    assert SenderKeys(w2, i, r) == SenderKeys(w, i, r) + {i};
  }

  lemma SubmitKeepsInv(w: World, F: nat, i: nat)
    requires Inv(w, F) && i < TOT_NODES
    ensures Inv(Apply(w, Submit(i)).value, F)
  {
    var w2 := Apply(w, Submit(i)).value;
    assert NodeInv(w, i, F);
    var n, out := SendReq(w.nodes[i]).0, SendReq(w.nodes[i]).1;
    if w.nodes[i].curIdx < BATCH_COUNT {
      assert multiset(out) == multiset{};
      forall x: Msg | x.rd < F ensures Balanced(w2, x) {
        assert Balanced(w, x);
        assert x.kind == Cmt ==> AckEvents(w2, x.src, x.rd) == AckEvents(w, x.src, x.rd);
      }
    } else {
      BroadcastKeepsNet(w, F, i, n);
    }
    forall j: nat | j < TOT_NODES ensures NodeInv(w2, j, F) {
      assert NodeInv(w, j, F);
      forall r: nat | r < F ensures EntryInv(w2, j, r) {
        if j == i && r == w.nodes[i].count && n.count == r + 1 { ShippedEntry(w, F, i, n, out); }
        else if r == w.nodes[i].count && n.count == r + 1 { ShippedElsewhere(w, F, i, n, out, j, r); }
        else { BroadcastKeepsOthers(w, F, i, n, out, j, r); }
      }
    }
  }

  lemma ShippedElsewhere(w: World, F: nat, i: nat, n: Node, out: seq<Msg>, j: nat, r: nat)
    requires Inv(w, F) && i < TOT_NODES && j < TOT_NODES && j != i && r < F
    ensures EntryInv(Sending(w, i, (n, out)), j, r)
  {
    assert NodeInv(w, j, F);
    assert EntryInv(w, j, r);
    var w2 := Sending(w, i, (n, out));
    assert AckEvents(w2, j, r) == AckEvents(w, j, r) && CmtEvents(w2, j, r) == CmtEvents(w, j, r);
  }

  lemma FlushKeepsInv(w: World, F: nat, i: nat)
    requires Inv(w, F) && i < TOT_NODES && F <= w.nodes[i].count
    ensures Inv(Apply(w, Flush(i)).value, F)
  {
    var w2 := Apply(w, Flush(i)).value;
    assert NodeInv(w, i, F);
    var n, out := FlashBatcher(w.nodes[i]).0, FlashBatcher(w.nodes[i]).1;
    BroadcastKeepsNet(w, F, i, n);
    forall j: nat | j < TOT_NODES ensures NodeInv(w2, j, F) {
      assert NodeInv(w, j, F);
      forall r: nat | r < F ensures EntryInv(w2, j, r) { BroadcastKeepsOthers(w, F, i, n, out, j, r); }
    }
  }

  lemma InitInv(F: nat)
    ensures Inv(Init, F)
  {
    forall i: nat | i < TOT_NODES ensures NodeInv(Init, i, F) {}
    forall x: Msg | x.rd < F ensures Balanced(Init, x) {}
  }

  /** Every step that does not flush a round below F keeps the invariant. */
  lemma StepKeepsInv(w: World, F: nat, s: Step)
    requires Inv(w, F) && Enabled(w, s) && Apply(w, s).Some?
    requires s.Flush? ==> F <= w.nodes[s.i].count
    ensures Inv(Apply(w, s).value, F)
  {
    match s
    case Submit(i) => SubmitKeepsInv(w, F, i);
    case Flush(i) => FlushKeepsInv(w, F, i);
    case Deliver(m) => DeliverKeepsInv(w, F, m);
  }

  lemma {:induction false} RunKeepsInv(ws: seq<World>, ss: seq<Step>, F: nat, k: nat)
    requires Run(ws, ss) && FlushFree(ws, ss, F) && k < |ws|
    ensures Inv(ws[k], F)
  {
    if k == 0 {
      InitInv(F);
    } else {
      RunKeepsInv(ws, ss, F, k - 1);
      var w, s := ws[k - 1], ss[k - 1];
      assert Enabled(w, s) && Apply(w, s) == Some(ws[k]) by { assert StepOk(ws, ss, k - 1); }
      assert FlushOk(w, s, F);
      StepKeepsInv(w, F, s);
    }
  }
}
