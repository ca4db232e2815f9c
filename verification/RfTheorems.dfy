/** What holds of every run of `rf`, in every delivery order. */
module RfTheorems {
  import opened Bytes
  import opened RfBatcher
  import opened RfProtocol

  /** The pending map always holds exactly the keys acked by exactly one follower. */
  lemma PendingIsHalfAcked(n: nat, steps: seq<Step>, k: int)
    requires KeysOk(n)
    ensures var w := Exec(n, steps);
            && (k in w.leader.prpAcks <==> Acks(w, k) == 1)
            && Acks(w, k) <= 2
            && (k in w.leader.prpAcks ==> exists j: nat :: j < NumBatches(n) && Key(n, j) == k)
  {
    ExecKeepsInv(n, steps);
    var w := Exec(n, steps);
    var c := Shipped(n, w.leader);
    OnceAndCaused(n, w, c, PrpAck(1, k));
    OnceAndCaused(n, w, c, PrpAck(2, k));
    assert MapsAt(w, k);
  }

  /** Quorum: a commit is on a link only after both followers have handled the batch, and no
      commit, or any other message, is ever sent twice. */
  lemma CommitNeedsBothFollowers(n: nat, steps: seq<Step>, j: nat, f: nat)
    requires KeysOk(n) && j < NumBatches(n)
    ensures var w, b, k := Exec(n, steps), Batch(n, j), Key(n, j);
            && w.net[Cmt(f, k)] + w.dlv[Cmt(f, k)] <= 1
            && (Cmt(f, k) in w.net || Cmt(f, k) in w.dlv ==>
                  w.dlv[Prp(1, b)] == 1 == w.dlv[Prp(2, b)] && Acks(w, k) == 2)
  {
    ExecKeepsInv(n, steps);
    var w, c, k := Exec(n, steps), Shipped(n, Exec(n, steps).leader), Key(n, j);
    assert Balanced(n, w, c, Cmt(f, k));
    OnceAndCaused(n, w, c, Cmt(f, k));
    if Cmt(f, k) in w.net || Cmt(f, k) in w.dlv {
      AckMeansHandled(n, w, c, 1, j);
      AckMeansHandled(n, w, c, 2, j);
    }
  }

  lemma AckMeansHandled(n: nat, w: World, c: nat, f: nat, j: nat)
    requires KeysOk(n) && c <= NumBatches(n) && NetInv(n, w, c) && j < NumBatches(n) && (f == 1 || f == 2)
    requires Acks(w, Key(n, j)) == 2
    ensures w.dlv[Prp(f, Batch(n, j))] == 1
  {
    OnceAndCaused(n, w, c, PrpAck(1, Key(n, j)));
    OnceAndCaused(n, w, c, PrpAck(2, Key(n, j)));
    var i: nat :| i < c && Key(n, i) == Key(n, j) && w.dlv[Prp(f, Batch(n, i))] > 0;
    if i != j { KeysAreDistinct(n, i, j); }
    OnceAndCaused(n, w, c, Prp(f, Batch(n, j)));
  }

  /** `update_prp_acks` asks for the commit of key k in this step. */
  predicate Fires(n: nat, w: World, s: Step, k: int) {
    Enabled(n, w, s) && s.Deliver? && s.m.PrpAck? && s.m.k == k && UpdatePrpAcks(w.leader, k).1
  }

  function Firings(n: nat, steps: seq<Step>, k: int): nat
    decreases |steps|
  {
    if steps == [] then 0
    else Firings(n, steps[..|steps| - 1], k) + Bit(Fires(n, Exec(n, steps[..|steps| - 1]), steps[|steps| - 1], k))
  }

  lemma FiringMakesTwo(n: nat, w: World, s: Step, k: int)
    requires KeysOk(n) && Inv(n, w) && Enabled(n, w, s)
    ensures Bit(Acks(Do(w, s), k) == 2) == Bit(Acks(w, k) == 2) + Bit(Fires(n, w, s, k))
  {
    if s.Deliver? {
      var c := Shipped(n, w.leader);
      assert Sent(n, w, c, s.m) && w.dlv[s.m] == 0 by { OnceAndCaused(n, w, c, s.m); }
      AcksAfter(n, w, c, s.m, Do(w, s), k);
      assert MapsAt(w, k);
    }
  }

  /** `send_cmt` runs once per batch whose both acks have been processed, and never otherwise. */
  lemma {:induction false} CommitsOnce(n: nat, steps: seq<Step>, k: int)
    requires KeysOk(n)
    ensures Firings(n, steps, k) == Bit(Acks(Exec(n, steps), k) == 2)
    decreases |steps|
  {
    if steps != [] {
      var before, s := steps[..|steps| - 1], steps[|steps| - 1];
      CommitsOnce(n, before, k);
      ExecKeepsInv(n, before);
      if Enabled(n, Exec(n, before), s) { FiringMakesTwo(n, Exec(n, before), s, k); }
    }
  }

  /** The erase in `update_cmt_acks` hits `prp_acks` where the key is already absent, so a
      commit-ack never changes the pending map. */
  lemma CrossEraseIsHarmless(n: nat, steps: seq<Step>, f: nat, k: int)
    requires KeysOk(n) && CmtAck(f, k) in Exec(n, steps).net
    ensures var l := Exec(n, steps).leader;
            k !in l.prpAcks && UpdateCmtAcks(l, k).0.prpAcks == l.prpAcks
  {
    ExecKeepsInv(n, steps);
    var w := Exec(n, steps);
    CommitMeansBothAcked(n, w, Shipped(n, w.leader), f, k);
    assert MapsAt(w, k);
    assert w.leader.prpAcks - {k} == w.leader.prpAcks;
  }

  /** At quiescence nothing is pending and every batch's commit has been acked. */
  lemma QuiescentMaps(n: nat, steps: seq<Step>, k: int)
    requires KeysOk(n) && Exec(n, steps).leader.flushed && Exec(n, steps).net == multiset{}
    ensures var l := Exec(n, steps).leader;
            && l.prpAcks == map[]
            && (k in l.cmtAcks <==> exists j: nat :: j < NumBatches(n) && Key(n, j) == k)
            && (k in l.cmtAcks ==> l.cmtAcks[k] == 1)
  {
    ExecKeepsInv(n, steps);
    var w := Exec(n, steps);
    forall x: int ensures x !in w.leader.prpAcks {
      QuiescentKey(n, w, x);
      assert MapsAt(w, x);
    }
    QuiescentKey(n, w, k);
    assert MapsAt(w, k);
  }

  lemma QuiescentKey(n: nat, w: World, k: int)
    requires KeysOk(n) && NetInv(n, w, NumBatches(n)) && w.net == multiset{}
    ensures CmtAcks(w, k) == Acks(w, k) == 2 * Bit(exists j: nat :: j < NumBatches(n) && Key(n, j) == k)
  {
    var c := NumBatches(n);
    forall f: nat | f == 1 || f == 2
      ensures w.dlv[PrpAck(f, k)] == Bit(exists j: nat :: j < NumBatches(n) && Key(n, j) == k)
    {
      assert Balanced(n, w, c, PrpAck(f, k));
      forall j: nat | j < NumBatches(n) ensures w.dlv[Prp(f, Batch(n, j))] == 1 {
        assert Balanced(n, w, c, Prp(f, Batch(n, j)));
        assert IsShipped(n, c, Batch(n, j));
      }
    }
    forall f: nat | f == 1 || f == 2 ensures w.dlv[CmtAck(f, k)] == Bit(Acks(w, k) == 2) {
      assert Balanced(n, w, c, Cmt(f, k)) && Balanced(n, w, c, CmtAck(f, k));
    }
  }
}
