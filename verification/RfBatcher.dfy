/** Batching in `rf`: the leader's 16-slot buffer, the batches it ships, and the index pair
    a follower parses out of a batch. */
module RfBatcher {
  import opened Bytes

  const BATCH_COUNT: nat := 16
  const MSG_SIZE: nat := 64    // sizeof(msg)

  /** The requests lo, lo + 1, ..., hi - 1. */
  function Range(lo: nat, hi: nat): (r: seq<nat>)
    requires lo <= hi
    ensures |r| == hi - lo
  {
    seq(hi - lo, i requires 0 <= i => lo + i)
  }

  function Flatten(bs: seq<seq<nat>>): seq<nat> {
    if bs == [] then [] else Flatten(bs[..|bs| - 1]) + bs[|bs| - 1]
  }

  /** How many batches a run of n requests ships; a run of none still flushes once. */
  function NumBatches(n: nat): nat {
    if n == 0 then 1 else (n + BATCH_COUNT - 1) / BATCH_COUNT
  }

  /** The j-th batch of a run of n requests. */
  function Batch(n: nat, j: nat): (b: seq<nat>)
    requires j < NumBatches(n)
  {
    Range(BATCH_COUNT * j, if BATCH_COUNT * (j + 1) <= n then BATCH_COUNT * (j + 1) else n)
  }

  function Batches(n: nat, k: nat): (bs: seq<seq<nat>>)
    requires k <= NumBatches(n)
    ensures |bs| == k
    ensures forall j :: 0 <= j < k ==> bs[j] == Batch(n, j)
  {
    if k == 0 then [] else Batches(n, k - 1) + [Batch(n, k - 1)]
  }

  /** The slots hold the request ids of the buffered messages; the rest of each message is not modelled. */
  class MsgManager {
    const buffer: array<nat>
    var curIdx: nat

    constructor ()
      ensures Valid() && Buffered() == [] && fresh(buffer)
    {
      buffer := new nat[BATCH_COUNT](_ => 0);
      curIdx := 0;
    }

    ghost predicate Valid()
      reads this
    {
      buffer.Length == BATCH_COUNT && curIdx <= BATCH_COUNT
    }

    ghost function Buffered(): seq<nat>
      requires Valid()
      reads this, buffer
    {
      buffer[..curIdx]
    }

    method EnqueueReq(idx: nat) returns (ok: bool)
      requires Valid()
      modifies this`curIdx, buffer
      ensures Valid()
      ensures ok <==> |old(Buffered())| < BATCH_COUNT
      ensures Buffered() == if ok then old(Buffered()) + [idx] else old(Buffered())
    {
      if curIdx < BATCH_COUNT {
        buffer[curIdx] := idx;
        curIdx := curIdx + 1;
        return true;
      }
      return false;
    }

    /** Only the fill level is reset; old messages stay in the slots. */
    method EmptyBuff()
      requires Valid()
      modifies this`curIdx
      ensures Valid() && Buffered() == []
    {
      curIdx := 0;
    }
  }

  /** The leader's sending side; `sent` lists the batches put on each follower's link. */
  class LeaderContext {
    const batcher: MsgManager
    var sent: seq<seq<nat>>

    constructor ()
      ensures Valid() && fresh(batcher) && fresh(batcher.buffer)
      ensures sent == [] && batcher.Buffered() == []
    {
      batcher := new MsgManager();
      sent := [];
    }

    ghost predicate Valid()
      reads this, batcher
    {
      batcher.Valid()
    }

    method SendReq(idx: nat)
      requires Valid()
      modifies this`sent, batcher, batcher.buffer
      ensures Valid()
      ensures |old(batcher.Buffered())| < BATCH_COUNT ==>
                sent == old(sent) && batcher.Buffered() == old(batcher.Buffered()) + [idx]
      ensures |old(batcher.Buffered())| == BATCH_COUNT ==>
                sent == old(sent) + [old(batcher.Buffered())] && batcher.Buffered() == [idx]
    {
      var ok := batcher.EnqueueReq(idx);
      if !ok {
        sent := sent + [batcher.buffer[..BATCH_COUNT]];
        batcher.EmptyBuff();
        ok := batcher.EnqueueReq(idx);
      }
    }

    method FlashBatcher()
      requires Valid()
      modifies this`sent
      ensures Valid() && sent == old(sent) + [batcher.Buffered()]
    {
      sent := sent + [batcher.buffer[..batcher.curIdx]];
    }

    /** The whole sending run of `leader_func`: the batches shipped are exactly those of n. */
    method LeaderFunc(n: nat)
      requires Valid() && sent == [] && batcher.Buffered() == []
      modifies this`sent, batcher, batcher.buffer
      ensures Valid() && sent == Batches(n, NumBatches(n))
    {
      for i := 0 to n
        invariant Valid()
        invariant |sent| == FullBefore(i) && sent == Batches(n, FullBefore(i))
        invariant batcher.Buffered() == Range(BATCH_COUNT * FullBefore(i), i)
      {
        FullBeforeStep(n, i);
        SendReq(i);
      }
      FlashBatcher();
      assert sent[..|sent| - 1] == Batches(n, FullBefore(n));
    }
  }

  /** Batches shipped before request i is sent: a full buffer waits for the next request. */
  function FullBefore(i: nat): (k: nat)
    ensures BATCH_COUNT * k <= i <= BATCH_COUNT * (k + 1)
  {
    if i == 0 then 0 else (i - 1) / BATCH_COUNT
  }

  lemma FullBeforeStep(n: nat, i: nat)
    requires i < n
    ensures FullBefore(i) < NumBatches(n) && FullBefore(i + 1) < NumBatches(n)
    ensures FullBefore(i + 1) == FullBefore(i) + (if i == BATCH_COUNT * (FullBefore(i) + 1) then 1 else 0)
  {
  }

  // ----- batching is lossless -----

  lemma {:induction false} BatchesFlatten(n: nat, k: nat)
    requires k <= NumBatches(n)
    ensures Flatten(Batches(n, k)) == Range(0, if BATCH_COUNT * k <= n then BATCH_COUNT * k else n)
  {
    if k > 0 {
      BatchesFlatten(n, k - 1);
      assert Batches(n, k)[..k - 1] == Batches(n, k - 1) && Batches(n, k)[k - 1] == Batch(n, k - 1);
      RangesJoin(BATCH_COUNT * (k - 1), if BATCH_COUNT * k <= n then BATCH_COUNT * k else n);
    }
  }

  lemma RangesJoin(a: nat, b: nat)
    requires a <= b
    ensures Range(0, a) + Range(a, b) == Range(0, b)
  {
  }

  /** Nothing is lost, duplicated or reordered, and every batch but the last is full. */
  lemma BatchingIsLossless(n: nat)
    ensures Flatten(Batches(n, NumBatches(n))) == Range(0, n)
    ensures forall j: nat :: j < NumBatches(n) - 1 ==> |Batch(n, j)| == BATCH_COUNT
    ensures n > 0 ==> 1 <= |Batch(n, NumBatches(n) - 1)| <= BATCH_COUNT
  {
    BatchesFlatten(n, NumBatches(n));
  }

  // ----- what the follower parses -----

  /** The pair (first, last) of a batch; -1 where the source leaves the initial value. */
  function Indexes(b: seq<nat>): (int, int) {
    (if |b| == 0 then -1 else ToInt32(b[0]), if |b| < 2 then -1 else ToInt32(b[|b| - 1]))
  }

  /** `parse_indexes` on a buffer of `sz` bytes holding the batch. */
  method ParseIndexes(msgs: seq<nat>, sz: nat) returns (minIdx: int, maxIdx: int)
    requires sz == MSG_SIZE * |msgs| && |msgs| <= BATCH_COUNT
    ensures (minIdx, maxIdx) == Indexes(msgs)
    ensures minIdx == if |msgs| == 0 then -1 else ToInt32(msgs[0])
    ensures maxIdx == if |msgs| < 2 then -1 else ToInt32(msgs[|msgs| - 1])
    ensures 2 <= |msgs| && (forall i :: 0 <= i < |msgs| ==> msgs[i] < TWO31) ==>
              minIdx == msgs[0] && maxIdx == msgs[|msgs| - 1]
  {
    minIdx, maxIdx := -1, -1;
    var prevIdx := -1;
    var msgsNum := if sz < BATCH_COUNT * MSG_SIZE then sz / MSG_SIZE else BATCH_COUNT;
    var gaps := 0;    // each gap is only reported
    for i := 0 to msgsNum
      invariant i > 0 ==> minIdx == ToInt32(msgs[0])
      invariant i == 0 ==> minIdx == -1
      invariant maxIdx == if i == msgsNum && msgsNum >= 2 then ToInt32(msgs[msgsNum - 1]) else -1
    {
      if i == 0 {
        minIdx := ToInt32(msgs[i]);
        prevIdx := minIdx - 1;
      } else if i == msgsNum - 1 {
        maxIdx := ToInt32(msgs[i]);
      } else {
        if prevIdx + 1 != msgs[i] { gaps := gaps + 1; }
      }
      prevIdx := prevIdx + 1;
    }
  }

  /** The key under which a batch is acknowledged. */
  function KeyOf(b: seq<nat>): int { Indexes(b).1 }

  function Key(n: nat, j: nat): int
    requires j < NumBatches(n)
  {
    KeyOf(Batch(n, j))
  }

  /** The last request of batch j. */
  function LastOf(n: nat, j: nat): nat
    requires j < NumBatches(n) && n > 0
  {
    if BATCH_COUNT * (j + 1) <= n then BATCH_COUNT * (j + 1) - 1 else n - 1
  }

  /** A lone message is acknowledged as -1, any other batch as its last index, in 32 bits. */
  lemma KeyValue(n: nat, j: nat)
    requires j < NumBatches(n)
    ensures Key(n, j) == if n <= BATCH_COUNT * j + 1 then -1 else ToInt32(LastOf(n, j))
  {
  }

  /** How many requests a run may have before two batches share a key: the last index is read
      into a 32-bit int. */
  predicate KeysOk(n: nat) { n <= TWO32 || TWO32 + 2 <= n < TWO32 + BATCH_COUNT }

  /** A full batch, and a later one that is not a lone message, differ modulo 2^32. */
  lemma LastsDiffer(n: nat, i: nat, j: nat)
    requires KeysOk(n) && i < j < NumBatches(n) && BATCH_COUNT * j + 1 < n
    ensures LastOf(n, i) % TWO32 != LastOf(n, j) % TWO32
  {
    var a, b := LastOf(n, i), LastOf(n, j);
    assert a == BATCH_COUNT * i + 15 && a < b < n;
    if n <= TWO32 {
      assert a % TWO32 == a && b % TWO32 == b;
    } else if b < TWO32 {
      assert a % TWO32 == a && b % TWO32 == b;
    } else {
      assert b % TWO32 == b - TWO32 < 15;
      assert a % TWO32 == a;
    }
  }

  lemma KeysAreDistinct(n: nat, i: nat, j: nat)
    requires KeysOk(n) && i < NumBatches(n) && j < NumBatches(n) && i != j
    ensures Key(n, i) != Key(n, j)
  {
    if j < i {
      KeysAreDistinct(n, j, i);
    } else {
      KeyValue(n, i);
      KeyValue(n, j);
      if BATCH_COUNT * j + 1 < n {
        LastsDiffer(n, i, j);
      } else {
        assert n <= TWO32 && LastOf(n, i) < TWO32 - 1;
      }
    }
  }

  /** Exactly the runs whose batches all have different ack keys. */
  lemma KeysDistinctExactly(n: nat)
    ensures KeysOk(n) <==> forall i: nat, j: nat :: i < j < NumBatches(n) ==> Key(n, i) != Key(n, j)
  {
    if KeysOk(n) {
      forall i: nat, j: nat | i < j < NumBatches(n) ensures Key(n, i) != Key(n, j) { KeysAreDistinct(n, i, j); }
    } else {
      var last := TWO32 / BATCH_COUNT;
      var first := if n == TWO32 + 1 then last - 1 else 0;
      KeyValue(n, first);
      KeyValue(n, last);
      assert Key(n, first) == Key(n, last);
    }
  }

  // ----- keys on the wire -----

  predicate IsInt32(k: int) { -0x8000_0000 <= k < 0x8000_0000 }

  function AsU64(k: int): nat
    requires IsInt32(k)
  {
    if k < 0 then k + TWO32 * TWO32 else k
  }

  function AsU32(k: int): nat
    requires IsInt32(k)
  {
    if k < 0 then k + TWO32 else k
  }

  /** A key survives both trips: as the 64-bit `e_idx` of an ack, and as the 32-bit `seq_idx`
      of a commit echoed into a 64-bit `e_idx`. */
  lemma KeysSurviveTheWire(k: int)
    requires IsInt32(k)
    ensures ToInt32(AsU64(k)) == k && ToInt32(AsU32(k)) == k
  {
    if k < 0 { assert (k + TWO32 * TWO32) % TWO32 == k + TWO32; }
  }
}
