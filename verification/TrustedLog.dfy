/** The append-only log of `trusted-log/log.h`: one zeroed byte array of fixed-size entries.
    The digest chain is what `protocol_metadata::log` and `validate_log_entry` make of it. */
module TrustedLog {
  import opened Bytes
  import AckFormat

  const CTX_SIZE: nat := AckFormat.K_MSG_SIZE   // one batch of one message
  const SEQ_SIZE: nat := 4
  const AUTH_SIZE: nat := 32
  const ENTRY_SIZE: nat := SEQ_SIZE + CTX_SIZE + HASH_SIZE + AUTH_SIZE

  datatype LogEntry = LogEntry(sequencer: nat, context: seq<byte>, cDigest: Digest, authenticator: Digest)

  /** A log as the list of its serialized entries. */
  type Entry = e: seq<byte> | |e| == ENTRY_SIZE witness Zeros(ENTRY_SIZE)
  type Log = seq<Entry>

  predicate EntryOk(e: LogEntry) { |e.context| == CTX_SIZE }

  function Serialize(e: LogEntry): Entry
    requires EntryOk(e)
  {
    Le(e.sequencer, SEQ_SIZE) + e.context + e.cDigest + e.authenticator
  }

  function SequencerOf(e: Entry): nat { FromLe(e[..SEQ_SIZE]) }
  function ContextOf(e: Entry): seq<byte> { e[SEQ_SIZE..SEQ_SIZE + CTX_SIZE] }
  function DigestOf(e: Entry): Digest { e[SEQ_SIZE + CTX_SIZE..SEQ_SIZE + CTX_SIZE + HASH_SIZE] }

  function AuthenticatorOf(e: Entry): Digest { e[SEQ_SIZE + CTX_SIZE + HASH_SIZE..] }

  /** All four fields are read back, each at its own place of the 276 bytes. */
  lemma SerializedFields(e: LogEntry)
    requires EntryOk(e)
    ensures e.sequencer < TWO32 ==> SequencerOf(Serialize(e)) == e.sequencer
    ensures ContextOf(Serialize(e)) == Serialize(e)[4..212] == e.context
    ensures DigestOf(Serialize(e)) == Serialize(e)[212..244] == e.cDigest
    ensures AuthenticatorOf(Serialize(e)) == Serialize(e)[244..276] == e.authenticator
  {
    if e.sequencer < TWO32 { Le32RoundTrip(e.sequencer); }
    assert Serialize(e)[..SEQ_SIZE] == Le(e.sequencer, SEQ_SIZE);
  }

  /** The tail of a log: its last entry, or the zeroed first slot. */
  function Tail(log: Log): Entry {
    if log == [] then Zeros(ENTRY_SIZE) else log[|log| - 1]
  }

  /** The slots of the byte array from i on. */
  function Slots(mem: seq<byte>, i: nat, n: nat): (s: Log)
    requires i <= n && n * ENTRY_SIZE <= |mem|
    ensures |s| == n - i
    ensures forall k :: i <= k < n ==> s[k - i] == mem[k * ENTRY_SIZE..(k + 1) * ENTRY_SIZE]
    decreases n - i
  {
    if i == n then [] else [mem[i * ENTRY_SIZE..(i + 1) * ENTRY_SIZE]] + Slots(mem, i + 1, n)
  }

  /** Writing at `at` leaves every part of the array below it alone. */
  lemma SpliceKeepsBelow(mem: seq<byte>, at: nat, e: seq<byte>, lo: nat, hi: nat)
    requires at + |e| <= |mem| && lo <= hi <= at
    ensures Splice(mem, at, e)[lo..hi] == mem[lo..hi]
  {
  }

  lemma SlotsGrow(mem: seq<byte>, n: nat, e: Entry)
    requires (n + 1) * ENTRY_SIZE <= |mem|
    ensures Slots(Splice(mem, n * ENTRY_SIZE, e), 0, n + 1) == Slots(mem, 0, n) + [e]
  {
    var mem2 := Splice(mem, n * ENTRY_SIZE, e);
    var s, s2 := Slots(mem, 0, n), Slots(mem2, 0, n + 1);
    forall k | 0 <= k < n ensures s2[k] == s[k] {
      SpliceKeepsBelow(mem, n * ENTRY_SIZE, e, k * ENTRY_SIZE, (k + 1) * ENTRY_SIZE);
      assert s2[k - 0] == mem2[k * ENTRY_SIZE..(k + 1) * ENTRY_SIZE];
      assert s[k - 0] == mem[k * ENTRY_SIZE..(k + 1) * ENTRY_SIZE];
    }
    assert s2[n - 0] == mem2[n * ENTRY_SIZE..(n + 1) * ENTRY_SIZE] == e;
  }

  class TrustedLog {
    const nbMaxEntries: nat
    const memLog: array<byte>
    var curIdx: nat
    var tail: nat    // offset of the tail entry

    ghost predicate Valid()
      reads this, memLog
    {
      && memLog.Length == nbMaxEntries * ENTRY_SIZE && nbMaxEntries < TWO32
      && curIdx <= nbMaxEntries
      && tail == (if curIdx == 0 then 0 else (curIdx - 1) * ENTRY_SIZE)
      && (curIdx == 0 < nbMaxEntries ==> memLog[..ENTRY_SIZE] == Zeros(ENTRY_SIZE))
    }

    ghost function Contents(): Log
      requires Valid()
      reads this, memLog
    {
      Slots(memLog[..], 0, curIdx)
    }

    /** `nb_max_entries` is a 32-bit field. */
    constructor (logSz: nat)
      ensures Valid() && fresh(memLog)
      ensures nbMaxEntries == (logSz / ENTRY_SIZE) % TWO32 && Contents() == []
    {
      nbMaxEntries := (logSz / ENTRY_SIZE) % TWO32;
      curIdx, tail := 0, 0;
      var mem := Calloc((logSz / ENTRY_SIZE) % TWO32 * ENTRY_SIZE);
      memLog := mem;
      new;
      assert memLog[..] == Zeros(nbMaxEntries * ENTRY_SIZE);
    }

    method Append(e: LogEntry) returns (ok: bool)
      requires Valid() && EntryOk(e)
      modifies this`curIdx, this`tail, memLog
      ensures Valid()
      ensures ok <==> old(curIdx) < nbMaxEntries
      ensures Contents() == if ok then old(Contents()) + [Serialize(e)] else old(Contents())
    {
      if curIdx >= nbMaxEntries {
        return false;
      }
      ghost var before := memLog[..];
      AppendEntry(curIdx * ENTRY_SIZE, e);
      SlotsGrow(before, curIdx, Serialize(e));
      curIdx := curIdx + 1;
      return true;
    }

    /** Four copies at moving offsets; the tail moves first, as in the source. */
    method AppendEntry(pos: nat, e: LogEntry)
      requires EntryOk(e) && pos + ENTRY_SIZE <= memLog.Length
      modifies this`tail, memLog
      ensures tail == pos
      ensures memLog[..] == Splice(old(memLog[..]), pos, Serialize(e))
    {
      tail := pos;
      var offset := 0;
      ghost var before, s := memLog[..], Le(e.sequencer, SEQ_SIZE);
      Memcpy(memLog, pos + offset, Le(e.sequencer, SEQ_SIZE));
      offset := offset + SEQ_SIZE;
      Memcpy(memLog, pos + offset, e.context);
      SplicesJoin(before, pos, s, e.context);
      offset := offset + CTX_SIZE;
      Memcpy(memLog, pos + offset, e.cDigest);
      SplicesJoin(before, pos, s + e.context, e.cDigest);
      offset := offset + HASH_SIZE;
      Memcpy(memLog, pos + offset, e.authenticator);
      SplicesJoin(before, pos, s + e.context + e.cDigest, e.authenticator);
    }

    /** One field of the entry that starts at offset `from`, copied to the same place of the buffer. */
    method CopyField(from: nat, buf: array<byte>, offset: nat, size: nat)
      requires buf != memLog && offset + size <= buf.Length == ENTRY_SIZE && from + ENTRY_SIZE <= memLog.Length
      requires buf[..offset] == memLog[from..from + offset]
      modifies buf
      ensures buf[..offset + size] == memLog[from..from + offset + size]
    {
      Memcpy(buf, offset, memLog[from + offset..from + offset + size]);
    }

    /** Copies one entry out, field by field, from offset `from` of the array. */
    method CopyOut(from: nat) returns (buf: array<byte>)
      requires from + ENTRY_SIZE <= memLog.Length
      ensures fresh(buf) && buf[..] == memLog[from..from + ENTRY_SIZE]
    {
      buf := Calloc(ENTRY_SIZE);
      var offset := 0;
      CopyField(from, buf, offset, SEQ_SIZE);
      offset := offset + SEQ_SIZE;
      CopyField(from, buf, offset, CTX_SIZE);
      offset := offset + CTX_SIZE;
      CopyField(from, buf, offset, HASH_SIZE);
      offset := offset + HASH_SIZE;
      CopyField(from, buf, offset, AUTH_SIZE);
      assert buf[..] == buf[..offset + AUTH_SIZE];
    }

    method SerializeEntry(idx: nat) returns (buf: array<byte>)
      requires Valid() && idx < curIdx
      ensures fresh(buf) && buf[..] == Contents()[idx]
    {
      buf := CopyOut(idx * ENTRY_SIZE);
      assert Contents()[idx] == memLog[..][idx * ENTRY_SIZE..(idx + 1) * ENTRY_SIZE];
    }

    method SerializeTail() returns (buf: array<byte>)
      requires Valid() && 0 < nbMaxEntries
      ensures fresh(buf) && buf[..] == Tail(Contents())
    {
      buf := CopyOut(tail);
      if curIdx > 0 {
        assert Contents()[curIdx - 1] == memLog[..][(curIdx - 1) * ENTRY_SIZE..(curIdx - 1 + 1) * ENTRY_SIZE];
      }
    }
  }
}
