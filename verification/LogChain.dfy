/** The digest chain of `trusted-log/main.cc`: `log` links each entry to its predecessor and
    `validate_log_entry` checks one link. */
module LogChain {
  import opened Bytes
  import opened TrustedLog

  /** `validate_log_entry(i)`: entry 0 is accepted unchecked. */
  predicate LinkValid(attest: Attest, log: Log, i: nat)
    requires i < |log|
  {
    i == 0 || attest(log[i - 1]) == DigestOf(log[i])
  }

  ghost predicate AllLinksValid(attest: Attest, log: Log) {
    forall i: nat :: i < |log| ==> LinkValid(attest, log, i)
  }

  /** The context array of an entry: the caller's bytes over whatever was there before. */
  function Overlay(ctx: seq<byte>, stale: seq<byte>): (r: seq<byte>)
    requires |ctx| <= CTX_SIZE == |stale|
    ensures |r| == CTX_SIZE
  {
    ctx + stale[|ctx|..]
  }

  /** One call of `log`; the stale bytes are those of the uninitialised stack entry. */
  datatype LogCall = LogCall(ctx: seq<byte>, stale: seq<byte>, auth: Digest)

  predicate CallOk(c: LogCall) { |c.ctx| <= CTX_SIZE == |c.stale| }

  function NewEntry(attest: Attest, log: Log, c: LogCall): Entry
    requires CallOk(c)
  {
    Serialize(LogEntry(|log|, Overlay(c.ctx, c.stale), attest(Tail(log)), c.auth))
  }

  function LogOne(attest: Attest, max: nat, log: Log, c: LogCall): Log
    requires CallOk(c)
  {
    if |log| < max then log + [NewEntry(attest, log, c)] else log
  }

  function LogAll(attest: Attest, max: nat, log: Log, cs: seq<LogCall>): Log
    requires forall k :: 0 <= k < |cs| ==> CallOk(cs[k])
    decreases |cs|
  {
    if cs == [] then log else LogAll(attest, max, LogOne(attest, max, log, cs[0]), cs[1..])
  }

  /** Entry i carries sequencer i and the digest of its predecessor; entry 0 carries the
      digest of the zeroed slot. */
  ghost predicate ChainOk(attest: Attest, log: Log) {
    forall i: nat {:trigger log[i]} :: i < |log| ==>
      SequencerOf(log[i]) == i && DigestOf(log[i]) == attest(Tail(log[..i]))
  }

  lemma LogOneKeepsChain(attest: Attest, max: nat, log: Log, c: LogCall)
    requires CallOk(c) && max < TWO32 && |log| <= max && ChainOk(attest, log)
    ensures ChainOk(attest, LogOne(attest, max, log, c))
  {
    var log2 := LogOne(attest, max, log, c);
    if |log| < max {
      SerializedFields(LogEntry(|log|, Overlay(c.ctx, c.stale), attest(Tail(log)), c.auth));
      forall i: nat | i < |log2|
        ensures SequencerOf(log2[i]) == i && DigestOf(log2[i]) == attest(Tail(log2[..i]))
      {
        assert i <= |log| && log2[..i] == log[..i];
        if i < |log| { assert log2[i] == log[i]; } else { assert log[..i] == log; }
      }
    }
  }

  lemma ChainLinks(attest: Attest, log: Log)
    requires ChainOk(attest, log)
    ensures AllLinksValid(attest, log)
  {
    forall i: nat | i < |log| ensures LinkValid(attest, log, i) {
      assert DigestOf(log[i]) == attest(Tail(log[..i]));
    }
  }

  /** Chain validity: after any sequence of `log` calls, refused ones included, the chain is
      good, every link validates, the capacity is respected, and old entries are unchanged. */
  lemma {:induction false} LoggingKeepsChain(attest: Attest, max: nat, log: Log, cs: seq<LogCall>)
    requires forall k :: 0 <= k < |cs| ==> CallOk(cs[k])
    decreases |cs|
    requires max < TWO32 && |log| <= max && ChainOk(attest, log)
    ensures ChainOk(attest, LogAll(attest, max, log, cs)) && AllLinksValid(attest, LogAll(attest, max, log, cs))
    ensures log <= LogAll(attest, max, log, cs) && |LogAll(attest, max, log, cs)| <= max
    ensures |LogAll(attest, max, log, cs)| == if |log| + |cs| <= max then |log| + |cs| else max
  {
    if cs == [] {
      ChainLinks(attest, log);
    } else {
      LogOneKeepsChain(attest, max, log, cs[0]);
      LoggingKeepsChain(attest, max, LogOne(attest, max, log, cs[0]), cs[1..]);
    }
  }

  // ----- what the entries hold -----

  /** The entry holds what the call passed: its context, over the old bytes of the stack entry,
      and its authenticator. */
  predicate Stores(e: Entry, c: LogCall)
    requires CallOk(c)
  {
    && ContextOf(e)[..|c.ctx|] == c.ctx
    && ContextOf(e)[|c.ctx|..] == c.stale[|c.ctx|..]
    && AuthenticatorOf(e) == c.auth
  }

  lemma NewEntryStores(attest: Attest, log: Log, c: LogCall)
    requires CallOk(c)
    ensures Stores(NewEntry(attest, log, c), c)
  {
    SerializedFields(LogEntry(|log|, Overlay(c.ctx, c.stale), attest(Tail(log)), c.auth));
  }

  lemma {:induction false} NewEntriesStore(attest: Attest, max: nat, log: Log, cs: seq<LogCall>)
    requires forall k :: 0 <= k < |cs| ==> CallOk(cs[k])
    ensures var all := LogAll(attest, max, log, cs);
            && log <= all && |all| <= |log| + |cs|
            && forall k: nat :: k < |all| - |log| ==> Stores(all[|log| + k], cs[k])
    decreases |cs|
  {
    if cs != [] {
      var log1, rest := LogOne(attest, max, log, cs[0]), cs[1..];
      var all := LogAll(attest, max, log1, rest);
      NewEntriesStore(attest, max, log1, rest);
      if |log| < max {
        NewEntryStores(attest, log, cs[0]);
        forall k: nat | k < |all| - |log| ensures Stores(all[|log| + k], cs[k]) {
          if k > 0 { assert Stores(all[|log1| + (k - 1)], rest[k - 1]); }
        }
      } else {
        FullStaysFull(attest, max, log, rest);
      }
    }
  }

  lemma {:induction false} FullStaysFull(attest: Attest, max: nat, log: Log, cs: seq<LogCall>)
    requires (forall k :: 0 <= k < |cs| ==> CallOk(cs[k])) && max <= |log|
    ensures LogAll(attest, max, log, cs) == log
    decreases |cs|
  {
    if cs != [] { FullStaysFull(attest, max, log, cs[1..]); }
  }

  /** After any sequence of `log` calls, refused ones included, stored entry i holds the context
      and the authenticator of call i, byte for byte. */
  lemma EntriesHoldTheirCalls(attest: Attest, max: nat, cs: seq<LogCall>, i: nat)
    requires forall k :: 0 <= k < |cs| ==> CallOk(cs[k])
    requires i < |LogAll(attest, max, [], cs)|
    ensures i < |cs|
    ensures var e := LogAll(attest, max, [], cs)[i];
            && ContextOf(e)[..|cs[i].ctx|] == cs[i].ctx
            && ContextOf(e)[|cs[i].ctx|..] == cs[i].stale[|cs[i].ctx|..]
            && AuthenticatorOf(e) == cs[i].auth
  {
    NewEntriesStore(attest, max, [], cs);
    var all := LogAll(attest, max, [], cs);
    var none: Log := [];
    assert Stores(all[|none| + i], cs[i]);
  }

  // ----- tamper evidence -----

  /** Two different serialized entries with the same digest. */
  predicate Collision(attest: Attest, a: Entry, b: Entry) {
    a != b && attest(a) == attest(b)
  }

  /** Logs of equal length that validate everywhere and end alike are equal, or some position
      holds a digest collision. */
  lemma {:induction false} TamperEvident(attest: Attest, a: Log, b: Log)
    requires |a| == |b| > 0 && AllLinksValid(attest, a) && AllLinksValid(attest, b)
    requires a[|a| - 1] == b[|b| - 1]
    ensures a == b || exists k :: 0 <= k < |a| - 1 && Collision(attest, a[k], b[k])
  {
    var n := |a| - 1;
    if n > 0 {
      assert LinkValid(attest, a, n) && LinkValid(attest, b, n);
      var a1, b1 := a[..n], b[..n];
      if a1[n - 1] == b1[n - 1] {
        forall i: nat | i < n ensures LinkValid(attest, a1, i) && LinkValid(attest, b1, i) {
          assert LinkValid(attest, a, i) && LinkValid(attest, b, i);
        }
        TamperEvident(attest, a1, b1);
        if a1 == b1 {
          assert a == a1 + [a[n]] && b == b1 + [b[n]];
        } else {
          var k :| 0 <= k < n - 1 && Collision(attest, a1[k], b1[k]);
          assert Collision(attest, a[k], b[k]);
        }
      } else {
        assert Collision(attest, a[n - 1], b[n - 1]);
      }
    } else {
      assert a == [a[0]] && b == [b[0]];
    }
  }

  /** The last entry pins down the whole log, its length included, up to a collision. */
  lemma TailPinsLog(attest: Attest, a: Log, b: Log)
    requires ChainOk(attest, a) && ChainOk(attest, b) && a != [] && b != []
    requires a[|a| - 1] == b[|b| - 1]
    ensures |a| == |b|
    ensures a == b || exists k :: 0 <= k < |a| - 1 && Collision(attest, a[k], b[k])
  {
    assert SequencerOf(a[|a| - 1]) == |a| - 1 && SequencerOf(b[|b| - 1]) == |b| - 1;
    ChainLinks(attest, a);
    ChainLinks(attest, b);
    TamperEvident(attest, a, b);
  }
}
