/** `log_audit` of `trusted-log/main.cc`: the leader replays the entries added since the last
    audit against one counter per sender. */
module LogAudit {
  import opened Bytes
  import opened AckFormat
  import opened TrustedLog
  import opened LogChain

  const BATCH_COUNT: nat := 1

  /** `witness_meta` and `last_state_cmt`. */
  datatype AuditState = AuditState(counters: map<nat, nat>, last: nat)

  const Fresh: AuditState := AuditState(map[1 := 0, 2 := 0], 0)

  function CounterOf(w: map<nat, nat>, s: nat): nat {
    if s in w then w[s] else 0
  }

  function DecodeEntry(e: Entry): Option<AckView> { DecodeCtx(ContextOf(e)) }

  /** One iteration of the audit loop; None where the source exits. */
  function AuditOne(st: AuditState, e: Entry): Option<AuditState> {
    match DecodeEntry(e)
    case None => None
    case Some(v) =>
      var c := CounterOf(st.counters, v.sender) + BATCH_COUNT;
      if v.cmt != v.output || v.cmt != c then None
      else Some(AuditState(st.counters[v.sender := c], st.last + 1))
  }

  function Audit(st: AuditState, es: Log): Option<AuditState>
    decreases |es|
  {
    if es == [] then Some(st)
    else
      match Audit(st, es[..|es| - 1])
      case None => None
      case Some(st2) => AuditOne(st2, es[|es| - 1])
  }

  lemma {:induction false} AuditSplits(st: AuditState, a: Log, b: Log)
    ensures Audit(st, a + b) == (match Audit(st, a) case None => None case Some(st2) => Audit(st2, b))
    decreases |b|
  {
    if b == [] {
      assert a + b == a;
    } else {
      var b1 := b[..|b| - 1];
      assert (a + b)[..|a + b| - 1] == a + b1 && (a + b)[|a + b| - 1] == b[|b| - 1];
      AuditSplits(st, a, b1);
    }
  }

  lemma {:induction false} AuditAdvances(st: AuditState, es: Log)
    ensures Audit(st, es).Some? ==> Audit(st, es).value.last == st.last + |es|
    decreases |es|
  {
    if es != [] { AuditAdvances(st, es[..|es| - 1]); }
  }

  // ----- the verdict -----

  /** How many entries carry sender s. */
  function CountOf(es: Log, s: nat): nat
    decreases |es|
  {
    if es == [] then 0
    else CountOf(es[..|es| - 1], s) +
         (if DecodeEntry(es[|es| - 1]).Some? && DecodeEntry(es[|es| - 1]).value.sender == s then 1 else 0)
  }

  /** Entry k decodes, echoes its commit index, and is the j-th of its sender for cmt = j. */
  predicate EntryGood(es: Log, k: nat)
    requires k < |es|
  {
    match DecodeEntry(es[k])
    case None => false
    case Some(v) => v.output == v.cmt && v.cmt == BATCH_COUNT * CountOf(es[..k + 1], v.sender)
  }

  ghost predicate LogGood(es: Log) {
    forall k: nat :: k < |es| ==> EntryGood(es, k)
  }

  lemma GoodPrefix(es: Log, n: nat)
    requires n <= |es|
    ensures LogGood(es) ==> LogGood(es[..n])
    ensures n < |es| ==> (LogGood(es[..n + 1]) <==> LogGood(es[..n]) && EntryGood(es, n))
  {
    forall k: nat | k < n ensures EntryGood(es, k) == EntryGood(es[..n], k) {
      assert es[..n][..k + 1] == es[..k + 1];
    }
    if n < |es| {
      forall k: nat | k < n + 1 ensures EntryGood(es, k) == EntryGood(es[..n + 1], k) {
        assert es[..n + 1][..k + 1] == es[..k + 1];
      }
      if LogGood(es[..n]) && EntryGood(es, n) {
        var p := es[..n + 1];
        forall k: nat | k < |p| ensures EntryGood(p, k) {
          if k < n { assert EntryGood(es[..n], k); }
        }
      }
      if LogGood(es[..n + 1]) {
        assert EntryGood(es[..n + 1], n);
        forall k: nat | k < n ensures EntryGood(es[..n], k) { assert EntryGood(es[..n + 1], k); }
      }
    }
  }

  /** The audit of a whole log succeeds exactly when every entry is good, however the senders
      interleave, and it leaves every counter at batch_count times that sender's entries. */
  lemma {:induction false} AuditVerdict(es: Log)
    ensures Audit(Fresh, es).Some? <==> LogGood(es)
    ensures Audit(Fresh, es).Some? ==>
              var w := Audit(Fresh, es).value.counters;
              forall s: nat :: CounterOf(w, s) == BATCH_COUNT * CountOf(es, s)
    decreases |es|
  {
    if es != [] {
      var n := |es| - 1;
      AuditVerdict(es[..n]);
      GoodPrefix(es, n);
      assert es[..n + 1] == es;
      if LogGood(es[..n]) {
        var w := Audit(Fresh, es[..n]).value.counters;
        if DecodeEntry(es[n]).Some? {
          var v := DecodeEntry(es[n]).value;
          assert CountOf(es, v.sender) == CountOf(es[..n], v.sender) + 1;
          assert CounterOf(w, v.sender) == BATCH_COUNT * CountOf(es[..n], v.sender);
        }
      }
    }
  }

  ghost function Sum(w: map<nat, nat>): nat
    decreases |w|
  {
    if w == map[] then 0 else var k :| k in w; w[k] + Sum(w - {k})
  }

  lemma {:induction false} SumWithout(w: map<nat, nat>, k: nat)
    requires k in w
    ensures Sum(w) == w[k] + Sum(w - {k})
    decreases |w|
  {
    var j :| j in w && Sum(w) == w[j] + Sum(w - {j});
    if j != k {
      SumWithout(w - {j}, k);
      SumWithout(w - {k}, j);
      assert w - {j} - {k} == w - {k} - {j};
    }
  }

  /** Conservation: the counters of a passing audit sum to batch_count per audited entry. */
  lemma {:induction false} CountersSumToEntries(st: AuditState, es: Log)
    requires Audit(st, es).Some?
    ensures Sum(Audit(st, es).value.counters) == Sum(st.counters) + BATCH_COUNT * |es|
    decreases |es|
  {
    if es != [] {
      var n := |es| - 1;
      CountersSumToEntries(st, es[..n]);
      var w, s := Audit(st, es[..n]).value.counters, DecodeEntry(es[n]).value.sender;
      var w2 := w[s := CounterOf(w, s) + BATCH_COUNT];
      SumWithout(w2, s);
      assert w2 - {s} == w - {s};
      if s in w { SumWithout(w, s); } else { assert w - {s} == w; }
    }
  }

  // ----- auditing as the log grows -----

  datatype Op = DoLog(call: LogCall) | DoAudit

  predicate OpsOk(ops: seq<Op>) {
    forall k :: 0 <= k < |ops| && ops[k].DoLog? ==> CallOk(ops[k].call)
  }

  /** The log and audit state of a live leader, or the log at which it exited. */
  datatype Leader = Live(log: Log, st: AuditState) | Exited(log: Log)

  function AuditSuffix(log: Log, st: AuditState): Leader {
    if st.last >= |log| then Live(log, st)
    else
      match Audit(st, log[st.last..])
      case None => Exited(log)
      case Some(st2) => Live(log, st2)
  }

  function DoOp(attest: Attest, max: nat, l: Leader, op: Op): Leader
    requires op.DoLog? ==> CallOk(op.call)
  {
    match l
    case Exited(_) => l
    case Live(log, st) =>
      match op
      case DoLog(c) => Live(LogOne(attest, max, log, c), st)
      case DoAudit => AuditSuffix(log, st)
  }

  function DoAll(attest: Attest, max: nat, ops: seq<Op>): Leader
    requires OpsOk(ops)
    decreases |ops|
  {
    if ops == [] then Live([], Fresh)
    else DoOp(attest, max, DoAll(attest, max, ops[..|ops| - 1]), ops[|ops| - 1])
  }

  /** All the `log` calls of a sequence of operations. */
  function Calls(ops: seq<Op>): (cs: seq<LogCall>)
    requires OpsOk(ops)
    ensures forall k :: 0 <= k < |cs| ==> CallOk(cs[k])
    decreases |ops|
  {
    if ops == [] then []
    else Calls(ops[..|ops| - 1]) + (if ops[|ops| - 1].DoLog? then [ops[|ops| - 1].call] else [])
  }

  /** The state of a live leader is that of one audit of the log as it stood at its last audit. */
  ghost predicate AuditedPrefix(log: Log, st: AuditState) {
    st.last <= |log| && Audit(Fresh, log[..st.last]) == Some(st)
  }

  lemma FullAuditCovers(log: Log)
    ensures Audit(Fresh, log).Some? ==> AuditedPrefix(log, Audit(Fresh, log).value)
  {
    AuditAdvances(Fresh, log);
    assert log[..|log|] == log;
  }

  /** Auditing the new suffix gives the verdict and the state of one audit of everything. */
  lemma SuffixAuditIsFullAudit(log: Log, st: AuditState)
    requires AuditedPrefix(log, st)
    ensures AuditSuffix(log, st) == (match Audit(Fresh, log) case None => Exited(log) case Some(f) => Live(log, f))
    ensures Audit(Fresh, log).Some? ==> AuditedPrefix(log, Audit(Fresh, log).value)
  {
    FullAuditCovers(log);
    var a, b := log[..st.last], log[st.last..];
    assert log == a + b;
    AuditSplits(Fresh, a, b);
  }

  lemma {:induction false} LogAllAppends(attest: Attest, max: nat, log: Log, cs: seq<LogCall>, c: LogCall)
    requires (forall k :: 0 <= k < |cs| ==> CallOk(cs[k])) && CallOk(c)
    ensures LogAll(attest, max, log, cs + [c]) == LogOne(attest, max, LogAll(attest, max, log, cs), c)
    decreases |cs|
  {
    if cs == [] {
      assert [] + [c] == [c] && [c][1..] == [];
    } else {
      assert (cs + [c])[1..] == cs[1..] + [c];
      LogAllAppends(attest, max, LogOne(attest, max, log, cs[0]), cs[1..], c);
    }
  }

  /** What every interleaving of `log` and `log_audit` keeps. */
  lemma {:induction false} InterleavingInvariant(attest: Attest, max: nat, ops: seq<Op>)
    requires OpsOk(ops)
    ensures var full := LogAll(attest, max, [], Calls(ops));
            match DoAll(attest, max, ops)
            case Live(log, st) => log == full && AuditedPrefix(log, st)
            case Exited(log) => log <= full && Audit(Fresh, log) == None
    decreases |ops|
  {
    if ops != [] {
      var n := |ops| - 1;
      InterleavingInvariant(attest, max, ops[..n]);
      var full1 := LogAll(attest, max, [], Calls(ops[..n]));
      if ops[n].DoLog? {
        LogAllAppends(attest, max, [], Calls(ops[..n]), ops[n].call);
        assert full1 <= LogOne(attest, max, full1, ops[n].call);
        if DoAll(attest, max, ops[..n]).Live? {
          var st, log2 := DoAll(attest, max, ops[..n]).st, LogOne(attest, max, full1, ops[n].call);
          assert log2[..st.last] == full1[..st.last];
        }
      } else {
        assert Calls(ops[..n]) + [] == Calls(ops[..n]);
        if DoAll(attest, max, ops[..n]).Live? {
          SuffixAuditIsFullAudit(full1, DoAll(attest, max, ops[..n]).st);
        }
      }
    }
  }

  /** Incremental audit refines full audit: after any interleaving of `log` and `log_audit`
      calls, a final audit leaves exactly the state that one audit of the whole final log from
      scratch leaves, and the leader has exited exactly when that one audit would. */
  lemma IncrementalEqualsFull(attest: Attest, max: nat, ops: seq<Op>)
    requires OpsOk(ops + [DoAudit])
    ensures OpsOk(ops) && Calls(ops + [DoAudit]) == Calls(ops)
    ensures var full := LogAll(attest, max, [], Calls(ops));
            match Audit(Fresh, full)
            case Some(st) => DoAll(attest, max, ops + [DoAudit]) == Live(full, st)
            case None => DoAll(attest, max, ops + [DoAudit]).Exited?
  {
    var all := ops + [DoAudit];
    assert forall k :: 0 <= k < |ops| ==> all[k] == ops[k];
    assert all[..|all| - 1] == ops;
    InterleavingInvariant(attest, max, ops);
    var full := LogAll(attest, max, [], Calls(ops));
    match DoAll(attest, max, ops)
    case Live(log, st) => SuffixAuditIsFullAudit(log, st);
    case Exited(log) =>
      assert full == log + full[|log|..];
      AuditSplits(Fresh, log, full[|log|..]);
  }
}
