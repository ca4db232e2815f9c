/** Whole runs of `trusted-log`: one leader, two followers, in-order links, log and audit
    interleaved at will.  The bytes of a response that the encoder does not write are zero. */
module LogRun {
  import opened Bytes
  import opened AckFormat
  import opened TrustedLog
  import opened LogChain
  import opened LogAudit
  import LogContext

  const REQ_SIZE: nat := K_MSG_SIZE + HASH_SIZE    // one message and its MAC

  /** A follower's commit counter, its queue of request sizes, and its queue of replies. */
  datatype Follower = Follower(cmtIdx: nat, inbox: seq<nat>, outbox: seq<seq<byte>>)

  datatype Sys = Sys(next: nat, curIdx: nat, flushed: bool, leader: Leader, replies: nat,
                     f1: Follower, f2: Follower)

  const Start: Sys := Sys(0, 0, false, Live([], Fresh), 0,
                          Follower(0, [], []), Follower(0, [], []))

  datatype Config = Config(attest: Attest, n: nat)

  datatype Step =
    | Submit                                  // send_req, then log_audit
    | Flush                                   // flash_batcher
    | Propose(f: nat, junk: seq<byte>)        // req_handler_prp at follower f
    | Reply(f: nat, stale: seq<byte>)         // cont_func_prp at the leader
    | DoAudit                                 // log_audit in the polling loops

  predicate IsFollower(f: nat) { f == 1 || f == 2 }

  function Other(f: nat): nat { if f == 1 then 2 else 1 }

  function At(s: Sys, f: nat): Follower { if f == 1 then s.f1 else s.f2 }

  function Put(s: Sys, f: nat, w: Follower): Sys {
    if f == 1 then s.(f1 := w) else s.(f2 := w)
  }

  function Queue(w: Follower, size: nat): Follower { w.(inbox := w.inbox + [size]) }

  /** One request buffer to each follower. */
  function Ship(s: Sys, size: nat): Sys {
    s.(f1 := Queue(s.f1, size), f2 := Queue(s.f2, size))
  }

  function AuditNow(l: Leader): Leader {
    match l
    case Live(log, st) => AuditSuffix(log, st)
    case Exited(_) => l
  }

  /** The response: the encoded ack, zeros, and the MAC over both. */
  function Response(attest: Attest, cmt: nat, sender: nat, junk: seq<byte>): (r: seq<byte>)
    requires cmt < TWO32 && sender < TWO32 && |junk| == OUT_SIZE - 4
    ensures |r| == ACK_MSG_SIZE + HASH_SIZE
  {
    var body := Encode(AckMsg(1, Le(cmt, 4) + junk, cmt, sender)) + Zeros(ACK_MSG_SIZE - ENCODED);
    body + attest(body)
  }

  predicate Enabled(c: Config, s: Sys, step: Step) {
    && s.leader.Live?
    && match step
       case Submit => s.next < c.n && !s.flushed
       case Flush => s.next == c.n && !s.flushed
       case Propose(f, junk) =>
         IsFollower(f) && At(s, f).inbox != [] && At(s, f).inbox[0] >= HASH_SIZE && |junk| == OUT_SIZE - 4
       case Reply(f, stale) =>
         IsFollower(f) && At(s, f).outbox != [] && |At(s, f).outbox[0]| == ACK_MSG_SIZE + HASH_SIZE && |stale| == CTX_SIZE
       case DoAudit => true
  }

  function CallFor(resp: seq<byte>, stale: seq<byte>): LogCall
    requires |resp| == ACK_MSG_SIZE + HASH_SIZE
  {
    LogCall(resp[..ACK_MSG_SIZE], stale, resp[ACK_MSG_SIZE..])
  }

  /** `req_handler_prp`: one `cmt_idx++` per message in the batch, then the ack. */
  function HandleProposal(attest: Attest, w: Follower, sender: nat, junk: seq<byte>): Follower
    requires w.inbox != [] && w.inbox[0] >= HASH_SIZE && sender < TWO32 && |junk| == OUT_SIZE - 4
  {
    var cmt := (w.cmtIdx + (w.inbox[0] - HASH_SIZE) / K_MSG_SIZE) % TWO32;
    Follower(cmt, w.inbox[1..], w.outbox + [Response(attest, cmt, sender, junk)])
  }

  function Do(c: Config, s: Sys, step: Step): Sys
    requires Enabled(c, s, step)
  {
    match step
    case Submit =>
      var s2 := if s.curIdx < BATCH_COUNT then s.(curIdx := s.curIdx + 1)
                else Ship(s, K_MSG_SIZE * BATCH_COUNT + HASH_SIZE).(curIdx := 1);
      s2.(next := s.next + 1, leader := AuditNow(s.leader))
    case Flush => Ship(s, K_MSG_SIZE * s.curIdx + HASH_SIZE).(flushed := true)
    case Propose(f, junk) =>
      Put(s, f, HandleProposal(c.attest, At(s, f), f, junk))
    case Reply(f, stale) =>
      var w := At(s, f);
      Put(s, f, w.(outbox := w.outbox[1..]))
      .(replies := s.replies + 1,
        leader := Live(LogOne(c.attest, LogContext.Capacity(c.n), s.leader.log, CallFor(w.outbox[0], stale)), s.leader.st))
    case DoAudit => s.(leader := AuditNow(s.leader))
  }

  /** Any list of steps; one that is not enabled does nothing. */
  function Exec(c: Config, steps: seq<Step>): Sys
    decreases |steps|
  {
    if steps == [] then Start
    else
      var s, step := Exec(c, steps[..|steps| - 1]), steps[|steps| - 1];
      if Enabled(c, s, step) then Do(c, s, step) else s
  }

  // ----- the invariant -----

  function Shipped(c: Config, s: Sys): int {
    if s.flushed then c.n else s.next - s.curIdx
  }

  /** A response that the audit will read as commit number cmt of this sender. */
  predicate ReadsAs(resp: seq<byte>, cmt: nat, sender: nat) {
    |resp| == ACK_MSG_SIZE + HASH_SIZE && DecodeCtx(resp[..ACK_MSG_SIZE]) == Some(AckView(cmt, cmt, sender))
  }

  /** A follower that was shipped `shipped` requests and of which the leader has logged `logged` replies. */
  ghost predicate QueuesOk(w: Follower, logged: nat, shipped: int, sender: nat) {
    && (forall k :: 0 <= k < |w.inbox| ==> w.inbox[k] == REQ_SIZE)
    && w.cmtIdx + |w.inbox| == shipped
    && logged + |w.outbox| == w.cmtIdx
    && (forall k :: 0 <= k < |w.outbox| ==> ReadsAs(w.outbox[k], logged + k + 1, sender))
  }

  ghost predicate FollowerInv(c: Config, s: Sys, f: nat)
    requires s.leader.Live?
  {
    QueuesOk(At(s, f), CountOf(s.leader.log, f), Shipped(c, s), f)
  }

  ghost predicate LeaderOk(attest: Attest, log: Log, st: AuditState, replies: nat) {
    && AuditedPrefix(log, st) && LogGood(log) && ChainOk(attest, log)
    && |log| == replies == CountOf(log, 1) + CountOf(log, 2)
  }

  ghost predicate Inv(c: Config, s: Sys) {
    && s.leader.Live?
    && s.next <= c.n && s.curIdx == (if s.next == 0 then 0 else 1) && (s.flushed ==> s.next == c.n)
    && LeaderOk(c.attest, s.leader.log, s.leader.st, s.replies)
    && FollowerInv(c, s, 1) && FollowerInv(c, s, 2)
  }

  /** How many requests a run may have: at least one, and few enough for `iterations * 2`. */
  predicate ConfigOk(c: Config) { 1 <= c.n < 0x4000_0000 }

  /** The capacity is the whole number of 276-byte entries in 832 bytes per request, which is
      room for two entries per request. */
  lemma CapacityIsEnough(c: Config)
    requires ConfigOk(c)
    ensures 276 * LogContext.Capacity(c.n) <= 832 * c.n < 276 * (LogContext.Capacity(c.n) + 1)
    ensures 2 * c.n <= LogContext.Capacity(c.n) < TWO32
  {
    assert LogContext.Capacity(c.n) == (832 * c.n / 276) % TWO32;
    assert 832 * c.n / 276 < TWO32;
  }

  lemma ResponseReadsAs(attest: Attest, cmt: nat, sender: nat, junk: seq<byte>)
    requires cmt < TWO32 && sender < TWO32 && |junk| == OUT_SIZE - 4
    ensures ReadsAs(Response(attest, cmt, sender, junk), cmt, sender)
  {
    var m, z := AckMsg(1, Le(cmt, 4) + junk, cmt, sender), Zeros(ACK_MSG_SIZE - ENCODED);
    assert Response(attest, cmt, sender, junk)[..ACK_MSG_SIZE] == Encode(m) + z;
    assert z[CMD_OFFSET - ENCODED..CMD_OFFSET - ENCODED + CMD_SIZE] == Zeros(CMD_SIZE);
    DecodeReadsEncode(m, z);
    assert m.output[..4] == Le(cmt, 4);
    Le32RoundTrip(cmt);
  }

  lemma AuditNeverExits(c: Config, s: Sys)
    requires Inv(c, s)
    ensures AuditNow(s.leader).Live? && AuditNow(s.leader).log == s.leader.log
    ensures AuditedPrefix(s.leader.log, AuditNow(s.leader).st)
    ensures Some(AuditNow(s.leader).st) == Audit(Fresh, s.leader.log)
  {
    AuditVerdict(s.leader.log);
    SuffixAuditIsFullAudit(s.leader.log, s.leader.st);
  }

  lemma ProposeKeepsQueues(attest: Attest, w: Follower, logged: nat, shipped: int, sender: nat, junk: seq<byte>)
    requires QueuesOk(w, logged, shipped, sender) && w.inbox != [] && shipped < TWO32 && sender < TWO32
    requires |junk| == OUT_SIZE - 4
    ensures w.inbox[0] >= HASH_SIZE
    ensures QueuesOk(HandleProposal(attest, w, sender, junk), logged, shipped, sender)
  {
    assert w.inbox[0] == REQ_SIZE;
    assert (w.cmtIdx + (w.inbox[0] - HASH_SIZE) / K_MSG_SIZE) % TWO32 == w.cmtIdx + 1;
    ResponseReadsAs(attest, w.cmtIdx + 1, sender, junk);
  }

  lemma ReplyKeepsQueues(w: Follower, logged: nat, shipped: int, sender: nat)
    requires QueuesOk(w, logged, shipped, sender) && w.outbox != []
    ensures ReadsAs(w.outbox[0], logged + 1, sender)
    ensures QueuesOk(w.(outbox := w.outbox[1..]), logged + 1, shipped, sender)
  {
  }

  lemma ShipKeepsQueues(w: Follower, logged: nat, shipped: int, sender: nat)
    requires QueuesOk(w, logged, shipped, sender)
    ensures QueuesOk(Queue(w, REQ_SIZE), logged, shipped + 1, sender)
  {
  }

  lemma SameQueue(c: Config, s: Sys, s2: Sys, f: nat)
    requires s.leader.Live? && s2.leader.Live? && FollowerInv(c, s, f)
    requires At(s2, f) == At(s, f) && Shipped(c, s2) == Shipped(c, s)
    requires CountOf(s2.leader.log, f) == CountOf(s.leader.log, f)
    ensures FollowerInv(c, s2, f)
  {
  }

  /** One follower and the leader moved together; the other follower did not move. */
  lemma OneFollowerMoved(c: Config, s: Sys, f: nat, w: Follower, log: Log, replies: nat)
    requires Inv(c, s) && IsFollower(f)
    requires LeaderOk(c.attest, log, s.leader.st, replies)
    requires QueuesOk(w, CountOf(log, f), Shipped(c, s), f)
    requires CountOf(log, Other(f)) == CountOf(s.leader.log, Other(f))
    ensures Inv(c, Put(s, f, w).(leader := Live(log, s.leader.st), replies := replies))
  {
    var s2 := Put(s, f, w).(leader := Live(log, s.leader.st), replies := replies);
    assert Shipped(c, s2) == Shipped(c, s);
    if f == 1 { SameQueue(c, s, s2, 2); } else { SameQueue(c, s, s2, 1); }
  }

  lemma ProposeKeepsInv(c: Config, s: Sys, f: nat, junk: seq<byte>)
    requires ConfigOk(c) && Inv(c, s) && Enabled(c, s, Propose(f, junk))
    ensures Inv(c, Do(c, s, Propose(f, junk)))
  {
    assert QueuesOk(At(s, f), CountOf(s.leader.log, f), Shipped(c, s), f) by { assert FollowerInv(c, s, f); }
    ProposeKeepsQueues(c.attest, At(s, f), CountOf(s.leader.log, f), Shipped(c, s), f, junk);
    OneFollowerMoved(c, s, f, HandleProposal(c.attest, At(s, f), f, junk), s.leader.log, s.replies);
  }

  /** The entry a reply turns into is the next good entry of its sender. */
  lemma LoggedReplyIsGood(c: Config, log: Log, resp: seq<byte>, stale: seq<byte>, sender: nat)
    requires |stale| == CTX_SIZE && |log| < TWO32 && LogGood(log)
    requires ReadsAs(resp, CountOf(log, sender) + 1, sender)
    ensures var log2 := log + [NewEntry(c.attest, log, CallFor(resp, stale))];
            && LogGood(log2)
            && forall x: nat :: CountOf(log2, x) == CountOf(log, x) + (if x == sender then 1 else 0)
  {
    var call, n := CallFor(resp, stale), |log|;
    var e := NewEntry(c.attest, log, call);
    var log2 := log + [e];
    SerializedFields(LogEntry(n, Overlay(call.ctx, stale), c.attest(Tail(log)), call.auth));
    DecodeIgnoresSuffix(call.ctx, stale[|call.ctx|..]);
    assert DecodeEntry(e) == Some(AckView(CountOf(log, sender) + 1, CountOf(log, sender) + 1, sender));
    assert log2[..n] == log && log2[..n + 1] == log2;
    GoodPrefix(log2, n);
  }

  lemma RoomForReply(c: Config, s: Sys, f: nat)
    requires ConfigOk(c) && Inv(c, s) && IsFollower(f) && At(s, f).outbox != []
    ensures |s.leader.log| < 2 * c.n <= LogContext.Capacity(c.n) < TWO32
  {
    CapacityIsEnough(c);
  }

  lemma LoggedReplyKeepsLeader(c: Config, log: Log, st: AuditState, replies: nat, resp: seq<byte>, stale: seq<byte>, f: nat)
    requires LeaderOk(c.attest, log, st, replies) && |log| < LogContext.Capacity(c.n) < TWO32
    requires IsFollower(f) && |stale| == CTX_SIZE && ReadsAs(resp, CountOf(log, f) + 1, f)
    ensures var log2 := LogOne(c.attest, LogContext.Capacity(c.n), log, CallFor(resp, stale));
            && LeaderOk(c.attest, log2, st, replies + 1)
            && forall x: nat :: CountOf(log2, x) == CountOf(log, x) + (if x == f then 1 else 0)
  {
    var log2 := LogOne(c.attest, LogContext.Capacity(c.n), log, CallFor(resp, stale));
    LoggedReplyIsGood(c, log, resp, stale, f);
    LogOneKeepsChain(c.attest, LogContext.Capacity(c.n), log, CallFor(resp, stale));
    assert log2[..st.last] == log[..st.last];
  }

  /** The two parts of the state a reply moves: its follower's queue and the log. */
  lemma ReplyMoves(c: Config, w: Follower, f: nat, shipped: int, log: Log, st: AuditState, replies: nat, stale: seq<byte>)
    requires LeaderOk(c.attest, log, st, replies) && |log| < LogContext.Capacity(c.n) < TWO32
    requires IsFollower(f) && |stale| == CTX_SIZE && QueuesOk(w, CountOf(log, f), shipped, f) && w.outbox != []
    ensures |w.outbox[0]| == ACK_MSG_SIZE + HASH_SIZE
    ensures var log2 := LogOne(c.attest, LogContext.Capacity(c.n), log, CallFor(w.outbox[0], stale));
            && LeaderOk(c.attest, log2, st, replies + 1)
            && QueuesOk(w.(outbox := w.outbox[1..]), CountOf(log2, f), shipped, f)
            && CountOf(log2, Other(f)) == CountOf(log, Other(f))
  {
    var logged := CountOf(log, f);
    ReplyKeepsQueues(w, logged, shipped, f);
    LoggedReplyKeepsLeader(c, log, st, replies, w.outbox[0], stale, f);
    assert CountOf(LogOne(c.attest, LogContext.Capacity(c.n), log, CallFor(w.outbox[0], stale)), f) == logged + 1;
  }

  lemma ReplyKeepsInv(c: Config, s: Sys, f: nat, stale: seq<byte>)
    requires ConfigOk(c) && Inv(c, s) && Enabled(c, s, Reply(f, stale))
    ensures Inv(c, Do(c, s, Reply(f, stale)))
  {
    RoomForReply(c, s, f);
    var w := At(s, f);
    assert QueuesOk(w, CountOf(s.leader.log, f), Shipped(c, s), f) by { assert FollowerInv(c, s, f); }
    ReplyMoves(c, w, f, Shipped(c, s), s.leader.log, s.leader.st, s.replies, stale);
    var log2 := LogOne(c.attest, LogContext.Capacity(c.n), s.leader.log, CallFor(w.outbox[0], stale));
    OneFollowerMoved(c, s, f, w.(outbox := w.outbox[1..]), log2, s.replies + 1);
  }

  lemma ShippedToBoth(c: Config, s: Sys, s2: Sys)
    requires s.leader.Live? && s2.leader.Live? && s2.leader.log == s.leader.log
    requires FollowerInv(c, s, 1) && FollowerInv(c, s, 2) && Shipped(c, s2) == Shipped(c, s) + 1
    requires s2.f1 == Queue(s.f1, REQ_SIZE) && s2.f2 == Queue(s.f2, REQ_SIZE)
    ensures FollowerInv(c, s2, 1) && FollowerInv(c, s2, 2)
  {
    ShipKeepsQueues(s.f1, CountOf(s.leader.log, 1), Shipped(c, s), 1);
    ShipKeepsQueues(s.f2, CountOf(s.leader.log, 2), Shipped(c, s), 2);
  }

  lemma FlushKeepsInv(c: Config, s: Sys)
    requires ConfigOk(c) && Inv(c, s) && Enabled(c, s, Flush)
    ensures Inv(c, Do(c, s, Flush))
  {
    ShippedToBoth(c, s, Do(c, s, Flush));
  }

  lemma SubmitKeepsInv(c: Config, s: Sys)
    requires ConfigOk(c) && Inv(c, s) && Enabled(c, s, Submit)
    ensures Inv(c, Do(c, s, Submit))
  {
    var s2 := Do(c, s, Submit);
    AuditNeverExits(c, s);
    if s.curIdx == 1 {
      ShippedToBoth(c, s, s2);
    } else {
      SameQueue(c, s, s2, 1);
      SameQueue(c, s, s2, 2);
    }
  }

  lemma AuditKeepsInv(c: Config, s: Sys)
    requires Inv(c, s)
    ensures Inv(c, s.(leader := AuditNow(s.leader)))
  {
    var s2 := s.(leader := AuditNow(s.leader));
    AuditNeverExits(c, s);
    SameQueue(c, s, s2, 1);
    SameQueue(c, s, s2, 2);
  }

  lemma StepKeepsInv(c: Config, s: Sys, step: Step)
    requires ConfigOk(c) && Inv(c, s) && Enabled(c, s, step)
    ensures Inv(c, Do(c, s, step))
  {
    match step
    case Submit => SubmitKeepsInv(c, s);
    case Flush => FlushKeepsInv(c, s);
    case Propose(f, junk) => ProposeKeepsInv(c, s, f, junk);
    case Reply(f, stale) => ReplyKeepsInv(c, s, f, stale);
    case DoAudit => AuditKeepsInv(c, s);
  }

  lemma {:induction false} ExecKeepsInv(c: Config, steps: seq<Step>)
    requires ConfigOk(c)
    ensures Inv(c, Exec(c, steps))
    decreases |steps|
  {
    if steps != [] {
      ExecKeepsInv(c, steps[..|steps| - 1]);
      var s, step := Exec(c, steps[..|steps| - 1]), steps[|steps| - 1];
      if Enabled(c, s, step) { StepKeepsInv(c, s, step); }
    }
  }

  // ----- authenticators -----

  /** A response ends in the MAC over all that precedes it. */
  predicate MacOk(attest: Attest, resp: seq<byte>) {
    |resp| == ACK_MSG_SIZE + HASH_SIZE && attest(resp[..ACK_MSG_SIZE]) == resp[ACK_MSG_SIZE..]
  }

  /** An entry's authenticator is the MAC over the ack that its context begins with. */
  predicate EntryMacOk(attest: Attest, e: Entry) {
    attest(ContextOf(e)[..ACK_MSG_SIZE]) == AuthenticatorOf(e)
  }

  ghost predicate LogMacsOk(attest: Attest, log: Log) {
    forall i: nat :: i < |log| ==> EntryMacOk(attest, log[i])
  }

  ghost predicate OutboxMacsOk(attest: Attest, w: Follower) {
    forall k: nat :: k < |w.outbox| ==> MacOk(attest, w.outbox[k])
  }

  ghost predicate MacInv(attest: Attest, s: Sys) {
    LogMacsOk(attest, s.leader.log) && OutboxMacsOk(attest, s.f1) && OutboxMacsOk(attest, s.f2)
  }

  lemma ResponseMacOk(attest: Attest, cmt: nat, sender: nat, junk: seq<byte>)
    requires cmt < TWO32 && sender < TWO32 && |junk| == OUT_SIZE - 4
    ensures MacOk(attest, Response(attest, cmt, sender, junk))
  {
    var body := Encode(AckMsg(1, Le(cmt, 4) + junk, cmt, sender)) + Zeros(ACK_MSG_SIZE - ENCODED);
    assert Response(attest, cmt, sender, junk)[..ACK_MSG_SIZE] == body;
  }

  lemma LoggedMacOk(attest: Attest, max: nat, log: Log, resp: seq<byte>, stale: seq<byte>)
    requires LogMacsOk(attest, log) && MacOk(attest, resp) && |stale| == CTX_SIZE
    ensures LogMacsOk(attest, LogOne(attest, max, log, CallFor(resp, stale)))
  {
    var call := CallFor(resp, stale);
    NewEntryStores(attest, log, call);
    assert EntryMacOk(attest, NewEntry(attest, log, call));
  }

  lemma ProposalKeepsMacs(attest: Attest, w: Follower, sender: nat, junk: seq<byte>)
    requires OutboxMacsOk(attest, w) && w.inbox != [] && w.inbox[0] >= HASH_SIZE
    requires sender < TWO32 && |junk| == OUT_SIZE - 4
    ensures OutboxMacsOk(attest, HandleProposal(attest, w, sender, junk))
  {
    ResponseMacOk(attest, (w.cmtIdx + (w.inbox[0] - HASH_SIZE) / K_MSG_SIZE) % TWO32, sender, junk);
  }

  lemma StepKeepsMacs(c: Config, s: Sys, step: Step)
    requires MacInv(c.attest, s) && Enabled(c, s, step)
    ensures MacInv(c.attest, Do(c, s, step))
  {
    match step
    case Submit =>
    case Flush =>
    case Propose(f, junk) => ProposalKeepsMacs(c.attest, At(s, f), f, junk);
    case Reply(f, stale) =>
      assert MacOk(c.attest, At(s, f).outbox[0]);
      LoggedMacOk(c.attest, LogContext.Capacity(c.n), s.leader.log, At(s, f).outbox[0], stale);
    case DoAudit =>
  }

  lemma {:induction false} ExecKeepsMacs(c: Config, steps: seq<Step>)
    ensures MacInv(c.attest, Exec(c, steps))
    decreases |steps|
  {
    if steps != [] {
      ExecKeepsMacs(c, steps[..|steps| - 1]);
      var s, step := Exec(c, steps[..|steps| - 1]), steps[|steps| - 1];
      if Enabled(c, s, step) { StepKeepsMacs(c, s, step); }
    }
  }

  // ----- the results -----

  /** In every run the leader's audit never exits, the log holds one entry per reply, its
      chain is good, and no reply ever finds the log full. */
  lemma LeaderNeverExits(c: Config, steps: seq<Step>)
    requires ConfigOk(c)
    ensures var s := Exec(c, steps);
            && s.leader.Live?
            && |s.leader.log| == s.replies <= 2 * c.n
            && ChainOk(c.attest, s.leader.log)
            && (s.f1.outbox != [] || s.f2.outbox != [] ==> |s.leader.log| < LogContext.Capacity(c.n))
  {
    ExecKeepsInv(c, steps);
    CapacityIsEnough(c);
    var s := Exec(c, steps);
    assert FollowerInv(c, s, 1) && FollowerInv(c, s, 2);
  }

  /** When the links are empty after the flush, both followers have acknowledged all N
      requests, and an audit leaves both counters at N. */
  lemma RunEndsComplete(c: Config, steps: seq<Step>)
    requires ConfigOk(c) && Exec(c, steps).flushed
    requires forall f: nat :: IsFollower(f) ==> At(Exec(c, steps), f).inbox == [] && At(Exec(c, steps), f).outbox == []
    ensures var s := Exec(c, steps);
            && s.leader.Live? && |s.leader.log| == s.replies == 2 * c.n
            && AuditNow(s.leader).Live? && AuditNow(s.leader).st.last == 2 * c.n
            && CounterOf(AuditNow(s.leader).st.counters, 1) == c.n == CounterOf(AuditNow(s.leader).st.counters, 2)
            && Sum(AuditNow(s.leader).st.counters) == 2 * c.n
  {
    ExecKeepsInv(c, steps);
    var s := Exec(c, steps);
    assert FollowerInv(c, s, 1) && FollowerInv(c, s, 2);
    AuditNeverExits(c, s);
    AuditVerdict(s.leader.log);
    AuditAdvances(Fresh, s.leader.log);
    CountersSumToEntries(Fresh, s.leader.log);
    SumWithout(Fresh.counters, 1);
    SumWithout(Fresh.counters - {1}, 2);
    assert Fresh.counters - {1} - {2} == map[];
  }

  /** In every run, whatever N, every response on a link ends in the MAC over its first 76 bytes,
      and every entry of the leader's log has as authenticator the MAC over the first 76 bytes
      of its context. */
  lemma EntriesAreAuthenticated(c: Config, steps: seq<Step>)
    ensures var s := Exec(c, steps);
            && (forall i: nat :: i < |s.leader.log| ==>
                  c.attest(ContextOf(s.leader.log[i])[..76]) == AuthenticatorOf(s.leader.log[i]))
            && (forall f: nat, k: nat :: IsFollower(f) && k < |At(s, f).outbox| ==>
                  |At(s, f).outbox[k]| == 108 && c.attest(At(s, f).outbox[k][..76]) == At(s, f).outbox[k][76..])
  {
    ExecKeepsMacs(c, steps);
    var s := Exec(c, steps);
    forall i: nat | i < |s.leader.log|
      ensures c.attest(ContextOf(s.leader.log[i])[..76]) == AuthenticatorOf(s.leader.log[i])
    {
      assert EntryMacOk(c.attest, s.leader.log[i]);
    }
    forall f: nat, k: nat | IsFollower(f) && k < |At(s, f).outbox|
      ensures |At(s, f).outbox[k]| == 108 && c.attest(At(s, f).outbox[k][..76]) == At(s, f).outbox[k][76..]
    {
      assert MacOk(c.attest, At(s, f).outbox[k]);
    }
  }

  lemma StepAudits(c: Config, s: Sys, step: Step)
    requires (step.Submit? || step.DoAudit?) && Enabled(c, s, step)
    ensures Do(c, s, step).leader == AuditNow(s.leader)
  {
  }

  /** Every request sent, and every audit asked for, leaves no entry unaudited: the leader has
      audited its whole log, and its audit state is that of one audit of the whole log. */
  lemma SubmitAndAuditCatchUp(c: Config, steps: seq<Step>, step: Step)
    requires ConfigOk(c) && (step.Submit? || step.DoAudit?) && Enabled(c, Exec(c, steps), step)
    ensures var before, after := Exec(c, steps), Exec(c, steps + [step]);
            && after.leader.Live? && after.leader.log == before.leader.log
            && after.leader.st.last == |after.leader.log|
            && Some(after.leader.st) == Audit(Fresh, after.leader.log)
  {
    assert (steps + [step])[..|steps + [step]| - 1] == steps;
    ExecKeepsInv(c, steps);
    StepAudits(c, Exec(c, steps), step);
    AuditNeverExits(c, Exec(c, steps));
    AuditAdvances(Fresh, Exec(c, steps).leader.log);
  }
}
