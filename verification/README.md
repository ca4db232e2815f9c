# Verified models of the replication protocols

This project models five components of the repository and proves what they promise over every
run: the ALC all-to-all round commit (`alc/`), the trusted log with incremental audit
(`trusted-log/`), the leader/follower propose-commit protocol (`rf/`), attested chain replication
(`bft-cr/`, `crypto/signed_msg.h`) and the length-prefixed stream framing
(`network_bench/authenticators/`). `dafny verify dfyconfig.toml` checks all of it.

## How the models are built

Each component has two layers. Objects that the source updates in place are classes with the
source's fields, and every method is proved against a function on values (`AlcContext` against
`AlcNode`, `LogContext` and `LogHandlers` against `LogChain`, `LogAudit` and `LogRun`, `RfContext`
against `RfProtocol`, `BftProto` and `BftHead` against `BftRun`, the `Framing.Socket` methods
against `Framing.Receive`). Those functions are then the steps of a whole system, and the theorems
quantify over every list of steps.

| component | modules |
|---|---|
| ALC | `AlcNode`, `AlcContext`, `AlcNetwork`, `AlcInvariant`, `AlcTheorems`, `AlcFlush` |
| trusted log | `AckFormat`, `TrustedLog`, `LogChain`, `LogAudit`, `LogContext`, `LogRun`, `LogHandlers` |
| rf | `RfBatcher`, `RfProtocol`, `RfContext`, `RfTheorems` |
| bft-cr | `SignedMsg`, `BftProto`, `BftRun`, `BftHead` |
| framing | `Framing` |
| shared | `Bytes` |

Assumptions, all of them visible in the models:

- A handler runs to completion before the next one starts: every RPC object has one dispatch thread.
- The transport delivers every message exactly once. In `alc` and `rf` the order is arbitrary (a
  multiset of messages in flight); in `trusted-log` and `bft-cr` each link is a queue.
- The attestation is an arbitrary deterministic function from byte strings to 32 bytes. Nothing is
  assumed about collisions; where they matter the theorem exhibits one.
- Bytes of a `trusted-log` response that the encoder does not write are zero.
- The network side of a socket is a list of grants, one per `recv` or `send` call: a negative grant is
  "nothing yet" or an error, a non-negative one bounds the byte count. When the grants run out, a
  receive returns 0 and a send takes everything.

### ALC in more detail

Three symmetric nodes ship numbered batches. Each node counts four events per round (two peer batches,
two acks), then broadcasts a commit; it counts four more (two peer commits, two commit-acks), then
erases the round, in order. The handlers look rounds up without a check
(`proto_meta[rd]->nb_acks++`); a lookup of a missing round is the outcome `Crash`. A global
invariant, kept by every step, ties every counter and every message in flight to the history of
handled messages, and shows that `Crash` cannot happen.

`flash_batcher` adds an ack of its own (`alc/main.cc:169`), so a flushed round reaches four without
one of the real acks. Runs may flush, but the safety theorems speak of rounds below a bound `F` that
no node has flushed; a run without flushes satisfies them for every `F`.
`AlcFlush.LiveExactlyBelowFlushes` shows that the bound is exact: for every round `r` there is a run
that flushes nothing below `r`, and in which node 0 erases the flushed round `r` while an ack for it
is still on a link; that ack is then looked up in vain.

### Where the code and its comments differ

- `rf/main.cc:82-90` erases from `prp_acks` on the second commit-ack, where `cmt_acks` would be
  expected. `RfTheorems.CrossEraseIsHarmless` shows that no pending proposal is lost, and
  `RfTheorems.QuiescentMaps` that `cmt_acks` keeps every key for ever.
- `rf/msg.h:88-115` returns -1, not the last index, for a batch of one message. The key is still
  unique in a run (`RfBatcher.KeysAreDistinct`).
- `trusted-log/main.cc:707` validates each audited link but does not use the verdict, so chain
  validity and the audit verdict are separate theorems.
- The comment at `network_bench/authenticators/shared.cpp:23` concerns negative results of `recv`; the
  code retries on those without limit and counts only zero results against its 10000 retries.

## Model

| member | source | states |
|---|---|---|
| AlcNode.DrainIsTheOnlyMaximal | alc/app_context.h:69-109 | the state after the drain is the only one reached by erasing a gap-free, maximal run of complete rounds after the last committed one, bounded by `cur_rd` |
| AlcContext.MsgManager.EnqueueReq | alc/msg.h:56-66 | a request is taken exactly while fewer than 16 are buffered |
| AlcContext.MsgManager.EmptyBuff | alc/msg.h:70-74 | the batch counter moves on by one and the buffer's header holds the new round id |
| AlcContext.ProtocolMetadata.CanCommit | alc/app_context.h:42-67 | true exactly at four acks on a round not yet under commit, and only then is the round marked |
| AlcContext.ProtocolMetadata.IsRoundCompleted | alc/app_context.h:69-91 | erases the next round exactly when it has four commits, and otherwise changes nothing |
| AlcContext.ProtocolMetadata.AddRecvReq | alc/app_context.h:93-102 | creates the round with zero counters, or adds the sender to an existing one |
| AlcContext.ProtocolMetadata.CommitCompletedRds | alc/app_context.h:104-109 | terminates, and erases exactly the maximal gap-free run of complete rounds up to `cur_rd` |
| AlcContext.AppContext.SendReq | alc/main.cc:102-142 | buffers, or ships the full batch to both peers under the round in its header and files it |
| AlcContext.AppContext.FlashBatcher | alc/main.cc:144-171 | ships whatever is buffered and counts one ack for the sender's own round |
| AlcContext.AppContext.ReqHandlerSend | alc/main.cc:273-335 | counts a peer's batch, acks it, and broadcasts the commit when it was the fourth event |
| AlcContext.AppContext.ContFuncSend | alc/app_context.h:187-225 | counts an ack and broadcasts the commit when it was the fourth event |
| AlcContext.AppContext.ReqHandlerCmt | alc/main.cc:337-383 | counts a peer's commit, acks it, and drains |
| AlcContext.AppContext.ContFuncCmt | alc/app_context.h:131-159 | counts a commit-ack and drains |
| AlcContext.AppContext.Deliver | alc/main.cc:273-383 | one delivered message has exactly the effect of the step used in the run theorems |
| AlcInvariant.OnceAndCaused | alc/main.cc:273-383 | below F a message is handled at most once, and only after what must precede it |
| AlcInvariant.FourAcksMean | alc/app_context.h:42-67 | four acks counted means all three nodes have sent the round and this node has both peers' batches |
| AlcInvariant.FourCommitsMean | alc/app_context.h:69-91 | four commits counted means all three nodes have counted four acks |
| AlcInvariant.RoundIsLive | alc/app_context.h:149-204 | a message in flight is for a round above its receiver's commit point and, unless it is a batch, present in its table |
| AlcInvariant.DeliverKeepsInv | alc/main.cc:273-383 | handling any message, early or late, keeps the global invariant |
| AlcInvariant.SubmitKeepsInv | alc/main.cc:102-142 | sending a request keeps the global invariant |
| AlcInvariant.FlushKeepsInv | alc/main.cc:144-171 | flushing a round at or above F keeps the invariant for the rounds below F |
| AlcInvariant.RunKeepsInv | alc/main.cc:102-383 | every state of every run satisfies the global invariant |
| AlcTheorems.EntriesAreLive | alc/app_context.h:149-204 | in every run and delivery order, no handler dereferences a missing round |
| AlcTheorems.ErasedRoundsAreStable | alc/app_context.h:69-91 | once any node has erased r, every node has counted four acks for r, has sent r, and has received r from both peers |
| AlcTheorems.CommitsTrailSends | alc/app_context.h:69-91 | no node's `cmt_rd` reaches past what any other node has sent |
| AlcTheorems.CountersAreConserved | alc/app_context.h:131-225 | for a live round each counter plus what is in flight plus what is unsent is four |
| AlcTheorems.NothingIsSentTwice | alc/app_context.h:161-185 | every message is produced at most once, and a commit exactly when its sender has four acks |
| AlcTheorems.NeverAlreadyUnderCommit | alc/app_context.h:57-65 | the already-under-commit branch of `can_commit` is unreachable |
| AlcTheorems.FiringMakesFour | alc/app_context.h:215-224 | a step brings a node's ack count of a round to four exactly when `can_commit` returns true in it |
| AlcTheorems.CommitsOnce | alc/app_context.h:215-224 | over a whole run `can_commit` has returned true exactly once for each node and round with four acks, and never for others |
| AlcTheorems.NoCompleteRoundIsLeft | alc/app_context.h:104-109 | no handler ends with a complete next round left over: the `cur_rd` bound never holds one back |
| AlcTheorems.CountIsShipments | alc/msg.h:70-74 | after any run the batch counter and the header equal the number of batches the node has shipped |
| AlcTheorems.BatchCarriesItsRound | alc/main.cc:115-140 | the j-th batch a node ships carries round id j to both peers and is filed under j |
| AlcTheorems.RequestsAreConserved | alc/main.cc:102-171 | in every run, flushes included, the requests handed to a node are those in its shipped batches and those still in its buffer |
| AlcTheorems.SixteenPerBatch | alc/main.cc:115-140 | without flushes the requests handed to a node are 16 per shipped batch and those still in its buffer |
| AlcTheorems.BufferAfterShipment | alc/main.cc:133-171 | after a shipment the buffer holds the one request that did not fit, and after a flush nothing |
| AlcTheorems.DeliveriesAreBounded | alc/main.cc:273-383 | a run handles at most eight messages per batch sent |
| AlcTheorems.HandledAreCounted | alc/main.cc:273-383 | the handled messages number exactly the deliveries made, so the bound is one on steps |
| AlcTheorems.LinksCanBeEmptied | alc/main.cc:273-383 | from every reachable state some deliveries alone empty the links, without a crash |
| AlcTheorems.CommittedExactlyIfSent | alc/app_context.h:69-109 | in runs with flushes too: once nothing below F is on a link, a node has committed round r < F exactly if all three nodes have sent it |
| AlcTheorems.QuiescentCommitPoint | alc/app_context.h:104-109 | with empty links every node's `cmt_rd` is the last round that all three have sent |
| AlcTheorems.QuiescentNodesHaveCommitted | alc/app_context.h:104-109 | moreover each table holds exactly the rounds that only some nodes have sent |
| AlcFlush.FlushedRoundCanCrash | alc/main.cc:144-171 | for every round r, a run that flushes nothing below r and in which an ack arrives for round r after its erasure |
| AlcFlush.LiveExactlyBelowFlushes | alc/app_context.h:149-204 | the lookups of round r are safe in all runs that flush nothing below F exactly when r is below F |
| AckFormat.MemcpyAckIntoBuffer | trusted-log/msg_format.h:137-147 | writes the four fields at bytes 0, 1, 17 and 21 and leaves the rest of the buffer as it was |
| AckFormat.DecodeReadsEncode | trusted-log/main.cc:614-662 | the audit's reader gets back what the encoder wrote and accepts exactly true acks with a zero command |
| AckFormat.DecodeIgnoresSuffix | trusted-log/main.cc:614-662 | whatever follows the ack in a log entry does not change what is read |
| TrustedLog.TrustedLog.constructor | trusted-log/log.h:51-59 | an empty log of floor(size / entry size) slots, as a 32-bit count |
| TrustedLog.TrustedLog.Append | trusted-log/log.h:61-73 | refuses exactly when full; otherwise adds the serialized entry and keeps all others |
| TrustedLog.TrustedLog.AppendEntry | trusted-log/log.h:124-147 | the four copies write exactly one entry's bytes, nothing else, and the tail points there |
| TrustedLog.TrustedLog.SerializeEntry | trusted-log/log.h:81-95 | returns a copy of the entry with that index |
| TrustedLog.TrustedLog.SerializeTail | trusted-log/log.h:97-107 | returns the last entry, or the zeroed first slot of an empty log |
| TrustedLog.SerializedFields | trusted-log/log.h:124-147 | sequencer, context, digest and authenticator are read back from a serialized entry, each at its own byte range |
| TrustedLog.SlotsGrow | trusted-log/log.h:61-73 | writing slot n adds one entry to the log of n entries and changes none |
| LogChain.LogOneKeepsChain | trusted-log/main.cc:157-218 | one `log` call, accepted or refused, keeps sequencers and digest links right |
| LogChain.ChainLinks | trusted-log/main.cc:102-155 | in a well-linked log `validate_log_entry` is true everywhere |
| LogChain.LoggingKeepsChain | trusted-log/main.cc:157-218 | after any calls of `log`, refused ones included, every link validates, old entries are unchanged and the size is the number of calls capped by the capacity |
| LogChain.EntriesHoldTheirCalls | trusted-log/main.cc:157-218 | after any calls of `log`, refused ones included, stored entry i holds the context and the authenticator of call i byte for byte |
| LogChain.TamperEvident | trusted-log/main.cc:102-155 | two validating logs of equal length with the same last entry are equal, or two different entries at one position have the same digest |
| LogChain.TailPinsLog | trusted-log/main.cc:102-218 | for logs made by `log` the last entry alone fixes length and content, up to a collision |
| LogAudit.AuditSplits | trusted-log/main.cc:702-729 | auditing two stretches in turn is auditing their concatenation |
| LogAudit.AuditVerdict | trusted-log/main.cc:614-729 | the audit avoids exit exactly when every entry is a true ack with zero command, output equal to cmt, and the j-th of its sender for cmt j, however senders interleave |
| LogAudit.CountersSumToEntries | trusted-log/main.cc:715-729 | the counters grow by `batch_count` per audited entry in sum |
| LogAudit.SuffixAuditIsFullAudit | trusted-log/main.cc:686-736 | auditing the new suffix gives verdict and state of one audit of the whole log |
| LogAudit.InterleavingInvariant | trusted-log/main.cc:157-218 | for any interleaving of `log` and `log_audit` the audit state is that of the log as it stood at the last audit |
| LogAudit.IncrementalEqualsFull | trusted-log/main.cc:686-736 | after any interleaving a final audit leaves exactly the state, or the exit, of one audit of the final log from scratch |
| LogContext.ProtocolMetadata.constructor | trusted-log/main.cc:88-93 | counters for senders 1 and 2 and a log of the configured capacity |
| LogContext.ProtocolMetadata.ValidateLogEntry | trusted-log/main.cc:102-155 | true exactly when the entry holds its predecessor's digest |
| LogContext.ProtocolMetadata.Log | trusted-log/main.cc:157-218 | links and appends, refuses when full, exits when the context is too long |
| LogContext.ProtocolMetadata.AuditEntry | trusted-log/main.cc:702-729 | one turn of the audit loop, with its exit |
| LogContext.ProtocolMetadata.LogAudit | trusted-log/main.cc:686-736 | the loop audits exactly the entries logged since the last audit |
| LogHandlers.FollowerContext.ReqHandlerPrp | trusted-log/main.cc:775-911 | logs the batch, counts each of its messages modulo 2^32 and answers with an ack that reads as that count and ends in its MAC |
| LogHandlers.LeaderContext.SendReq | trusted-log/main.cc:346-421 | one submit step of the run: buffer or ship, then audit |
| LogHandlers.LeaderContext.FlashBatcher | trusted-log/main.cc:423-465 | the flush step of the run |
| LogHandlers.LeaderContext.ContFuncPrp | trusted-log/main.cc:266-329 | one reply is one `log` call and one more counted reply |
| LogRun.CapacityIsEnough | trusted-log/main.cc:91-92 | the configured capacity is exactly floor(832 N / 276), and at least 2N |
| LogRun.ResponseReadsAs | trusted-log/main.cc:834-911 | the audit reads a follower's response as its commit index and sender |
| LogRun.StepKeepsInv | trusted-log/main.cc:266-911 | every step of leader, followers and links keeps the run invariant |
| LogRun.EntriesAreAuthenticated | trusted-log/main.cc:266-911 | in every run each response ends in the MAC over its first 76 bytes and each entry of the leader's log has that MAC of its context as authenticator |
| LogRun.SubmitAndAuditCatchUp | trusted-log/main.cc:420-736 | every request sent and every audit asked for leaves the whole log audited, with the state of one audit of all of it |
| LogRun.LeaderNeverExits | trusted-log/main.cc:505-542 | in every run the audit never exits, log size equals replies, every link is right, and a pending reply always finds room |
| LogRun.RunEndsComplete | trusted-log/main.cc:520-542 | with empty links after the flush there are exactly 2N entries, and an audit leaves both counters at N |
| RfBatcher.MsgManager.EnqueueReq | rf/msg.h:43-52 | a message is taken exactly while fewer than 16 are buffered, behind the others |
| RfBatcher.LeaderContext.SendReq | rf/main.cc:185-212 | buffers, or ships the full buffer and starts the next with this request |
| RfBatcher.LeaderContext.LeaderFunc | rf/main.cc:268-287 | the whole sending loop ships exactly the batches of N requests |
| RfBatcher.BatchingIsLossless | rf/main.cc:185-228 | those batches concatenate to 0..N-1 in order, all full except possibly the last |
| RfBatcher.ParseIndexes | rf/msg.h:88-115 | the exact first and last index of a batch of 2 to 16 messages; -1 where there is none to read |
| RfBatcher.KeysAreDistinct | rf/msg.h:88-115 | different batches of such a run have different ack keys, the -1 of a lone message included |
| RfBatcher.KeysDistinctExactly | rf/msg.h:88-115 | all ack keys of a run differ exactly for N up to 2^32 and for N from 2^32 + 2 to 2^32 + 15, the last index being read into a 32-bit int |
| RfBatcher.KeysSurviveTheWire | rf/main.cc:366-368 | a key is unchanged by its trips through the 64-bit and 32-bit message fields |
| RfContext.ProtocolMetadata.UpdatePrpAcks | rf/main.cc:73-81 | toggles membership of the key; true on the second ack |
| RfContext.ProtocolMetadata.UpdateCmtAcks | rf/main.cc:82-90 | records the key the first time and erases it from the other map the second |
| RfContext.ProtocolMetadata.ContFuncPrp | rf/main.cc:134-162 | the second ack, and only that, sends the commit to both followers |
| RfProtocol.PrpKeepsNet | rf/main.cc:342-383 | a follower handling a batch makes its ack due and nothing else |
| RfProtocol.AcksAfter | rf/main.cc:134-162 | a key is never acked more than twice |
| RfProtocol.ExecKeepsInv | rf/main.cc:134-383 | every run keeps the invariant that ties both maps to the handled messages |
| RfTheorems.PendingIsHalfAcked | rf/main.cc:73-81 | `prp_acks` holds exactly the keys acked by exactly one follower, all of them batch keys |
| RfTheorems.CommitNeedsBothFollowers | rf/main.cc:134-183 | a commit exists only after both followers handled the batch, and only one per follower |
| RfTheorems.CommitsOnce | rf/main.cc:157-162 | `send_cmt` has run exactly once per key acked twice, and for no other |
| RfTheorems.CrossEraseIsHarmless | rf/main.cc:82-90 | when `update_cmt_acks` erases from `prp_acks` the key is already gone |
| RfTheorems.QuiescentMaps | rf/main.cc:110-183 | at the end `prp_acks` is empty and `cmt_acks` holds each sent batch's key with value 1 |
| SignedMsg.SignMsg | crypto/signed_msg.h:102-143 | writes digest, 64-bit length and text within the buffer and leaves the rest as it was |
| SignedMsg.VerifyGetMsg | crypto/signed_msg.h:168-212 | the text and its length as a 32-bit int when accepted, otherwise -1 and one zero byte |
| SignedMsg.SignedUnwraps | crypto/signed_msg.h:102-212 | verifying a signed message gives it back, whatever bytes follow |
| SignedMsg.ReportedSize | crypto/signed_msg.h:205-207 | the reported length is right exactly below 2^31 |
| SignedMsg.AcceptsExactlySigned | crypto/signed_msg.h:168-212 | verification accepts exactly the buffers that begin with a signed message |
| SignedMsg.UnwrapDropsTrailer | crypto/signed_msg.h:102-212 | any nesting of envelopes and trailers unwraps to the innermost message |
| BftProto.ConstructMsg | bft-cr/proto.h:16-30 | the buffer holds the index and one copy of the message per earlier node |
| BftProto.MsgManager.EnqueueReq | bft-cr/msg.h:56-66 | the single slot is filled exactly when empty |
| BftProto.MsgManager.Attestation | bft-cr/msg.h:68-93 | the signed buffer fills its allocation exactly |
| BftProto.State.CheckLeader | bft-cr/proto.h:32-65 | the verdict, and a 32-bit counter that moves only when request and action agree |
| BftProto.CheckOutputs | bft-cr/proto.h:67-107 | true exactly when every earlier node's output equals the leader's |
| BftProto.ConstructMsgMiddle | bft-cr/proto.h:117-157 | the envelope of the head's message and the payload's first bytes, filling its allocation exactly |
| BftProto.NodeContext.MiddleHandler | bft-cr/main.cc:338-436 | verify, check, and forward the nested envelope |
| BftProto.NodeContext.VerifyExecutionTail | bft-cr/proto.h:160-190 | the verdict on an accepted inner envelope, and the counter after it |
| BftProto.NodeContext.TailHandler | bft-cr/main.cc:338-455 | verify both envelopes and check leader and outputs |
| BftProto.MiddleMsgUnwraps | bft-cr/proto.h:117-157 | two unwraps of the middle's message give back the head's payload |
| BftProto.HonestPayloadPasses | bft-cr/proto.h:32-107 | payload i passes both checks at counter i - 1 and moves it to i, modulo 2^32 |
| BftProto.PassesOnlyAtItsTurn | bft-cr/proto.h:32-65 | payload i passes the leader check at turn j exactly when i and j agree modulo 2^32; the counter moves on either way |
| BftProto.ChangedPayloadFails | bft-cr/proto.h:32-107 | a payload whose action or middle output was changed fails its check |
| BftProto.MiddleTurn | bft-cr/main.cc:338-436 | the middle's checks on message i pass at turn j exactly when i and j agree modulo 2^32 |
| BftProto.TailTurn | bft-cr/main.cc:438-455 | the tail's checks on message i pass at turn j exactly when i and j agree modulo 2^32 |
| BftProto.TailSeesChangedOutput | bft-cr/proto.h:160-190 | however it was signed, a payload with a changed middle output fails at the tail |
| BftHead.HeadContext.SendReq | bft-cr/main.cc:92-133 | one submit step of the run |
| BftHead.HeadContext.FlashBatcher | bft-cr/main.cc:135-153 | the flush step of the run |
| BftHead.HeadContext.ReqHandlerCmt | bft-cr/main.cc:458-498 | one commit counted |
| BftRun.MiddleAccepts | bft-cr/main.cc:338-436 | at its turn the middle accepts the head's message and forwards its envelope |
| BftRun.TailAccepts | bft-cr/main.cc:438-455 | at its turn the tail accepts the middle's message |
| BftRun.StepKeepsInv | bft-cr/main.cc:92-498 | every step of the chain keeps the run invariant |
| BftRun.PrefixChain | bft-cr/main.cc:338-498 | the tail's accepted sequence is a prefix of the middle's, that one of the head's; all checks succeed; counters are messages seen minus one modulo 2^32 |
| BftRun.QuiescentHead | bft-cr/main.cc:183-202 | with empty links after the flush the head has counted N commits exactly when N is at least one |
| Framing.LengthRoundTrip | network_bench/authenticators/shared.h:52-87 | the length field returns the size modulo 2^32, so the size itself exactly when it fits |
| Framing.ConvertIntToByteArray | network_bench/authenticators/shared.h:72-87 | four bytes, most significant first, and nothing else written |
| Framing.ConstructMessage | network_bench/authenticators/shared.h:127-131 | length field then payload, and nothing else written |
| Framing.Socket.ReadN | network_bench/authenticators/shared.cpp:14-38 | terminates on every schedule; the buffer holds the bytes read in order and the rest is untouched |
| Framing.Socket.SecureRecv | network_bench/authenticators/shared.cpp:40-75 | the payload or a failure, and exactly what is left in the stream |
| Framing.Socket.SecureSend | network_bench/authenticators/shared.cpp:77-104 | everything goes out whatever the partial sends, or an error leaves a proper prefix |
| Framing.SendAll | network_bench/authenticators/shared.h:228-236 | framing and sending a list puts exactly its stream on the wire |
| Framing.FrontFrame | network_bench/authenticators/shared.cpp:40-75 | a frame at the front is received whole or not at all, and the rest of the stream is intact |
| Framing.ReceivedIsPrefix | network_bench/authenticators/shared.cpp:40-75 | under every chunking what is received is a prefix of what was sent, message by message |
| Framing.PatientReadFills | network_bench/authenticators/shared.cpp:14-38 | with at most 10000 empty reads in a row and enough productive ones a read is filled |
| Framing.ReadGivesUp | network_bench/authenticators/shared.cpp:14-38 | more than 10000 empty reads before a productive one end a read where it stands, negative results not counted |
| Framing.PatientReceiverGetsAll | network_bench/authenticators/shared.cpp:14-75 | under such a schedule exactly the list that was sent is received |
| Framing.AckNeedsPayload | network_bench/authenticators/shared.h:238-255 | `recv_ack` hands over a received frame exactly when its payload is not empty |
| Framing.AckIsNonEmptyReceive | network_bench/authenticators/shared.h:238-255 | on any stream and schedule `recv_ack` hands over exactly a received, non-empty payload |
| Bytes.Le4Bytes | trusted-log/msg_format.h:144-146 | a copied 32-bit word lies least significant byte first, and larger values lose their high bits |

## Left out

General:

- eRPC, sessions, polling loops, threads, flags, printing, sleeps, buffer allocation and OpenSSL are not modelled; a response is read even after the source has freed its buffer.
- The attestation variants (TNIC, SGX, AMD) are one function; the SGX and AMD flush of trusted-log signs a full batch length whatever the fill level, which is the same bytes at `batch_count` 1.
- Heap objects owned by a C++ map are values inside a Dafny map, so aliasing of map entries is not captured; the source never shares one.

ALC:

- AlcTheorems.EntriesAreLive: rounds at or above the first flushed one are outside it, because the claim is false there (AlcFlush.LiveExactlyBelowFlushes).
- AlcTheorems.DeliveriesAreBounded: runs without a flush only, and so are LinksCanBeEmptied, QuiescentCommitPoint and QuiescentNodesHaveCommitted, since a flushed round can be looked up in vain; AlcTheorems.CommittedExactlyIfSent covers the rounds before the flush.
- Batch contents, and the map `ucmt_reqs` beyond its keys: the receiver files every batch under sender 0, and the sender's copy omits the last 8 bytes of the buffer.
- Round ids as 64-bit counters, 32-bit message fields and int fields: runs of 2^31 rounds and more.

trusted-log:

- A follower's own log is kept by LogHandlers.FollowerContext.ReqHandlerPrp but is not part of the whole-run state of LogRun.
- Ack fields that the encoder does not write (`state`, `cmd`), the previous-state hashes, the terminate request, and MAC checks whose failure is only printed.
- LogHandlers.FollowerContext.ReqHandlerPrp: a request shorter than its MAC is left out, as the source's size arithmetic then wraps around.
- LogRun.LeaderNeverExits: N = 0 is left out, as the source then reads the tail of an empty allocation, and so is N at or above 2^30, where `iterations * 2` overflows an int.
- LogAudit.AuditVerdict: `last_log_seq` is an int in the source; counts of 2^31 and more are not modelled.

rf:

- RfTheorems.QuiescentMaps: runs whose ack keys all differ, that is up to 2^32 requests; the other run theorems carry the same condition, whose exact form is RfBatcher.KeysDistinctExactly.
- Message contents other than the sequence index, and the node id in an ack, which the source only prints.

bft-cr:

- What a node does after a failed check: the source prints and goes on with undefined data, so BftRun stops such a run (`ok` falls) and proves that it never happens in an honest one; which messages fail is stated per call in BftProto.
- BftProto.NodeContext.MiddleHandler: stated for messages that pass the checks, for that reason.
- SignedMsg.VerifyGetMsg: the claimed length must lie within the buffer; the source does not look.
- The two-node build, and the commit indices that the tail parses out of signed bytes.

Framing:

- Framing.PatientReceiverGetsAll: the schedule is a finite list, so it must hold one productive read per byte of the stream.
- Connection set-up, and the process exit of `recv_ack` and `sent_request` on failure.
