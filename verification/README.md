# Sigil SDK: a verified model

This project models the governance core of the Sigil Python SDK in Dafny and proves what it promises:
that a governed tool call never runs without permission, that a human approval is used at most once,
that a revocation is never forgotten, that a token never grants more than was minted into it, and that
every audit event is at any time in exactly one place on its way to the server. Replay of the disk
overflow promises less, it can lose an event and deliver one more than once: exactly when is proved as well.

| module | subject |
|---|---|
| `Wrappers`, `Http` | optional values; the checks the client makes on every reply |
| `Governance` | one governed call: the declarative condition for running a tool, the specification of the outcome and the record, and the wrapper itself on the real buffer and files |
| `Permission` | what it takes to run a tool and what is told otherwise, from the letters of the inputs |
| `Calls` | any number of such calls interleaved with each other, with the kill-switch subscriber and with a server that grants each approval once |
| `ApprovalPoll`, `AsyncPoll` | waiting for a human, blocking and on the event loop |
| `Verify`, `TokenFacts`, `Base64Url`, `Attenuation` | local token verification (base64url without padding: sections 5 and 3.2 of RFC 4648) |
| `Revocation`, `SubscriberLoop` | the bounded kill-switch registry and the thread that feeds it |
| `AuditBuffer`, `Flusher`, `Pipeline` | the ring buffer, a flush, and the whole audit pipeline under concurrency |
| `EventFates` | for each way an event can go, the actions, and only those, that send it there |
| `ReplayRaces`, `FlushAll`, `PipelineRaces` | which interleavings of the pipeline lose an event, deliver it twice, let `flush_all` return too soon or miss a wake-up |
| `Overflow`, `OverflowLaws`, `OverflowWriters`, `FileNames` | the disk overflow and its replay; several writers at once |

State that the program updates in place is a class with fields and loops (`LogBuffer`, `Deque`,
`RevocationSubscriber`, `OverflowWriter`, `Flusher`, `Client`), proved against specification functions;
concurrency is a state machine whose actions pick the thread and the outcome, so that a sequence of
actions is one interleaving. `dafny verify dfyconfig.toml` checks everything.

Assumptions about the world are parameters or explicit predicates: `ApprovalPoll.ClockOk` (the clock
does not run backwards and sleeping takes at least as long as asked), `Overflow.Faithful` (an event is
encoded on one line and decoded to itself), the server ledger in `Calls` (each approval id is granted
at most once), `Verify.Lib` (signatures, JSON, timestamps; nothing assumed), and
`ReplayRaces.Serialised` where a theorem needs it. Replies, faults, revocation messages and
schedules are arbitrary.

## Where the code and its descriptions differ

The model follows the code.

- `docs/protocol.md:132` treats the verdict `approve` as a denial; the code waits for the approval.
- `docs/protocol.md:77` checks each block's `rid` against a revocation cache; the code has none.
- `docs/protocol.md:221` forces a preflight for every call while the subscriber is disconnected; the code
  consults `kill_switch_fail_mode` instead (`sigil/decorators.py:431-458`).
- `sigil/verify.py:224` says "earliest expiry across ALL blocks"; within one block the first parseable
  check counts, not the earliest. `Attenuation.FirstCheckSuffices` gives the exact condition.
- `sigil/_overflow.py:95-98` argues from a single-threaded flusher; `flush_all` and fail-closed denials
  write from other threads. A replay may delete a line it has not read, and a writer may write to a file
  deleted after it opened it (`sigil/_overflow.py:114-116`): `ReplayRaces.LostExactlyWhen` says for each
  event which schedules lose it, `PipelineRaces.DenialDuringReplayIsLost` and
  `PipelineRaces.DenialToDeletedFileIsLost` show one of each kind. It is not enough that nothing is
  appended during a replay; the whole write, from open to close, must not overlap a replay of that day.
  `OverflowWriters.BoundedExactlyWhen` says how far overlapping writers take a file past its cap.
- `sigil/_overflow.py:123` calls replay "idempotent-ish": a file of which a later chunk is refused, or that cannot
  be deleted, or that two threads replay at once, is sent again. `ReplayRaces.SentMoreThanOnceExactlyWhen`
  says when an event is accepted more than once, `ReplayRaces.SentAtMostOnce` when none can be.
- `sigil/_buffer.py:94-95` says that events are delivered before `flush_all` returns. It returns when it
  finds the buffer empty, while another flusher may still hold a batch it took before or during the call
  (`FlushAll.FlushAllDelivers`, `PipelineRaces.FlushAllReturnsEarly`); the background thread is a daemon
  (`sigil/_buffer.py:77`) and can end with the process while it holds one.
- `sigil/_subscriber.py:78` says that a stopped subscriber is not healthy; for a moment it can be
  (`SubscriberLoop.HealthyAfterStopExactlyWhen`, `SubscriberLoop.HealthyAgainExactlyFrom`).
- `sigil/_buffer.py:44-45` signals the flusher at fifty events; after a flush that ended on an error it can
  wait with more (`PipelineRaces.WakeUpMissedExactlyWhen`).
- `sigil/decorators.py:15-18` promises an event whatever the tool does; that is so once the tool is entered.
  `Governance.RecordedExactlyWhen` lists exactly the earlier exits that leave none.
- `sigil/_overflow.py:87-88` bounds the file size; `OverflowWriters.FullFileGrowsExactlyWhen` says when a
  full file still grows.

## Model

| member | source | states |
|---|---|---|
| `Calls.EveryCallEndsAsIfAlone` | sigil/decorators.py:934-1088 | In every interleaving of any number of calls, blocking or async, with the kill-switch and the server: a finished call has the outcome, and exactly the one record, the blocking wrapper would have produced alone in the world that call met; an unfinished call has left no record |
| `Calls.NothingRunsUnpermitted` | sigil/decorators.py:1018-1088 | Over all runs: a tool is entered only if its token grants this very tool by its full name in every block, is for the tenant of the client, in time and signed by the key it names; nothing is revoked; the gate passed; and the tier is low or medium, or sigil-core consents. A finished call ran exactly if what it met permits it |
| `Calls.SingleUse` | sigil/decorators.py:664-739 | Of all calls waiting for the same approval id at most one ever reaches its tool: the one the server issued the grant to, whose record carries that grant; a call that got as far as the approval and did not run was denied |
| `Calls.LostGrantIsNeverUsed` | sigil/client.py:735-797 | A grant whose reply was lost or late, or that went to another process, lets no call run under that approval in any continuation |
| `Calls.RevocationStopsLaterCalls` | sigil/decorators.py:409-429 | Once a message that concerns this agent has been received, no call that has not begun ever runs its tool, whatever messages and interleavings follow |
| `Calls.SeesTheSwitchAsItIs` | sigil/decorators.py:409-458 | In every run, what a call takes from the kill-switch is what the kill-switch was at that very step: once as the call begins, and again at the gate |
| `Calls.SwitchFromHistory` | sigil/_subscriber.py:87-176 | At any time of any run the kill-switch is what the messages so far, in order, and the last change of its connection have made it |
| `Calls.GrantedExactlyWhen` | sigil/client.py:735-797 | The ledger of the server: an approval is granted exactly if it was redeemed, by a call or by another process, and its grant never changes |
| `Calls.EveryCallEnds` | sigil/decorators.py:348-369 | Every call is over after at most 4 * (ceil(timeout/interval)+1) + 9 of its own steps, whatever other calls and the server do |
| `Calls.RunKeepsInv` | sigil/decorators.py:372-739 | The invariant behind the above: what each point of a call knows of its world, the audit trail, and the correspondence of grants in hand with the server ledger, kept by every action |
| `Calls.StepKeeps` | sigil/decorators.py:372-877 | Every single step of a call keeps that knowledge, and leaves a record exactly when it ends the call |
| `Governance.ExecutesExactlyWhenAllowed` | sigil/decorators.py:409-739 | Fail-closed in both directions: the tool runs if and only if the environment permits it, stated without reference to the order of the checks |
| `Permission.RunsExactlyWhen` | sigil/decorators.py:409-739 | The whole condition for running a tool, both ways, read off the inputs: token, keys, names, kill-switch, clock, answers of sigil-core, of the human and to the redemption |
| `Permission.TokenAcceptedExactlyWhen` | sigil/decorators.py:460-495 | The verifier is asked for this call and no other: it accepts exactly a token that is signed by the key it names, grants namespace.name in every block, has not expired in any, and whose first block is for the tenant of the client |
| `Permission.MintedCallRunsExactly` | sigil/decorators.py:462-605 | From minting to execution: with a minted token, attenuated any number of times, the tool runs exactly if it was minted and kept by every attenuation, the tenant is the minted one, nothing has expired, the signature is as named, the kill-switch does not object and, for the upper tiers, sigil-core consents |
| `Permission.MintedCallEndsExactly` | sigil/decorators.py:409-495 | What the caller of a low or medium tool is told, in every case: revoked, kill-switch degraded, invalid, expired, wrong tenant, out of scope, in this order; only an expiry without a time zone escapes |
| `Permission.NothingToShow` | sigil/decorators.py:460-495 | No task, no token, or a token that is malformed or not signed as it names: denied as no_task or token_invalid |
| `Permission.CoreDecides` | sigil/decorators.py:497-739 | How a high or critical call ends for every answer of sigil-core: verdicts known and unknown, without a reason or an id, unreadable, unreachable under either fail mode, approved and then redeemed or not |
| `Governance.RecordedExactlyWhen` | sigil/decorators.py:222-278 | No record exactly for: no task; passed the first two checks but no token, a token that makes the verifier raise, or a preflight body that is no object. The record goes to the overflow writer, which may fail to keep it, instead of the buffer exactly in the unreachable, fail-closed case |
| `Governance.RecordIsTruthful` | sigil/decorators.py:161-200 | The record names agent, task, tool, namespace, tier and arguments as they are, and the latency and entropy of a call that ran; denied / allowed / error and the reason agree with what the caller sees; fail-open and a grant id appear exactly when they should, with the id the server issued, and never together |
| `Governance.CheckMeaning` | sigil/decorators.py:409-607 | Proceed, ask a human, and deny-to-disk each characterised by the environment alone |
| `Governance.LocalDecisionNeedsNoNetwork` | sigil/decorators.py:409-499 | A low-risk call, and any call the local checks refuse, has the same outcome and record whatever the server, the approvers and the disk do |
| `Governance.RefusalIsReported` | sigil/decorators.py:634-661 | Every non-approved outcome of the wait is denied under its own name |
| `Governance.FailedRedemptionIsReported` | sigil/decorators.py:664-739 | After an approval a reply without a grant id denies; a 409 is reported as a replay, and only that |
| `Governance.Client.Invoke` | sigil/decorators.py:1018-1088 | The blocking wrapper ends with the specified outcome, leaves exactly the specified record in the buffer or with the overflow writer and nothing else, and enters the tool once or not at all |
| `Governance.Client.InvokeApproved` | sigil/decorators.py:1039-1088 | Poll, finalize, redeem and execute, in this order, each only if the one before allowed it |
| `Governance.Client.InvokeUnderGrant` | sigil/decorators.py:1059-1088 | After an approval the tool runs exactly under a confirmed grant |
| `Governance.Client.GovernanceCheck` | sigil/decorators.py:372-607 | Outcome of revocation, gate, verification and preflight, with the record each denial leaves |
| `Governance.Client.Preflight` | sigil/decorators.py:497-605 | Outcome for every verdict: deny, approve with and without id, unknown, allow, unreadable, unreachable |
| `Governance.Client.HandlePreflightUnreachable` | sigil/decorators.py:222-278 | Fail mode closed: denied, event handed to the overflow writer and not to the buffer; open: goes on, nothing written |
| `Governance.Client.FinalizeApproval` | sigil/decorators.py:610-661 | Falls through exactly on "approved", otherwise one denial record |
| `Governance.Client.Redeem` | sigil/decorators.py:700-739 | A grant exactly for a 200 reply that carries a non-empty id, otherwise one denial record |
| `Governance.Client.ExecuteAudit` | sigil/decorators.py:786-832 | The tool is entered once and its event recorded whether or not it raises |
| `ApprovalPoll.PollApproval` | sigil/decorators.py:323-345 | Against any monotonic clock and any server: at most ceil(timeout/interval)+1 status calls, total sleep at most the timeout, no sleep past the deadline, and the outcome of the first iteration that ends the wait |
| `ApprovalPoll.WaitsAdvanceClock` | sigil/decorators.py:286-320 | After n waits the clock has advanced by n intervals or to the deadline, the sleeps fit in between, and n is at most ceil(timeout/interval) |
| `ApprovalPoll.BoundIsAttained` | sigil/decorators.py:323-345 | The bound on status calls is exact: a perfect clock and a server that never decides meet it with equality |
| `ApprovalPoll.ZeroIntervalNeverEnds` | sigil/client.py:315-320 | Without the validation of the interval the poll need not end |
| `ApprovalPoll.Validate` | sigil/client.py:315-320 | Accepted exactly if both numbers are finite and positive (NaN and infinities refused) |
| `ApprovalPoll.ApprovedMeansApproved` | sigil/decorators.py:306-320 | "approved" is returned exactly if the last status answer was a 200 saying so; a timeout only at or after the deadline; no other outcome exists |
| `ApprovalPoll.OutcomeIs` | sigil/decorators.py:323-345 | The outcome of the wait is determined by the server answers and the clock readings |
| `ApprovalPoll.EndsExactlyWhen` | sigil/decorators.py:286-345 | For each outcome, from the answers and the clock alone: approved, rejected or expired exactly if the server said so; unavailable exactly if the answer that ends the wait is none; timeout exactly if it is undecided and late; and every answer before was undecided and in time |
| `AsyncPoll.AsyncAgreesWithBlocking` | sigil/decorators.py:348-369 | However other tasks are interleaved on the event loop, the async poller returns what the blocking one returns in the same world, after the same number of status calls and the same time asleep |
| `AsyncPoll.AsyncEnds` | sigil/decorators.py:348-369 | The async poller is done after at most four of its own moves per allowed status call |
| `Verify.VerifyLocal` | sigil/verify.py:371-504 | ok if and only if the declarative specification of acceptance holds; raises exactly for JSON that is no object or an authentic token with an expiry without time zone; the denial reason is the first failing test; the tools, identities and expiry reported with an acceptance or a denial are the specified ones |
| `Verify.FindKey` | sigil/verify.py:431-444 | True exactly if some allowed key verifies the signature over the raw payload |
| `Verify.ComputeEffectiveTools` | sigil/verify.py:274-286 | A tool is in the result exactly if every block grants it |
| `Verify.VerifyBlocks` | sigil/verify.py:463-504 | The tests on the blocks of an authentic token, with what each denial reports |
| `Verify.MostRestrictiveExpiry` | sigil/verify.py:223-235 | The earliest of the expiries of the blocks, None if no block has one; raises only if one of them has no time zone, and finds that out in every such case |
| `Verify.EarliestIsUnique` | sigil/verify.py:223-235 | That determines the result |
| `Verify.FreshByEarliest` | sigil/verify.py:464-466 | Comparing the time with the earliest expiry is the same as comparing it with every one of them |
| `Verify.WireRoundTrip` | tests/test_verify.py:32-41 | A minted token splits and decodes to the very payload and signature, for all non-empty bytes |
| `Verify.DotPosition` | sigil/verify.py:375-379 | The split is at the first dot |
| `Attenuation.AppendedBlocksOnlyDeny` | sigil/verify.py:464-495 | For every tool, tenant and time, appended blocks can only take away, and exactly what one of them does not grant or no longer permits |
| `Attenuation.AttenuatedTokenIsWeaker` | sigil/verify.py:464-504 | An attenuated token is accepted only where its parent is |
| `Attenuation.ScopeOfAppended` | sigil/verify.py:274-286 | Effective tools of appended blocks: those of the parent that every appended block grants |
| `Attenuation.ExpiryOfAppended` | sigil/verify.py:223-235 | Expiry of appended blocks: the earlier of the two, None being never |
| `Attenuation.OrderOfLaterBlocksIsIrrelevant` | sigil/verify.py:464-495 | Acceptance, expiry and scope are invariant under permuting the blocks after the first |
| `Attenuation.FirstCheckSuffices` | sigil/verify.py:204-220 | A block is respected to the letter of all its expiry checks exactly if its first parseable one is the strictest |
| `Attenuation.SecondCheckIsIgnored` | sigil/verify.py:213-220 | A concrete pair of checks for which it is not |
| `Attenuation.MintedTokenAcceptedExactly` | sigil/verify.py:375-504 | End to end: a minted token with any number of attenuations is accepted exactly if it is signed by the key its kid names (if it has none by the active key, if there is none by any of the keyring), the tool is in the minted block and in every attenuation, the tenant is the minted one, and no block has expired |
| `Attenuation.AuthenticExactlyWhen` | sigil/verify.py:394-461 | For every token that parses: with a kid it is authentic exactly if that kid is in the keyring and its key signed the payload, so never with an unknown kid and never by another key; without one exactly if the active key signed it; without either exactly if some key did |
| `Attenuation.WireIsAuthentic` | sigil/verify.py:375-461 | The same of every payload and signature put on the wire |
| `Attenuation.MintedTokenDeniedFor` | sigil/verify.py:394-504 | The reason for which a minted token is refused, from what was minted |
| `Attenuation.MintedTokenRaisesExactly` | sigil/verify.py:223-235 | It makes the verifier raise exactly if it is signed as it names and some layer expires without a time zone |
| `Attenuation.MintedClaimsReported` | sigil/verify.py:468-504 | What the verifier reports of an accepted token is what was minted |
| `Attenuation.MintedExpiryHolds` | sigil/verify.py:204-220 | A minted expiry ends at the very time that was minted |
| `Attenuation.RotatedKeyIsRefused` | sigil/verify.py:412-417 | With an active key set, a token without kid signed by another key is refused |
| `TokenFacts.ExtractToolNames` | sigil/verify.py:238-250 | The loop computes the names of the tool facts, in order |
| `TokenFacts.ToolNamesMeaning` | sigil/verify.py:238-250 | A name is extracted exactly if it is not empty and some fact has it as its argument |
| `TokenFacts.ExtractIdentity` | sigil/verify.py:253-271 | Each identity is the argument of the last fact of its kind |
| `TokenFacts.ReadOneMore` | sigil/verify.py:238-271 | What one more fact adds to the reading of a block: a tool at the end of the list, or an identity that replaces the one read before |
| `TokenFacts.KindsAreDisjoint` | sigil/verify.py:265-270 | No string is a fact of two kinds, so the order of the tests is irrelevant |
| `TokenFacts.ParseExpiry` | sigil/verify.py:204-220 | The loop computes the expiry of the block |
| `TokenFacts.BlockExpiryIsFirst` | sigil/verify.py:213-220 | It is the first parseable check, all earlier ones being unparseable |
| `TokenFacts.MintedFactsReadBack` | sigil/verify.py:238-271 | Reading minted facts gives exactly the minted tools, in order, and identities, with no cross-talk |
| `TokenFacts.FactsAsWritten` | sigil/verify.py:238-271 | The facts letter by letter: tool("x") and tool(x) both name x, and likewise tenant, agent and task |
| `TokenFacts.ExpiryReadsBack` | sigil/verify.py:213-220 | A minted expiry check is read as the time that was minted |
| `TokenFacts.StripQuotesMeaning` | sigil/verify.py:246-247 | Stripping takes away all quotes at both ends and nothing else |
| `Base64Url.DecodeInvertsEncode` | sigil/verify.py:37-42 | Decoding inverts minting for all byte strings |
| `Base64Url.DecodeDefined` | sigil/verify.py:37-42 | On texts over the alphabet, decoding succeeds exactly if the length is not 1 modulo 4 |
| `Base64Url.PaddingExact` | sigil/verify.py:39-41 | For the length of text that n bytes encode to, the padding put back is exactly the padding that encoding left off |
| `Base64Url.EncodeShape` | tests/test_verify.py:32-34 | Encoded text has no dot and no padding, and is empty only for no bytes |
| `Base64Url.AlphabetInOrder` | sigil/verify.py:37-42 | The URL-safe alphabet of section 5 of RFC 4648 |
| `Base64Url.KnownAnswers` | sigil/verify.py:37-42 | Test vectors of section 10 of RFC 4648 |
| `Base64Url.StandardAlphabetToo` | sigil/verify.py:37-42 | A text in the standard alphabet decodes like the same text in the URL-safe one |
| `Base64Url.OtherCharactersAreSkipped` | sigil/verify.py:37-42 | Characters outside the alphabet, four at a time anywhere in a text, change nothing |
| `Revocation.BoundedAgreesWithHistory` | sigil/_subscriber.py:80-176 | For a non-empty agent id, any cap of at least one, any stream and any task: the bounded registry says revoked exactly if an unbounded history would, that is if some relevant message ever arrived |
| `Revocation.RevokedExactlyWhen` | sigil/_subscriber.py:128-176 | The kill-switch over every stream: our agent is revoked exactly if some payload of scope tenant carried our tenant id, or some payload of scope agent, task or single carried our agent id and no tenant id or ours |
| `Revocation.RelevantExactlyWhen` | sigil/_subscriber.py:145-176 | Whom a message concerns, by its fields alone |
| `Revocation.TouchedExactly` | sigil/_subscriber.py:157-176 | What it revokes: our agent and, for a task or a single call, the task it names |
| `Revocation.OthersChangeNothing` | sigil/_subscriber.py:155-172 | A payload that names another tenant, or another agent, changes nothing |
| `Revocation.ReasonIsKept` | sigil/_subscriber.py:149-176 | The reason stored with our agent is that of the last payload that concerned it, or the general one |
| `Revocation.TaskIsRevokedToo` | sigil/_subscriber.py:167-172 | With room for two keys the named task is revoked too, for whoever asks |
| `Revocation.EvictToIsSuffix` | sigil/_subscriber.py:118-126 | Eviction leaves the newest keys, in their order and with their reasons |
| `Revocation.AgreementNeedsAnAgentId` | sigil/_subscriber.py:80-176 | That agreement on every stream holds exactly if the agent id is not empty |
| `Revocation.EmptyAgentForgets` | sigil/_subscriber.py:118-126 | The witness: without an agent id a flood as long as the cap makes the registry forget a revoked task |
| `Revocation.FloodCannotUnrevoke` | sigil/_subscriber.py:118-176 | No later messages lift a revocation of our own agent |
| `Revocation.MessageKeepsOwnAgent` | sigil/_subscriber.py:128-176 | Invariant of one message, through the eviction between the two inserts of the branch for task revocations: a non-empty registry holds our own agent; irrelevant messages change nothing |
| `Revocation.RunKeepsOwnAgent` | sigil/_subscriber.py:128-176 | The invariant over every stream |
| `Revocation.EvictToKeepsNewest` | sigil/_subscriber.py:118-126 | Eviction respects the cap, invents no key and keeps the newest |
| `Revocation.RevocationSubscriber.SetRevoked` | sigil/_subscriber.py:118-126 | Insertion and the eviction loop, on the fields: an existing key keeps its place, the oldest keys go first |
| `Revocation.RevocationSubscriber.Apply` | sigil/_subscriber.py:128-176 | The registry after one payload, by scope, tenant and agent |
| `Revocation.RevocationSubscriber.Receive` | sigil/_subscriber.py:197-208 | The registry after one delivery; what does not parse changes nothing |
| `Revocation.RevocationSubscriber.IsRevoked` | sigil/_subscriber.py:80-85 | Answers for the agent or the task, empty ids never match |
| `SubscriberLoop.HealthyMeansListening` | sigil/_subscriber.py:87-99 | In every reachable state connected implies that a subscribe succeeded and no failure has been handled since; never once the thread has ended |
| `SubscriberLoop.WaitAfterFailures` | sigil/_subscriber.py:187-248 | After k failures in a row the next wait is min(0.5 * 2^k, 30), and the k waits before it followed the rule |
| `SubscriberLoop.RegistryNeverForgets` | sigil/_subscriber.py:178-248 | Through all reconnects the registry answers revoked exactly if a payload that concerns our agent was ever read |
| `SubscriberLoop.StatusExactlyWhen` | sigil/_subscriber.py:87-116 | What a health probe sees, from the run alone: connected exactly if nothing has cleared the flag since it was last announced; an error exactly if one was stored since the last subscribe; ever connected exactly if there was a subscribe |
| `SubscriberLoop.ThreadEndsOnlyWhen` | sigil/_subscriber.py:178-248 | Without the Redis client the thread ends at once and nothing is ever received; with it the thread ends only if stop() was called |
| `SubscriberLoop.FailureBacksOff` | sigil/_subscriber.py:221-248 | A failed connection or read leads, unless stopped, in five steps to the next attempt, with the flag cleared, the error recorded and one wait for the backoff, which then doubles up to 30 s |
| `SubscriberLoop.HealthyAgainExactlyFrom` | sigil/_subscriber.py:73-78 | A stopped subscriber whose flag is clear can come to report healthy again if and only if its thread is connecting, has subscribed, or is about to announce the connection |
| `SubscriberLoop.HealthyAfterStopExactlyWhen` | sigil/_subscriber.py:73-78 | After stop() has cleared the flag it is set exactly if the thread, still connecting at that time, has announced its connection and not yet cleared it again |
| `SubscriberLoop.HealthyAfterStop` | sigil/_subscriber.py:73-78 | A run in which a stopped subscriber reports healthy |
| `SubscriberLoop.StopEndsTheThread` | sigil/_subscriber.py:73-78 | After stop the thread ends within eight of its own steps, with at most one more message and no new wait or connection |
| `AuditBuffer.RingRefinesHistory` | sigil/_buffer.py:34-51 | Over any run: the ring is the end of the push history, at most 1000 long; the drained lists joined are the drained events in push order; the removed prefix splits into drained and evicted with nothing missing or doubled |
| `AuditBuffer.NoGaps` | sigil/_buffer.py:40-51 | Drained and evicted together are exactly the removed prefix |
| `AuditBuffer.RunOutputs` | sigil/_buffer.py:47-51 | What the drains returned, joined, is the sequence of events marked drained |
| `AuditBuffer.PushMeaning` | sigil/_buffer.py:40-45 | A push evicts only the oldest, of a full ring of 1000, and sets the flag exactly if it leaves fifty or more |
| `AuditBuffer.DrainMeaning` | sigil/_buffer.py:47-51 | A drain removes exactly the first min(n, size) events |
| `AuditBuffer.Deque.Append` | sigil/_buffer.py:35 | Appending to the circular array: a full one loses its oldest element |
| `AuditBuffer.Deque.PopLeft` | sigil/_buffer.py:51 | Popping from the circular array: the oldest element, the rest unchanged |
| `AuditBuffer.LogBuffer.Push` | sigil/_buffer.py:40-45 | The buffer on its circular array performs the abstract push, flag included |
| `AuditBuffer.LogBuffer.Drain` | sigil/_buffer.py:47-51 | The popping loop performs the abstract drain and returns the oldest events in order |
| `AuditBuffer.LogBuffer.Size` | sigil/_buffer.py:53-56 | The number of buffered events, at most 1000 |
| `AuditBuffer.LogBuffer.Wake` | sigil/_buffer.py:58-60 | Sets the flag and nothing else |
| `AuditBuffer.LogBuffer.ClearFlushEvent` | sigil/_buffer.py:87-88 | Clears the flag and nothing else |
| `Pipeline.EveryEventIsSomewhereOnce` | sigil/_buffer.py:104-129 | Over every interleaving of producers, flushers, server and disk: each event is in exactly one place, counted over ring, evicted, in flight, on disk, accepted, settled by replay, dropped, refused by a full file, failed writes, deleted unread, and written to a file deleted after it was opened |
| `Pipeline.FlushersAreDisjoint` | sigil/_buffer.py:47-51 | No event is in the hands of two flushers |
| `Pipeline.FlushingIsOrderly` | sigil/_buffer.py:104-129 | Over all interleavings events are drained in push order, none twice; what any flusher holds is a contiguous piece of that order, at most 100 long; and what replay deletes after reading had been accepted |
| `Pipeline.NoLostWakeUp` | sigil/_buffer.py:83-102 | While the background thread waits after a flush that ended on an empty drain, fifty buffered events imply the flag; after stop it begins at most one more flush |
| `Pipeline.StepConserves` | sigil/_buffer.py:40-129 | The conservation law of a single step |
| `EventFates.FateExactlyWhen` | sigil/_buffer.py:111-129 | For every event and interleaving: delivered exactly if a batch with it was accepted; dropped exactly if its batch met an unexpected status or exception; refused or lost exactly if its own line met a full file or a failing disk |
| `EventFates.SpilledGoesToDisk` | sigil/_buffer.py:115-119 | After a transport error the flusher holds each event of the batch until it has written it, with the outcome the disk gives; none is ever dropped or delivered |
| `EventFates.DenialGoesToDisk` | sigil/decorators.py:222-278 | The same of a fail-closed denial |
| `EventFates.EvictedExactlyWhen` | sigil/_buffer.py:40-45 | An event is evicted exactly if it was the oldest of a thousand when another was pushed |
| `EventFates.OnDiskExactlyWhen` | sigil/_overflow.py:111-118 | A line is in a file exactly if it was written there, not to a deleted file, and the file not deleted since |
| `EventFates.SettledExactlyWhen` | sigil/_overflow.py:170-174 | An event is settled exactly if a replay that had read it deleted the file with its line |
| `EventFates.FlushEndsExactlyWhen` | sigil/_buffer.py:107-129 | A flush is over exactly after an empty drain, an answer other than accepted or none, the last line of a spilled batch, or a replay that raises; in particular it goes on after every replay |
| `EventFates.StopsAfterOneFlush` | sigil/_buffer.py:83-102 | In every run the background thread begins at most one flush after stop was set |
| `EventFates.EndedEmptyMeans` | sigil/_buffer.py:107-129 | What the wake-up law calls the end of the last flush: an empty drain, or anything else that ends one |
| `EventFates.ChunkOfAHundred` | sigil/_overflow.py:162-168 | A replay sends the next hundred events of what it has read, or the rest |
| `EventFates.EveryFileHasItsTurn` | sigil/_overflow.py:132-168 | A replay that is not cut short takes all files of its listing in that order, whatever becomes of those before |
| `ReplayRaces.LostExactlyWhen` | sigil/_overflow.py:111-174 | For every event and every interleaving: it is lost to a replay if and only if either its own line was written to a file during a replay of that file, that replay deleted it with no other deletion in between, and no replay got the event accepted; or its line was written to a file that had been deleted after the writer opened it |
| `ReplayRaces.ClobberedExactlyWhen` | sigil/_overflow.py:139-174 | For each event: it is deleted by a replay that has not read it exactly if an action wrote its line while some thread replayed that file, that same replay ends by deleting it, and no other deletion lies in between; another replay may have sent it all the same |
| `ReplayRaces.OrphanedExactlyWhen` | sigil/_overflow.py:113-118 | For each event: its line goes to a deleted file exactly if some replay deleted the file between the opening and the writing |
| `ReplayRaces.UnreadExactlyWhen` | sigil/_overflow.py:139-174 | At any time and for each event: its line is on disk and unread by a replay of that file exactly if it was written during that replay and the file was not deleted since |
| `ReplayRaces.SerialisedReplayLosesNothing` | sigil/_overflow.py:95-98 | If from opening to writing no write to the file of a day overlaps a replay of that same day, no event is lost to a replay; other days do not matter |
| `ReplayRaces.SentMoreThanOnceExactlyWhen` | sigil/_overflow.py:122-174 | Replay tries again until a file is deleted: the server gets an event from more than one chunk if and only if two chunks carried it such that their replays overlapped, or the file was not deleted after the first and was read again for the second |
| `ReplayRaces.SentOnceInAReplay` | sigil/_overflow.py:162-168 | One replay sends no event twice |
| `ReplayRaces.SentAtMostOnce` | sigil/_overflow.py:122-174 | If no day is replayed by two threads at once and every replay ends by deleting its file, the server gets no event of the overflow more than once |
| `ReplayRaces.DirectOrReplayed` | sigil/_buffer.py:111-119 | Over all interleavings no event is both delivered from the buffer and replayed from disk, and none that went to a deleted file is replayed |
| `PipelineRaces.DenialDuringReplayIsLost` | sigil/_overflow.py:95-98 | A run in which an event is lost: a fail-closed denial appended between the read and the delete; so the writer is not single-threaded as the comment there has it |
| `PipelineRaces.DenialToDeletedFileIsLost` | sigil/_overflow.py:113-118 | A run in which the file is opened before the deletion and written after it, and nothing is appended during the replay; the event is lost as well |
| `PipelineRaces.ReplayedTwice` | sigil/_overflow.py:170-174 | A run in which a file that could not be deleted is replayed again and the server gets its event twice |
| `FlushAll.FlushAllDelivers` | sigil/_buffer.py:91-97 | For every interleaving and every event that existed when flush_all was called: if the call ends because the buffer was empty, the event has left the buffer; if the call took it, the server has accepted it; if it was buffered, it was evicted or some thread took it; and it is undelivered, unwritten and undropped exactly if another thread holds it, which held it before or took it during the call |
| `PipelineRaces.FlushAllReturnsEarly` | sigil/_buffer.py:91-97 | A run in which flush_all returns while the background thread holds, undelivered, an event buffered before the call |
| `PipelineRaces.WakeUpMissedExactlyWhen` | sigil/_buffer.py:83-129 | With fifty events buffered the wake-up flag is clear exactly if the last push, wake or clear of the run was a clear; so the waiting thread has missed a wake-up exactly if nothing was pushed since it last cleared the flag, and then its last flush ended on an error |
| `PipelineRaces.ErrorLosesWakeUp` | sigil/_buffer.py:115-129 | A run in which this happens |
| `Overflow.ReadBackEvents` | sigil/_overflow.py:143-160 | A file of event lines with corrupt lines anywhere between them is read back as exactly the events, in order |
| `Overflow.Server.LogBatch` | sigil/client.py:824-862 | Refuses more than 100 events before sending; delivered exactly on a readable 202 |
| `Overflow.AnswerOf` | sigil/client.py:847-862 | Each reply is delivered, unreachable or refused, characterised by status and body |
| `Overflow.SentInChunks` | sigil/_overflow.py:162-168 | What is accepted from one file is everything or a whole number of 100-event chunks |
| `Overflow.BreaksAreAlike` | sigil/_overflow.py:143-144 | A line may end in \n, \r or \r\n |
| `Overflow.AsciiSpaces` | sigil/_overflow.py:144 | What counts as blank in ASCII text |
| `Overflow.TrimMeaning` | sigil/_overflow.py:144 | Trimming takes away all blanks at both ends and nothing else |
| `Overflow.OverflowWriter.constructor` | sigil/_overflow.py:39-47 | An empty agent id is replaced by "unknown"; nothing dropped yet |
| `Overflow.OverflowWriter.Write` | sigil/_overflow.py:81-120 | One line appended to the file of the day, or the drop counter raised, or nothing; all other files unchanged |
| `Overflow.OverflowWriter.Decode` | sigil/_overflow.py:155-160 | The events of the lines that decode, in order |
| `Overflow.OverflowWriter.SendChunks` | sigil/_overflow.py:162-168 | Chunks concatenate to the events in order, sending stops at the first chunk not accepted, no chunk is too large |
| `Overflow.OverflowWriter.ReplayFile` | sigil/_overflow.py:139-174 | The file is deleted only if all its events were accepted, otherwise it is unchanged |
| `Overflow.OverflowWriter.ReplayEach` | sigil/_overflow.py:136-137 | Files one after another; a file that raises ends the replay |
| `Overflow.OverflowWriter.Replay` | sigil/_overflow.py:122-137 | Exactly the files of the directory that end in .ndjson, in the order of their names |
| `OverflowLaws.ReplayLosesNothing` | sigil/_overflow.py:122-174 | Wherever a replay stops, a file is gone only if it was readable and all its events were accepted together and in order; every other file is unchanged |
| `OverflowLaws.ReplayOnlyDeletes` | sigil/_overflow.py:139-174 | A replay creates and changes no file |
| `OverflowLaws.RaisesAtUndecodable` | sigil/_overflow.py:143-146 | A replay raises exactly if a listed, readable file is not UTF-8 |
| `OverflowLaws.UndecodableBlocksTheRest` | sigil/_overflow.py:136-146 | Such a file stays, and no file listed after it is sent or deleted |
| `OverflowLaws.FilesStayBounded` | sigil/_overflow.py:99-110 | For writes that do not overlap and whose file size can be read, no file exceeds the 50 MiB cap by more than one line |
| `OverflowLaws.FullFileGrowsExactlyWhen` | sigil/_overflow.py:99-118 | A write that nobody interrupts adds to its file exactly if it can be appended to and is below 50 MiB, or its size cannot be read |
| `OverflowLaws.DropCountIsExact` | sigil/_overflow.py:99-109 | For writes that do not overlap the drop counter equals the number of lines refused by a full file |
| `OverflowWriters.BoundedExactlyWhen` | sigil/_overflow.py:99-118 | Over all runs of N writers whose size test and append are separate steps and of which at most M overlap on a file: the size stays below the cap plus K lines exactly if M <= K; so one line is the limit exactly if no writer passes its test between the test and the append of another |
| `OverflowWriters.CrowdGrows` | sigil/_overflow.py:99-118 | The run that attains it, from any readable file with room and for any line: M writers that all test before one appends add M copies of it |
| `OverflowWriters.AnyScheduleIsBounded` | sigil/_overflow.py:99-118 | Whatever the schedule, N writers take no file further than N lines past the cap |
| `OverflowWriters.FilesStayBounded` | sigil/_overflow.py:99-118 | The invariant behind it: what is in a file and what is about to be appended, together |
| `OverflowWriters.FullFileGrowsExactlyWhen` | sigil/_overflow.py:99-118 | A line is appended to a full file exactly if, since its writer looked, another filled the file and nobody deleted it, or it was full all along and its size could not be read |
| `OverflowWriters.DropCountExactlyWhen` | sigil/_overflow.py:99-109 | With the counter read and stored in separate steps it is exact, from any store with no writer under way and once nobody is about to store it, exactly if no writer stored it between the reading and the storing of another; otherwise too small |
| `OverflowWriters.UninterruptedWrite` | sigil/_overflow.py:81-120 | Steps that nobody interrupts make up the write of the sequential model |
| `OverflowLaws.WrittenEventsAreOffered` | sigil/_overflow.py:81-160 | For any store, any days and any faults: a file of whole lines offers what it offered before and then the events whose write reached it, in order |
| `OverflowLaws.WritesOnlyAppend` | sigil/_overflow.py:111-118 | For any store, any days and any faults: writes change a file, decodable or not, only by appending the lines whose write reached it, in order |
| `OverflowLaws.EverythingIsReplayed` | sigil/_overflow.py:132-174 | With the server up and no fault, a replay sends what the listed files offer, file after file in listing order, and deletes just those files |
| `OverflowLaws.WrittenEventsAreReplayed` | sigil/_overflow.py:81-174 | End to end: what any run of writes left in the files is what such a replay sends, in listing order |
| `OverflowLaws.EverythingWrittenIsReplayed` | sigil/_overflow.py:77-174 | Whatever an agent wrote to an empty directory, on whatever days and with whatever faults: the next replay that meets none sends exactly what reached each file, file after file, and leaves the directory empty |
| `OverflowLaws.WriteThenReplay` | sigil/_overflow.py:77-174 | The same of the writer itself, from the first write to the end of the replay |
| `OverflowLaws.WrittenFiles` | sigil/_overflow.py:77-79 | Every file that writes create is named agent_day.ndjson, is text and will be listed |
| `OverflowLaws.OtherNamesAreLeftAlone` | sigil/_overflow.py:131-137 | A file under a name without that suffix is neither sent nor deleted nor changed |
| `OverflowLaws.DeletedExactlyWhen` | sigil/_overflow.py:136-174 | Unless one before it cannot be decoded, a listed file goes exactly if it can be read and deleted and every chunk of its events is accepted at its turn, whatever became of the files before it |
| `FileNames.NameOrderIsDateOrder` | sigil/_overflow.py:77-79 | For one agent the order of the file names as strings is the order of their dates, in both directions |
| `FileNames.DayStringReads` | sigil/_overflow.py:77-79 | The name of a day is its year, month and day in decimal, four, two and two digits between dashes |
| `FileNames.ListingExists` | sigil/_overflow.py:132 | Every directory has a sorted listing |
| `FileNames.ListingIsUnique` | sigil/_overflow.py:132 | And only one |
| `Flusher.Flusher.DoFlush` | sigil/_buffer.py:91-129 | The loop ends where and as the specification of a flush says, for every sequence of server answers and disk faults, after at most ceil(size/100)+1 drains |
| `Flusher.EmptiesExactlyWhen` | sigil/_buffer.py:107-129 | A flush ends on an empty buffer, everything delivered, exactly if the server accepts every batch and no replay in between raises |
| `Flusher.EndExactlyWhen` | sigil/_buffer.py:111-129 | Each way to end characterised by the answer to the first batch not delivered, or by the last replay |
| `Flusher.FlushMeaning` | sigil/_buffer.py:104-129 | The server has confirmed the delivered batches in buffer order, each followed by what its replay added; the rest splits into at most one failed batch and what stays buffered; a batch that met no server is written to disk and in no other case is anything written |
| `Flusher.DeliveredInOrder` | sigil/_buffer.py:107-114 | The delivered batches are taken from the front of the buffer and confirmed in that order |
| `Flusher.FlushLosesNoFile` | sigil/_buffer.py:104-129 | From its beginning to its end a flush does one of two things to an overflow file that was there: it leaves it, unchanged except for the lines of a batch that met no server, as far as they reach it, appended in order; or it was readable text, the server has confirmed all the events it offers, together and in order, and it was deleted |
| `Flusher.FlushClearsTheOverflow` | sigil/_buffer.py:107-114 | With the server up and no fault a flush delivers everything, and if there was anything to deliver leaves no overflow file |
| `Flusher.ListedExactly` | sigil/_overflow.py:131-137 | The replays of a flush list exactly the files that end in .ndjson |
| `Flusher.Flusher.Turn` | sigil/_buffer.py:107-129 | One drain and its delivery, as specified; an empty drain ends the flush |
| `Flusher.Flusher.Deliver` | sigil/_buffer.py:111-129 | By the answer: accepted and the overflow replayed, written to disk, or dropped; the size check of log_batch cannot fail |
| `Flusher.Flusher.ReplayOverflow` | sigil/_buffer.py:113-114 | The replay after a delivery, with its effect on files and server |
| `Flusher.Flusher.Spill` | sigil/_buffer.py:117-119 | The batch is written in order |
| `Flusher.MaxDrainsIsCeiling` | sigil/_buffer.py:107-110 | The drain bound in closed form |

## Left out

- `Calls.RevocationStopsLaterCalls`: says nothing of calls that have passed their revocation check, because the code checks once, before the wait for an approval, and does not look again.
- `Pipeline.NoLostWakeUp`: speaks of flushes that ended on an empty drain; `PipelineRaces.WakeUpMissedExactlyWhen` gives the exact condition for all.
- `ReplayRaces.SerialisedReplayLosesNothing`: its assumption is not enforced by the code; `ReplayRaces.LostExactlyWhen` covers every run.
- `ReplayRaces.SentAtMostOnce`: its assumptions are not enforced by the code; `ReplayRaces.SentMoreThanOnceExactlyWhen` covers every run.
- `FlushAll.FlushAllDelivers`: for calls that end on an empty drain; the other endings are in `Flusher.EndExactlyWhen`. That the process ends under a running daemon thread is not modelled.
- `OverflowLaws.FilesStayBounded`: for writes that do not overlap and sizes that can be read; `OverflowWriters.BoundedExactlyWhen` covers overlapping writers.
- `OverflowLaws.FullFileGrowsExactlyWhen`: for writes that do not overlap; `OverflowWriters.FullFileGrowsExactlyWhen` covers the others.
- `OverflowLaws.DropCountIsExact`: for writes that do not overlap; `OverflowWriters.DropCountExactlyWhen` covers the others.
- `OverflowLaws.WrittenEventsAreOffered`: for files that end with a line break; a line appended to a torn one is not separated from it.
- `Flusher.Flusher.DoFlush`: describes a flush that runs by itself; concurrent pushes and flushes are the subject of `Pipeline`, where a write to disk is two steps, opening and appending, a file is read in one, the directory listing and the disk faults are arbitrary, and files are named by their day only.
- `Governance.RecordedExactlyWhen`: not for token fields of unexpected type, which can also make the verifier raise, nor for an async call that is cancelled, which can end it without a record.
- Payload fields of unexpected type inside a token, a revocation message or a reply (a number where a string belongs); absent, null and empty fields are one case.
- Cryptography, JSON, timestamp parsing, Redis and the HTTP client: parameters or arbitrary answers.
- Rounding of floating-point numbers in the approval wait: times are real numbers.
- Short writes, crashes in the middle of a write, and file modes of the overflow directory.
- Events that cannot be encoded as JSON; overflow files are ASCII text or not decodable at all.
- Cancellation of async tasks, executor shutdown, thread creation and joining; the context variable that holds the active task (it is an input).
- Redaction, argument hashing and prompt entropy: their results are inputs of a call.
- The verdict-independent parts of the client: issuing tokens, headers, URLs, environment variables, `SigilTaskContext` enter and exit.
- The older helpers `decode_token`, `verify_token`, `has_tool_fact` and `is_expired`, and the `task()` stub.
- Refusal of an invalid risk tier at decoration time: a tier is one of four values here.
- sigil-core itself: beyond granting each approval id at most once it is not part of this model.
