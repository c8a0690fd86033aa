# Proofs about the Achilles control plane

Achilles keeps its promises in a handful of small protocols: rooms whose history cannot be
rewritten unnoticed, a workspace commit that either happens or does not, authority that only a
human or a policy can grant, an event stream that resumes without loss, a bounded job dispatcher,
daily budgets for remote engines, a review overlay for file changes, and a fair tournament between
agent loops. This project models each of them and proves what it promises over every input, every
run or every interleaving.

A component that changes its state in place is a class here. Its methods are proved against a pure
step function over the same state, and the properties are lemmas about arbitrary sequences of such
steps. Wherever the source awaits, the model lets any other step happen. Failures (of the file
system, an executor, a connection, a backend) are inputs, so every theorem holds for every failure.

| file | models |
|---|---|
| `Json.dfy` | the JSON text of strings, integers and absent values (section 7 of RFC 8259) |
| `HashChain.dfy`, `ChainRecords.dfy` | hash-chained rooms, their anchors and chain verification; what each call leaves in the tables |
| `Staging.dfy` | snapshots and the optimistic workspace commit with rollback |
| `Policy.dfy` | the policy decision |
| `Authority.dfy`, `Enforcement.dfy` | delegations, approval requests and capability grants over runs; every answer and every row, call by call |
| `Framing.dfy`, `EventStream.dfy` | server-sent event frames, and the resumable cursor protocol over them |
| `Dispatcher.dfy`, `DispatchHistory.dfy` | the bounded queue, the worker pool, the run and job journals; why each run ended as it did |
| `RemoteBudget.dfy`, `BudgetAnswers.dfy` | daily quotas and the circuit breaker; every refusal both ways, and the account of every call |
| `Sandbox.dfy` | the overlay of staged file changes |
| `Tournament.dfy`, `McNemar.dfy`, `Paired.dfy` | the counterbalanced campaign, its resumption, and the paired comparison |
| `NativeLoop.dfy`, `LoopHistory.dfy`, `Context.dfy` | the native agent loop's turns, why its runs ended, and what it shows of its history |

`dafny verify dfyconfig.toml` checks all of it.

## Where the code and its own description differ

The model follows the code. These differences are proved, with the exact condition under which the
described behaviour holds.

- *"Untrusted content cannot directly authorize mutation"*
  (src/sovereign_ai/kernel/policy.py:30, docs/SECURITY.md:25). A delegation describes its own
  requests: `requested_grants` is passed on as sent (src/sovereign_ai/api/server.py:144 and 841).
  One that says it changes no state and uses no credentials is judged as that, but the grant it
  gets authorises the mutation. With the shipped rules two steps let a subject write, and no human
  was asked (`PolicyWritesAlone`, `ShippedWriteIsOutright`). `PolicyAloneIff` gives the exact
  condition: without a human decision on a pair, an untrusted mutation is authorised at some point
  iff a delegation proposed that pair, inside the ceiling, with a description that is not gated and
  whose first matching rule needs no approval.
- *A staged tree that passes validation is committed if the host has not changed*
  (src/sovereign_ai/execution/staging.py:106-145, with the staged copy at a directory of a fixed name,
  src/sovereign_ai/execution/docker.py:132). Links are judged against the directory they are
  in. A link through the staged directory's own name is in order there and leaves the tree on the
  host, so the commit is rolled back although no step failed (`CleanOnlyWhereStaged`; the exact
  condition is a clause of `ReconcileWorkspace`).
- *"A denial rejects the whole delegation"* (src/sovereign_ai/kernel/roster.py:160-163). It does
  unless the delegation was already accepted on the strength of other active grants
  (`DenialRejectsIffOpen`); `DeniedButAccepted` is such a run.
- *The last approval creates the job* (same lines). It does exactly when every requested pair is
  active at that moment (`ApprovalCreatesJobIffAllActive`). If an earlier approval's grant has
  lapsed, the delegation waits for ever although every request was approved
  (`LapsedApprovalStrands`).
- *Staged changes can be reviewed and applied by a later process*
  (src/sovereign_ai/cli.py:422-427). They can exactly when no file of the workspace is staged for
  deletion (`ReopeningKeepsViewIff`).
- *A read sees the agent's own pending changes* (src/sovereign_ai/kernel/sandbox.py:69-75). It does
  except for a staged deletion of a real file, which a read still finds; `exists` is always right
  (`ObserversAndView`). `StagedDeletionIsForgotten` is an input for both.
- *A backend that rejects the decoding constraint costs one retry, not the run*
  (src/sovereign_ai/agents/native_loop.py:166-168). One loop object serves many runs; a rejected
  turn is retried exactly when no other turn has degraded the loop since it was sent
  (`RejectedTurnSurvivesIff`, `RejectedTogether`, `WaitingTogether`).
- *A run's history is fitted into the budget* (src/sovereign_ai/agents/context.py:86-98). Only the
  number of turns is ever fitted: `max_history_chars` changes no result
  (`CompactsIffTooManyTurns`), and with `keep_recent_turns` 0 the note about missing turns is never
  shown (`PromptBound`).

## Model

| member | source | states |
|---|---|---|
| Json.CharsRoundTrip | src/sovereign_ai/collaboration/store.py:156-171 | a string written as a JSON string and read back is the string, and what follows is untouched, for every character including surrogate pairs |
| Json.StringCancel | src/sovereign_ai/collaboration/store.py:156-171 | written strings are self-delimiting: two texts that begin with written strings and are equal begin with the same string |
| Json.OptionalCancel | src/sovereign_ai/collaboration/store.py:156-171 | the same for strings that may be absent; an absent one is never confused with any string |
| Json.NatRoundTrip | src/sovereign_ai/collaboration/store.py:156-171 | a written number reads back as itself and has digits only |
| Json.IntCancel | src/sovereign_ai/collaboration/store.py:156-171 | the same cancellation for signed integers followed by a non-digit |
| Json.CharsPrintable | src/sovereign_ai/api/server.py:663 | a written string is printable ASCII, hence one line |
| Json.CharText | src/sovereign_ai/collaboration/store.py:156-171 | what each character is written as: its own escape, itself, or lower-case hexadecimal escapes |
| Json.EscapeText | src/sovereign_ai/collaboration/store.py:156-171 | an escape is a backslash, a u and four lower-case digits that read back as the code |
| HashChain.MembersInjective | src/sovereign_ai/collaboration/store.py:156-171 | two JSON objects with the same keys and kinds of values have the same text only if all values agree |
| HashChain.CanonicalInjective | src/sovereign_ai/collaboration/store.py:143-171 | the text that is hashed determines all nine digest fields; no two different events share it |
| ChainRecords.CanonicalText | src/sovereign_ai/collaboration/store.py:156-170 | the hashed text is the compact JSON object of the nine fields, keys in alphabetical order, each with its own value |
| HashChain.VerifyRows | src/sovereign_ai/collaboration/store.py:485-520 | the loop says "broken" iff some row fails its link and names the first such row; it says "intact" iff all rows link and the anchor has exactly this head and count |
| HashChain.TamperEvidence | src/sovereign_ai/collaboration/store.py:485-520 | two row lists that verify with one head hash and count are equal in every column, or the texts of their own rows exhibit a collision of the hash function; nothing is assumed about the hash |
| HashChain.AnchorDeterminesHistory | src/sovereign_ai/collaboration/store.py:485-520 | with a collision-free hash there is exactly one accepted history per anchor |
| HashChain.OpeningAnchors | src/sovereign_ai/collaboration/store.py:104-118 | opening a store written before anchors existed gives every room a right anchor, and changes nothing in a store that has them |
| HashChain.AppendKeepsAnchored | src/sovereign_ai/collaboration/store.py:372-434 | a row linked to its room's last row keeps every room's chain and anchor right, also those of the other rooms in the table |
| HashChain.StepKeepsAnchored | src/sovereign_ai/collaboration/store.py:173-434 | every call, raising or not, keeps all rooms verifying and only extends the log |
| HashChain.RunKeepsAnchored | src/sovereign_ai/collaboration/store.py:173-434 | the same for any sequence of calls from an anchored store |
| HashChain.RunKeepsChains | src/sovereign_ai/collaboration/store.py:173-434 | after opening a store and any run of room creation, membership changes, identity edits and appends over any rooms, every room verifies against its anchor and no row was altered |
| HashChain.ReplacementDetected | src/sovereign_ai/collaboration/store.py:485-520 | rows put in place of a room's history after any run verify only if they are that history, or collide with it |
| ChainRecords.OpeningHidesNothing | src/sovereign_ai/collaboration/store.py:104-118 | on any database, tampered ones included, opening changes no anchor that is there, so a room that does not match its anchor still does not |
| ChainRecords.AppendAnswers | src/sovereign_ai/collaboration/store.py:372-434 | an append is refused exactly for a non-member, a repeated event id or a repeated hash; otherwise it adds one row that holds what the call named, each value in its own column, with the actor's trust, linked to its room's latest row |
| ChainRecords.OtherCallsAnswer | src/sovereign_ai/collaboration/store.py:173-351 | what each identity, room and membership call changes, to the column, and that it changes nothing else |
| ChainRecords.RowsAreTheAppends | src/sovereign_ai/collaboration/store.py:372-434 | the rows a run adds are, in order, what its accepted append calls named, each with the trust its actor had at that moment |
| HashChain.CollaborationStore.constructor | src/sovereign_ai/collaboration/store.py:26-118 | opening adopts anchors for rooms that predate them and leaves a valid store |
| HashChain.CollaborationStore.CreateRoom | src/sovereign_ai/collaboration/store.py:313-329 | the room has the name and purpose given; a new one starts at 64 zeros and no events, an existing one keeps its creation time and its anchor; other rooms stay |
| HashChain.CollaborationStore.AddMember | src/sovereign_ai/collaboration/store.py:345-351 | adds exactly that membership iff room and identity exist |
| HashChain.CollaborationStore.UpdateIdentity | src/sovereign_ai/collaboration/store.py:251-282 | succeeds iff the identity exists; it then has the new name, kind, trust and agent data and keeps its profile link and creation time; no other identity changes |
| HashChain.CollaborationStore.SelectRoom | src/sovereign_ai/collaboration/store.py:485-491 | yields exactly the room's rows of the shared table, in insertion order |
| HashChain.CollaborationStore.AppendEvent | src/sovereign_ai/collaboration/store.py:372-434 | adds a row iff the actor is a member and neither the event id nor the hash repeats; every column of the row is its argument, the trust is the actor's now, the previous hash is that of the room's latest row or 64 zeros, and the room's head is the row's hash; otherwise nothing changes, and the result tells a non-member from a repetition |
| HashChain.CollaborationStore.VerifyChain | src/sovereign_ai/collaboration/store.py:485-520 | on any state the store itself can reach, every existing room is reported intact, with its own count and head |
| Staging.PathsAreLocations | src/sovereign_ai/execution/staging.py:61-76 | the walk visits exactly the locations of the tree |
| Staging.KeyRoundTrip | src/sovereign_ai/execution/staging.py:61-76 | posix keys of valid paths are unambiguous: the path comes back from its key |
| Staging.KeyText | src/sovereign_ai/execution/staging.py:61-76 | the text of a key: the names in order with a slash between each two, a dot for the root |
| Staging.SnapshotDescribes | src/sovereign_ai/execution/staging.py:61-76 | a snapshot has one right entry for each location of the tree and nothing else |
| Staging.EqualEntriesEqualTrees | src/sovereign_ai/execution/staging.py:61-76 | trees with the same entry at every location are equal up to content digests |
| Staging.SnapshotFaithful | src/sovereign_ai/execution/staging.py:61-76 | two trees have equal snapshots iff they are equal up to the digests of file contents |
| Staging.BuildSnapshot | src/sovereign_ai/execution/staging.py:61-76 | filling the dictionary location by location, in any order, gives that snapshot |
| Staging.CountsBalance | src/sovereign_ai/execution/staging.py:119-133 | entries after = entries before + created - deleted, and all three counts are zero iff the snapshots are equal |
| Staging.CountsMean | src/sovereign_ai/execution/staging.py:119-133 | created, deleted and modified are exactly the keys only in the second snapshot, only in the first, and in both with different entries |
| Staging.CleanMeans | src/sovereign_ai/execution/staging.py:38-58 | a tree is valid iff it holds no special file anywhere and every link stays inside |
| Staging.CleanOnlyWhereStaged | src/sovereign_ai/execution/staging.py:38-58 | a tree whose link goes through the name of its own directory is clean in a directory of that name and in no other |
| Staging.Workspace.TakeSnapshot | src/sovereign_ai/execution/staging.py:38-76 | yields the tree's snapshot, rejects exactly trees that are not clean in the directory they are in, or reports one failed read |
| Staging.Workspace.ClearChildren | src/sovereign_ai/execution/staging.py:89-91 | leaves nothing, or stops at the first failing step with whatever it left |
| Staging.Workspace.CopyTreeContents | src/sovereign_ai/execution/staging.py:94-103 | leaves exactly the source's children unless a step goes wrong silently, or stops at the first that raises |
| Staging.Workspace.Replace | src/sovereign_ai/execution/staging.py:137-158 | clear, copy and check: success means the wanted snapshot and a clean tree, also when a copy went wrong silently; without a faulty step it succeeds iff the source is clean on the host and has that snapshot |
| Staging.Workspace.ReconcileWorkspace | src/sovereign_ai/execution/staging.py:106-161 | all or nothing wherever steps raise or silently miscopy: a normal return leaves the staged snapshot, every exception but "rollback also failed" the old one (and the very trees unless a step goes wrong silently); a tree that was not expected is never overwritten; a rollback fails only through a fault of its own besides the reason for it; without faults the commit happens iff both trees are clean where they are, the workspace is the expected one, and the staged tree is also clean on the host or is there already, and each other exit occurs exactly for its own reason; the counts are those of the keys that appeared, disappeared and changed |
| Policy.FirstMatchIsFirst | src/sovereign_ai/kernel/policy.py:33-46 | the first rule that matches is the one used |
| Policy.EarliestRuleDecides | src/sovereign_ai/kernel/policy.py:13-59 | behind the gate the earliest matching rule alone fixes the verdict, whatever rules follow and whatever the default; the fail-closed default applies only when none matches |
| Policy.GateRefusesExactly | src/sovereign_ai/kernel/policy.py:13-31 | exactly the requests of labels that are not trusted which mutate, use credentials or name one of four actions are refused as critical, whatever the rules |
| Policy.RulesDecideInTurn | src/sovereign_ai/kernel/policy.py:33-59 | behind the gate the rules are taken in turn, each applying iff its action and scope are absent, equal or, for the scope, "any"; with none left the default decides |
| Policy.RefusalAsksForApproval | src/sovereign_ai/kernel/policy.py:13-59 | policy never refuses without asking for approval, for any rules |
| Policy.OutrightIff | src/sovereign_ai/kernel/policy.py:13-59 | policy allows a request without approval iff it is not gated and its first matching rule needs none; the defaults never do |
| Policy.ShippedWriteIsOutright | configs/policies.yaml:7-13 | a workspace write that claims to change nothing passes outright under the shipped rules, for every trust label |
| Authority.StepKeeps | src/sovereign_ai/kernel/roster.py:67-205 | every call keeps the delegation invariant: accepted iff there is its one child job, which acts for the delegating subject; rejected means no unrevoked grant of its own; every tagged grant is for its subject and a requested pair inside the ceiling |
| Authority.ProposeKeeps | src/sovereign_ai/kernel/roster.py:67-155 | a proposal keeps the invariant, leaves no delegation half proposed and touches no closed one |
| Authority.ResolveKeeps | src/sovereign_ai/kernel/roster.py:157-205 | an answer keeps the invariant and touches no closed delegation |
| Authority.RunKeeps | src/sovereign_ai/kernel/roster.py:67-205 | that invariant holds after every run of proposals, answers, operator grants, revocations, expiry and other jobs |
| Authority.ClosedStaysClosed | src/sovereign_ai/kernel/roster.py:157-205 | an accepted or rejected delegation never changes in any way afterwards |
| Authority.EveryJobHasOneSource | src/sovereign_ai/kernel/roster.py:146-155 | conservation over runs: every job was either submitted outside the roster or is the child of exactly one delegation, which is accepted and whose subject and inputs it carries; never both |
| Authority.GateYieldsToGrantsOnly | src/sovereign_ai/execution/broker.py:64-92 | for untrusted mutations, authorisation succeeds iff the subject holds an active grant for exactly this; neither the rules nor the `approved` flag matter |
| Enforcement.AuthorizeAnswers | src/sovereign_ai/execution/broker.py:64-92 | every answer: a named subject with a row for exactly this, not revoked and not expired, is let through; anybody else gets policy's verdict, and an approval only helps where policy asks for one |
| Enforcement.UntrustedNeedsRowInForce | src/sovereign_ai/execution/broker.py:64-92 | an untrusted mutation is authorised iff some grant row has exactly its subject, action and scope, no revocation and time left |
| Enforcement.RevokeMarksOneRow | src/sovereign_ai/kernel/capability_grants.py:130-135 | revoking stamps that row with the time, once, and changes nothing else |
| Enforcement.RevokedStaysRevoked | src/sovereign_ai/kernel/capability_grants.py:130-135 | a revoked row never changes again, whatever happens |
| Enforcement.RevokedNeverAuthorizes | src/sovereign_ai/kernel/capability_grants.py:152-164 | after a revocation, over every further run, an authorised untrusted mutation rests on some other row in force |
| Authority.EveryGrantHasCause | src/sovereign_ai/kernel/capability_grants.py:97-121 | every grant in the store was issued by an operator, by a human's approval, or by policy allowing a proposed pair outright, at an identifiable step of the run |
| Authority.AuthorityHasOrigin | src/sovereign_ai/execution/broker.py:64-92 | whenever an untrusted mutation is authorised, an unexpired, unrevoked grant for exactly this subject, action and scope exists, and an earlier step of the run is its origin |
| Authority.PolicyGrantIff | src/sovereign_ai/kernel/roster.py:114-136 | over whole runs, a grant that no human had a part in exists for a subject, action and scope iff some step proposed that pair inside the ceiling and policy grants the pair, as described, outright |
| Authority.HumanBehindEveryMutation | src/sovereign_ai/execution/broker.py:64-92 | unless such a proposal was made for exactly this, that step is an operator's grant or a human's yes to a request for exactly this, under any rules |
| Authority.PolicyAloneIff | src/sovereign_ai/kernel/roster.py:114-136 | in a run without a human decision on a pair, an untrusted mutation on it is authorised at some point iff such a proposal was made |
| Authority.PolicyWritesAlone | src/sovereign_ai/kernel/roster.py:114-136 | a run of two steps, with no human in it, after which an untrusted write is authorised |
| Authority.DenialRejectsIffOpen | src/sovereign_ai/kernel/roster.py:157-179 | denying a delegation's request leaves it rejected iff it was not already accepted |
| Authority.ApprovalCreatesJobIffAllActive | src/sovereign_ai/kernel/roster.py:181-205 | approving accepts the delegation and adds exactly one job iff every requested pair is active once this one is granted; otherwise it keeps waiting and no job appears |
| Enforcement.ResolveStampsOneRequest | src/sovereign_ai/kernel/approvals.py:147-179 | answering stamps exactly one request, iff it is pending and not overdue, with the answer and who gave it; overdue requests expire; nothing else changes |
| Enforcement.DenialRevokesExactly | src/sovereign_ai/kernel/roster.py:171-179 | a denial rejects the waiting delegation and revokes exactly the grants it had, now |
| Enforcement.ApprovalIssuesExactly | src/sovereign_ai/kernel/roster.py:181-205 | an approval issues one grant, for an hour, for exactly what was asked, in the name of who answered, and starts the job iff every requested pair then has a row in force |
| Enforcement.ProposalAnswers | src/sovereign_ai/kernel/roster.py:67-155 | everything a proposal does: nothing outside the ceiling; otherwise one delegation, in order a grant for an hour for each pair policy grants outright and a request for a day for each other, and the job iff there is none of those |
| Enforcement.OmittedFlagsCount | src/sovereign_ai/kernel/roster.py:114-124 | a flag that is left out counts as set |
| Enforcement.ChildJobSays | src/sovereign_ai/kernel/roster.py:146-153 | the job's subject is the delegating one whatever the inputs say; all other inputs are passed on |
| Enforcement.OtherStepsAnswer | src/sovereign_ai/kernel/capability_grants.py:97-121 | what operator grants, profile creation, listing, other jobs and time add, and that nothing else changes |
| Enforcement.CeilingIsTheFirst | src/sovereign_ai/kernel/agent_profiles.py:101-141 | a profile's ceiling is for ever the one it was first created with |
| Authority.NothingPendingIsFinal | src/sovereign_ai/kernel/roster.py:157-205 | a delegation none of whose requests is pending never changes again, whatever happens |
| Authority.LapsedApprovalStrands | src/sovereign_ai/kernel/roster.py:181-192 | under any policy: two approvals an hour or more apart leave the delegation waiting for ever |
| Authority.DeniedButAccepted | src/sovereign_ai/kernel/roster.py:169-179 | under any policy: a run in which one request is denied and the delegation is accepted with a job |
| Authority.RosterService.HoldsCeilings | src/sovereign_ai/kernel/roster.py:98-104 | true iff every requested pair is in the profile's ceiling |
| Authority.RosterService.IssueGrant | src/sovereign_ai/kernel/capability_grants.py:97-121 | adds one unrevoked grant that expires after its time to live |
| Authority.RosterService.StartChild | src/sovereign_ai/kernel/roster.py:146-155 | adds exactly one job for the delegation, acting for its subject, and accepts it |
| Authority.RosterService.ProposeDelegation | src/sovereign_ai/kernel/roster.py:67-155 | refused iff a pair is outside the ceiling, and then nothing changes; otherwise the books are those of the specification, closed delegations are untouched, and the returned job is the delegation's child |
| Authority.RosterService.ResolveApproval | src/sovereign_ai/kernel/roster.py:157-205 | refused iff the request is unknown, answered or expired; otherwise the books are those of the specification and a returned job is the delegation's child |
| Framing.SplitAppend | desktop/src/api/kernelClient.ts:169-173 | frames already split off stay, and the remainder with later text gives the rest |
| Framing.ChunkingIsIrrelevant | desktop/src/api/kernelClient.ts:165-189 | for every way of cutting the text into chunks, even inside a blank line, the frames and the remainder are those of the whole text |
| Framing.PrintedEventIsOneFrame | src/sovereign_ai/api/server.py:663 | a printed event is exactly one frame, whatever follows, and the client's line loop gets the event from it |
| Framing.PrintText | src/sovereign_ai/api/server.py:663 | the text of an event: number, type and JSON, a line each, and a blank line |
| Framing.LastDataLineDecides | desktop/src/api/kernelClient.ts:174-183 | the last line of a frame that begins with "data: " decides its payload, alone |
| Framing.OtherFramesAreSkipped | desktop/src/api/kernelClient.ts:174-187 | a one-line frame without data delivers nothing |
| Framing.HeartbeatCarriesNothing | src/sovereign_ai/api/server.py:684 | the heartbeat is one frame that delivers nothing |
| Framing.PrintedBatchRoundTrip | src/sovereign_ai/api/server.py:661-663 | printing any events and parsing the text gives the same events in order and leaves no remainder |
| Framing.FaithfulCodec | src/sovereign_ai/api/server.py:663 | the assumption on the JSON codec can be met: JSON objects with the number, the type and the other columns as one string stay on one line and determine the event |
| EventStream.RangesConcat | src/sovereign_ai/kernel/events.py:71-90 | adjacent ranges of the journal are adjacent pieces of it |
| EventStream.PageIsRange | src/sovereign_ai/kernel/events.py:71-90 | a page is exactly the rows from the cursor to the new cursor, and the backlog shrinks by that page |
| EventStream.StepKeeps | desktop/src/api/kernelClient.ts:149-202 | every step keeps: delivered is the journal from the start to the client's cursor, and the text under way decodes to the journal from there to the server's cursor |
| EventStream.RunKeeps | desktop/src/api/kernelClient.ts:149-202 | the same after any sequence of steps |
| EventStream.StepAnswers | desktop/src/api/kernelClient.ts:149-202 | what each step does to the journal and the text under way, and that nothing else changes |
| EventStream.ExactlyOnce | desktop/src/api/kernelClient.ts:149-202 | for any interleaving of appends, pages, heartbeats, reads cut anywhere, disconnects and reconnects, exactly the rows in (start, at] have been delivered, in order, without gap or duplicate |
| EventStream.FullPageAdvances | src/sovereign_ai/api/server.py:654-685 | one page that arrives in full leaves at most the rows beyond the next 200 undelivered |
| EventStream.EverythingArrives | desktop/src/api/kernelClient.ts:166-189 | when all text under way has arrived the client's cursor is the server's |
| EventStream.CatchesUp | desktop/src/api/kernelClient.ts:149-202 | however a client was cut off, after reconnecting and k full pages it has delivered the next 200 k rows, or all there are |
| EventStream.EventStore.Append | src/sovereign_ai/kernel/events.py:47-69 | adds one row with the given type and content and the next number |
| EventStream.EventStore.ReadAfter | src/sovereign_ai/kernel/events.py:71-90 | returns the first rows beyond the cursor, up to the limit: a range of the journal |
| EventStream.FrameSource.NextPage | src/sovereign_ai/api/server.py:654-663 | prints the next page in order and leaves the cursor at its last row |
| EventStream.StreamClient.OnChunk | desktop/src/api/kernelClient.ts:166-189 | delivers exactly the events of the frames that a chunk completes, keeps the rest, and moves the cursor to the last one |
| EventStream.StreamClient.ReadFrame | desktop/src/api/kernelClient.ts:174-187 | the line loop yields the payload of the frame's last data line, nothing if that line does not parse |
| EventStream.StreamClient.Reconnect | desktop/src/api/kernelClient.ts:154-165 | asks for everything beyond the cursor and drops a partial frame |
| Dispatcher.MaxIsCount | src/sovereign_ai/kernel/runs.py:129-134 | the highest attempt number of a job is the number of its runs |
| Dispatcher.StepKeeps | src/sovereign_ai/kernel/dispatcher.py:56-139 | every step, restart included, keeps placement, exclusiveness, the bounds and the numbering |
| Dispatcher.RunKeeps | src/sovereign_ai/kernel/dispatcher.py:56-139 | the same after any sequence of steps of any number of processes |
| Dispatcher.EveryRunHasOnePlace | src/sovereign_ai/kernel/dispatcher.py:75-139 | at every await point a run is queued and once in the queue, or running and held by exactly one worker, or terminal and in neither |
| Dispatcher.BoundsHold | src/sovereign_ai/kernel/dispatcher.py:36-91 | backlog ≤ queue_max and runs in flight = busy workers ≤ live workers ≤ max_concurrency |
| Dispatcher.TerminalIsFinal | src/sovereign_ai/kernel/runs.py:136-170 | a terminal run is never changed again, not even by a restart |
| Dispatcher.AttemptsAreConsecutive | src/sovereign_ai/kernel/runs.py:129-134 | every job's attempts are exactly 1, 2, ..., n |
| Dispatcher.JobAndRunAgree | src/sovereign_ai/kernel/dispatcher.py:82-138 | a job submitted once has its run's status at every await point and after every restart, through overflow, cancellation and recovery, and a cancel request finds exactly the worker that holds it |
| Dispatcher.CancelRequestDoesNotUnqueue | src/sovereign_ai/kernel/jobs.py:149-156 | whatever is asked to be cancelled, an idle worker still takes the oldest queued run and marks it running |
| DispatchHistory.StatusHasItsVerdict | src/sovereign_ai/kernel/dispatcher.py:116-139 | over whole histories, a run succeeded, failed or was cancelled iff a worker finished with that outcome while it held the run (or, for failure, there was no room for it), and was interrupted iff the process restarted before it had ended |
| DispatchHistory.OtherStepsAnswer | src/sovereign_ai/kernel/jobs.py:149-156 | a cancel request sets the flag of a job that has not ended and nothing else; likewise what creating a job and the steps of a shutdown change |
| Dispatcher.JobDispatcher.NextAttempt | src/sovereign_ai/kernel/runs.py:129-134 | one more than the number of the job's runs |
| Dispatcher.JobDispatcher.constructor | src/sovereign_ai/kernel/dispatcher.py:36-54 | both bounds are as given, but at least 1; nothing is queued or held |
| Dispatcher.JobDispatcher.StartWorkers | src/sovereign_ai/kernel/dispatcher.py:56-62 | starts max_concurrency idle workers unless there are some |
| Dispatcher.JobDispatcher.SubmitJob | src/sovereign_ai/kernel/dispatcher.py:75-91 | accepted iff the queue has room, and then at its end; otherwise the new attempt and its job are on record as failed; nothing else changes |
| Dispatcher.JobDispatcher.TakeNext | src/sovereign_ai/kernel/dispatcher.py:108-126 | the oldest queued run goes to the worker and is marked running, its job too unless it is past being queued; nothing else changes |
| Dispatcher.JobDispatcher.Complete | src/sovereign_ai/kernel/dispatcher.py:127-139 | the run the worker held and that run's job have the outcome, every other run and job is unchanged; a cancelled worker ends, any other waits again |
| Dispatcher.JobDispatcher.RecoverInterrupted | src/sovereign_ai/kernel/runs.py:159-170 | after a restart exactly the runs and jobs that were queued or running are interrupted, all others are as they were, and nothing is queued or held |
| RemoteBudget.StreakMeaning | src/sovereign_ai/inference/remote_quota.py:113-140 | the streak is the longest run of failures at the end of the engine's real calls, refused rows ignored; the last failure is the latest of them all |
| RemoteBudget.AdmittedBelowLimit | src/sovereign_ai/inference/broker.py:78-85 | a call let through found the day's calls, tokens and cost below their limits |
| BudgetAnswers.BreakerOpenIff | src/sovereign_ai/inference/broker.py:70-77 | the breaker refuses iff the engine's latest `threshold` real calls all failed and some failure is less than the cooldown ago |
| BudgetAnswers.RefusalAnswers | src/sovereign_ai/inference/broker.py:60-85 | every answer, both ways: the open breaker, then requests, tokens and cost in turn once their limit is reached; otherwise the call is let through |
| BudgetAnswers.DayBegins | src/sovereign_ai/inference/remote_quota.py:92-111 | the day in question began at the last midnight, UTC |
| BudgetAnswers.UsageAdds | src/sovereign_ai/inference/remote_quota.py:92-111 | usage adds up over the ledger, in requests, tokens and cost |
| BudgetAnswers.UsageOfOne | src/sovereign_ai/inference/remote_quota.py:92-111 | one row of the engine since then is one request, refused or not; only a success has tokens and cost |
| BudgetAnswers.CheckAnswers | src/sovereign_ai/inference/broker.py:112-135 | a refused check leaves one refused row, any other one call in flight |
| BudgetAnswers.ReturnAnswers | src/sovereign_ai/inference/broker.py:137-177 | a call that comes back leaves one row with its outcome, tokens, cost and time; an abandoned one none |
| BudgetAnswers.CallsBalance | src/sovereign_ai/inference/broker.py:112-177 | conservation over runs: calls let through = real rows + abandoned + in flight |
| RemoteBudget.StepKeepsCeiling | src/sovereign_ai/inference/broker.py:112-177 | for calls, tokens and cost: with at most n calls in flight, every step keeps today's spending plus what is in flight below the limit plus n calls' worth, and past days below it for good, midnight included |
| RemoteBudget.RunKeepsCeiling | src/sovereign_ai/inference/broker.py:112-177 | the same after any sequence of checks, outcomes, abandoned calls and waiting |
| RemoteBudget.DailyOvershoot | src/sovereign_ai/inference/broker.py:112-177 | on every UTC day, calls, tokens and cost each stay below their limit plus n times what one call takes at most |
| RemoteBudget.RequestOvershoot | src/sovereign_ai/inference/broker.py:112-177 | on no UTC day do recorded calls exceed max_requests_per_day + n - 1 |
| RemoteBudget.TokenOvershoot | src/sovereign_ai/inference/broker.py:112-177 | with at most t tokens per call, on no UTC day do they exceed limit - 1 + n·t |
| RemoteBudget.CostOvershoot | src/sovereign_ai/inference/broker.py:112-177 | with at most c per call, on every UTC day the cost stays below max_cost_usd_per_day + n·c |
| RemoteBudget.OvershootIsReached | src/sovereign_ai/inference/broker.py:112-177 | the request and token bounds are tight: for every limit, n and size of a call, a run with at most n calls in flight, none larger, reaches them |
| RemoteBudget.LedgerPays | src/sovereign_ai/inference/broker.py:70-77 | each failure beyond the threshold has cost at least one cooldown since the window began |
| RemoteBudget.BreakerRateBound | src/sovereign_ai/inference/broker.py:70-77 | sequential calls record at most threshold + ⌊W/cooldown⌋ failures in any success-free window of length W |
| BudgetAnswers.LedgerIsOfRun | src/sovereign_ai/inference/broker.py:112-177 | the ledger of that bound is the one that making the calls one after the other leaves behind |
| RemoteBudget.RemoteQuotaLedger.RecordCall | src/sovereign_ai/inference/remote_quota.py:59-90 | adds exactly the one row |
| RemoteBudget.RemoteQuotaLedger.ConsecutiveFailures | src/sovereign_ai/inference/remote_quota.py:113-132 | the backward loop returns that streak |
| RemoteBudget.RemoteQuotaLedger.UsageToday | src/sovereign_ai/inference/remote_quota.py:92-111 | counts the engine's rows since midnight, and the tokens and cost of the successes among them |
| RemoteBudget.RemoteQuotaLedger.BudgetRefusal | src/sovereign_ai/inference/broker.py:60-85 | lets a call through only if the breaker has cooled and the day's real calls, tokens and cost are below their limits |
| Sandbox.StagingRefinesDirect | src/sovereign_ai/kernel/sandbox.py:90-110 | after any staged writes and deletes the view is what those operations would have made of the workspace directly |
| Sandbox.ObserversAndView | src/sovereign_ai/kernel/sandbox.py:69-86 | `exists` always answers for the view; a read does iff the path is not a real file staged for deletion |
| Sandbox.PartlyApplied | src/sovereign_ai/kernel/sandbox.py:157-174 | after some of the changes, exactly their files are as in the view and all others as before |
| Sandbox.ChangesGiveView | src/sovereign_ai/kernel/sandbox.py:114-174 | applying the listed changes in any order gives the view |
| Sandbox.ReopeningKeepsViewIff | src/sovereign_ai/cli.py:409-427 | a later process sees the staged view iff no file of the workspace is staged for deletion |
| Sandbox.StagedDeletionIsForgotten | src/sovereign_ai/kernel/sandbox.py:69-110 | an input for both differences: a staged deletion of a real file hides it from `exists`, not from a read, and is unknown to a later process |
| Sandbox.DiffSandbox.StageWrite | src/sovereign_ai/kernel/sandbox.py:90-99 | the view has that content at that path and is unchanged elsewhere, the workspace not at all; outside paths are left alone |
| Sandbox.DiffSandbox.StageDelete | src/sovereign_ai/kernel/sandbox.py:101-110 | the view has nothing at that path and is unchanged elsewhere, the workspace not at all |
| Sandbox.DiffSandbox.Changes | src/sovereign_ai/kernel/sandbox.py:114-139 | lists each touched file and each deleted real file exactly once; each entry is the difference between workspace and view at its path, created, modified or deleted accordingly, and every difference is listed |
| Sandbox.DiffSandbox.Apply | src/sovereign_ai/kernel/sandbox.py:157-174 | the workspace becomes the view, exactly the changed paths are returned, nothing stays staged |
| Sandbox.DiffSandbox.Discard | src/sovereign_ai/kernel/sandbox.py:176-179 | nothing stays staged and the workspace is untouched |
| Tournament.CampaignCells | scripts/harness_tournament.py:95-112 | the nested loops build the campaign that the lemmas below are about |
| Tournament.CampaignCount | scripts/harness_tournament.py:95-112 | how often each cell occurs, for any lists: as often as the lists name its task and loop, once per attempt, and nothing else |
| Tournament.EveryCellOnce | scripts/harness_tournament.py:95-112 | with distinct loops and tasks every (loop, task, attempt) occurs exactly once |
| Tournament.CampaignAt | scripts/harness_tournament.py:95-112 | which cell stands at each index: attempts, then tasks, then the loops from a place that moves on by one with every task and every attempt |
| Tournament.Counterbalanced | scripts/harness_tournament.py:95-112 | any L consecutive tasks of an attempt put each of the L loops in each position exactly once; over n tasks ⌊n/L⌋ or ⌈n/L⌉ times |
| Tournament.RunTournament | scripts/harness_tournament.py:471-557 | keeps the given results and adds, in campaign order, one for each cell without a result whose loop is registered, up to the interruption |
| Tournament.NoCellTwice | scripts/harness_tournament.py:487-492 | however often the tournament is interrupted and resumed, with whatever loops registered, no cell has two results and none is from outside the campaign |
| Tournament.FinishedCampaign | scripts/harness_tournament.py:487-492 | an uninterrupted session leaves exactly one result for every cell of its registered loops, whatever came before |
| Tournament.ResumedInOrder | scripts/harness_tournament.py:487-492 | with every loop registered, interruptions leave no trace: the results are always those of the first cells of the campaign, in its order |
| Tournament.FinishedCampaignPairs | scripts/harness_tournament.py:1003-1014 | then every registered loop's outcome table has exactly all tasks at all attempts, so any two are compared on identical cells |
| Tournament.LastResultCounts | scripts/harness_tournament.py:1003-1010 | the table holds for each key what the last result for it says |
| McNemar.AtMostIsTail | scripts/harness_tournament.py:1020-1024 | the sum of binomial coefficients counts the falls of n coins with at most m heads |
| McNemar.PValueIsChance | scripts/harness_tournament.py:1020-1027 | the p-value is the exact chance that fair coins, one per disagreement, fall at least as unevenly as the disagreements did: both tails over 2^n, for all counts including none |
| McNemar.PValueLaws | scripts/harness_tournament.py:1020-1027 | symmetric in the two loops, in (0, 1], equal to 1 iff the counts differ by at most 1, strictly smaller the less evenly the same number of disagreements splits |
| Paired.MatrixPartitions | scripts/harness_tournament.py:1016-1019 | the pass matrix sums to the compared cells, its row and column to each loop's passes on them |
| Paired.DeltaIsRateDifference | scripts/harness_tournament.py:1029-1030 | the reported difference times the number of compared cells is the difference of the two loops' passes on them |
| Paired.SwappedComparison | scripts/harness_tournament.py:1011-1030 | naming the loops the other way round transposes the matrix, negates the difference and keeps the p-value |
| Paired.PairedAnalysis | scripts/harness_tournament.py:1014-1030 | the counting loops compute that comparison |
| NativeLoop.StepKeeps | src/sovereign_ai/agents/native_loop.py:148-230 | every step of any run keeps the turn, call and model-call accounts of all runs and at most one retried turn |
| NativeLoop.RunKeeps | src/sovereign_ai/agents/native_loop.py:148-230 | the same after any interleaving of any number of runs |
| NativeLoop.BudgetIsAskedFor | src/sovereign_ai/agents/native_loop.py:149-153 | a run's budget is the one it was first started with |
| NativeLoop.LoopBound | src/sovereign_ai/agents/native_loop.py:148-158 | a run started with max_steps has at most max(0, min(max_steps, 25)) turns and one call of next_step more, which then ends it; the model is asked at most once more than that, retry included |
| LoopHistory.EndingHasItsCause | src/sovereign_ai/agents/native_loop.py:148-230 | over whole histories, a run is done iff the model said so, exhausted iff a turn was due with the budget used up, failed iff a call failed that was not retried; and it has as many turns as replies other than done |
| NativeLoop.OneDegradation | src/sovereign_ai/agents/native_loop.py:165-176 | one loop object records at most one degradation in its life and never enforces the schema again |
| NativeLoop.RejectedTurnSurvivesIff | src/sovereign_ai/agents/native_loop.py:165-189 | a rejected constrained turn is retried iff no other turn has degraded the loop since; otherwise its run ends |
| NativeLoop.RejectedTogether | src/sovereign_ai/agents/native_loop.py:165-189 | of two turns rejected together one is retried and the other's run is lost without a retry |
| NativeLoop.WaitingTogether | src/sovereign_ai/agents/native_loop.py:160-164 | two runs on a fresh loop do come to wait so |
| NativeLoop.NativeAgentLoop.BeginTurn | src/sovereign_ai/agents/native_loop.py:148-164 | asks the model iff the run has fewer turns than max_steps and than 25, with the schema iff it is still enforced; otherwise the run ends as exhausted; no other run changes |
| NativeLoop.NativeAgentLoop.Answered | src/sovereign_ai/agents/native_loop.py:191-230 | "done" ends the run, any other reply adds one turn; the first constrained reply shows that the backend honours the schema; nothing else changes |
| NativeLoop.NativeAgentLoop.CallFailed | src/sovereign_ai/agents/native_loop.py:165-189 | a retry is sent iff this was the turn's first call, the schema is still enforced and the payload may be at fault, and then the schema never is again; otherwise the run ends |
| Context.TallyMeans | src/sovereign_ai/agents/context.py:111-115 | the note counts the elided turns tool by tool, never shows a zero, and its counts add up to their number |
| Context.CompactionAccounts | src/sovereign_ai/agents/context.py:86-116 | the history is leading, elided and recent turns in a row; the first and last are shown whole and in order, the middle is what the note counts |
| Context.CompactsIffTooManyTurns | src/sovereign_ai/agents/context.py:100-110 | compaction happens iff there are more turns than are kept, for any limit on characters; that limit changes nothing |
| Context.PromptBound | src/sovereign_ai/agents/native_loop.py:429-475 | a prompt has at most 2·(leading + recent) + 4 messages; it says that turns are missing iff they are and some recent turn is kept; it restates the objective whenever turns are missing |
| Context.WholePrompt | src/sovereign_ai/agents/native_loop.py:429-475 | a history that fits is shown whole, after the two opening messages and, exactly on the cadence, the objective |
| Context.CutPrompt | src/sovereign_ai/agents/native_loop.py:429-475 | one that does not: opening messages, objective, leading turns, note, recent turns |
| Context.RenderedAt | src/sovereign_ai/agents/native_loop.py:467-474 | each turn shown is its reply, then its observation |
| Context.TruncateObservation | src/sovereign_ai/agents/context.py:119-123 | an observation keeps exactly its first max_observation_chars characters, all of them if it is no longer, and the number of the rest |
| Context.BuildMessages | src/sovereign_ai/agents/native_loop.py:429-475 | the loop that interleaves the note builds that prompt: leading turns, note, recent turns |

## Left out

- SQLite itself, write-ahead logging, several processes on one database, and crashes between two databases: each store call is one atomic step.
- Columns and request fields that no modelled decision reads (descriptions, metadata, model ids, timestamps other than those compared).
- HashChain.CanonicalInjective: lone surrogates are not modelled, because characters here are Unicode scalar values, as are the texts SQLite stores.
- HashChain.VerifyRows: the hash function is a parameter; SHA-256 is not computed.
- HashChain.StepKeepsAnchored: inserting, exclusively creating and linking identities are steps of the specification only, not methods of the class, since they touch no chain.
- Staging.Workspace.ReconcileWorkspace: no other process writes to the workspace meanwhile, an interrupt of the whole process is not a failing step, and where a link leads is an abstract question, asked of the directory the tree is in.
- Staging.Workspace.ClearChildren: a removal that reports success has removed.
- Staging.BuildSnapshot: file modes are not modelled; the snapshot does not record them either.
- The lease and workspace checks of `run_approved` before authorisation, and the execution backends after it.
- Framing.FaithfulCodec: the columns that streaming does not look at are one string, not separate members.
- Framing.PrintedBatchRoundTrip: event types contain no newline, and the JSON library is assumed faithful and one-line; `FaithfulCodec` shows that this can be met.
- EventStream.ExactlyOnce: text arrives as characters, so UTF-8 decoding across chunks is not modelled; the stream prefix filter, the delays between reconnects and client-side abort are left out.
- Dispatcher.JobAndRunAgree: a job submitted again after it finished is outside the statement, because its status is not reset to queued; other theorems of the dispatcher include such jobs.
- What executors do, and a shutdown that starts before the last finish: a worker ends by `StopIdle` or by a cancelled run.
- RemoteBudget.RequestOvershoot: the order of candidate engines within one request is not modelled; every check and every recorded outcome is its own step. Local engines are never refused and never recorded.
- RemoteBudget.DailyOvershoot: money is exact here, not a binary fraction.
- RemoteBudget.BreakerRateBound: rows have strictly increasing times, since rows of equal time are ordered arbitrarily by the query.
- Sandbox.DiffSandbox.Apply: no path is both a file and a directory, the workspace is unchanged meanwhile, text encodings are opaque, and changes come in no particular order.
- Tournament.RunTournament: how a task is run and judged, and the diagnostic rerun after a timeout, are the outcome parameter.
- The bootstrap confidence interval (random), the rounding of reported numbers, and the per-loop totals.
- NativeLoop.StepKeeps: a tool or hook that raises out of next_step ends that run outside the model.
- Context.CompactionAccounts: how a turn's digest is read from its action and observation is a field of the turn.
- The text of messages, tool discovery, hooks, the advisor's own model call, and sub-tasks.
- Skills, workflows, triggers, the scheduler, GPU arbitration, media, HTTP routes and the user interface.
