# ProofOps, modelled and proved in Dafny

ProofOps watches services, turns alerts into incidents, lets agents propose actions, puts every
risky action before a human, and records all of it in a hash-chained audit log. This project
models the parts whose correctness is hard to see from any single function, and proves what
they promise.

`dafny verify dfyconfig.toml` checks everything. Each module follows one source file or one
protocol that spans several.

| file | models |
|---|---|
| `NonceStore.dfy` | burned approval nonces: memory, append-only log, eviction, restart |
| `Approval.dfy` | HMAC approval tokens and what they are bound to |
| `Approvals.dfy` | the approval desk: request, approve, reject, sweep, mint, idempotency |
| `ApprovalLifecycle.dfy` | whole runs of the desk, one call at a time and without a crash |
| `ApprovalAnswers.dfy` | what each call to the desk answers, exactly, in terms of what was raised |
| `ApprovalProtocol.dfy` | concurrent handlers and crashes: at most one grant and one permit |
| `ApprovalSteps.dfy` | the calls of the desk, left alone, as runs of the concurrent machine |
| `ApprovalRaces.dfy` | concurrent handlers: exactly when the lifecycle survives |
| `ApprovalEyes.dfy` | concurrent handlers: what every grant keeps of four eyes, and exactly when the tables do |
| `ApprovalOwners.dfy` | the people behind a grant of the concurrent machine |
| `ApprovalOverwrites.dfy` | runs in which one decision is written over another |
| `KeyStore.dfy` | per-key identities, and the two humans behind an approval |
| `EventBus.dfy` | bounded drop-oldest queues and the subscription table |
| `LiveStream.dfy` | emitter and reader of the live stream, interleaved step by step |
| `StreamRuns.dfy` | what a whole connection sends, and what the next one cannot make up for |
| `StreamClient.dfy`, `PollRuns.dfy` | the browser's cursor, and every run of its polls |
| `AuditChain.dfy` | the hash chain, its verification, its file |
| `Correlator.dfy`, `Grouping.dfy` | sorting, de-duplication, grouping, incidents |
| `Fingerprints.dfy` | which alerts come together, and what their incident tells |
| `Ties.dfy` | exactly when the input order decides what correlation keeps |
| `Session.dfy`, `SessionStore.dfy` | message window, call budgets, saving and loading of agent sessions |
| `FrozenValues.dfy` | freezing, depth and equality of JSON-like values |
| `LockCheck.dfy` | the dependency-lock check |
| `Text.dfy`, `Seqs.dfy`, `Sums.dfy`, `Wrappers.dfy` | strings, sequences, totals, options and results |

Code that changes state is a class or a method with loops, proved against a function or a
predicate; the properties are then proved about that function, over all inputs and all runs.
Hash, MAC, digest, JSON text and timestamp text are arbitrary functions, fresh ids and clock
readings are inputs of a step, and what a file system does to a write is an input too. No hash
or MAC is ever assumed free of collisions: a claim that would need it produces the two
colliding texts instead.

## Main results

- Every interleaving of concurrent approval handlers, with every crash, save torn by another
  handler and late load: `ApprovalProtocol.AtMostOnce` (one grant and one permit per nonce),
  `ApprovalEyes.GrantedByAnother` (every grant through a per-key identity was made by another key
  than the raising one) and `ApprovalOwners.TwoOwners` (and by another human).
- When the table tells that, and when not: `ApprovalEyes.RunEyesExactly`. When concurrent
  decisions respect the lifecycle, and when not: `ApprovalRaces.RunMovesExactly`,
  `ApprovalRaces.LifecycleUndisturbed`.
- The memory of the nonce store: `NonceStores.BurnRememberedExactly`; what a token is bound to:
  `Approval.TokenBinding`; what the desk answers, and which refusal it gives:
  `ApprovalAnswers.ApproveExactly`, `ApprovalAnswers.MintExactly`, `ApprovalAnswers.MintForIncident`;
  two people behind an approval: `KeyStores.TwoHumans`.
- The live stream under every interleaving: `LiveStream.DeliveredIncreasing`,
  `LiveStream.ExactlyAfterCursor`, `LiveStream.ResumesAfterCursorExactly`; the client over every
  run of polls: `StreamClient.RepeatsNothingExactly`, `PollRuns.PollsExactly`.
- Tamper evidence without assuming a collision-free hash: `AuditChains.SameEndSameChain`.
- Correlation: `Fingerprints.TogetherAlike`, `Fingerprints.AlikeTogether`,
  `Grouping.ExactlyOneGroup`, `Ties.KeptDeterminedExactly`.
- Sessions over every life and every store: `Sessions.WindowShowsLatest`, `Sessions.MessagesExactly`,
  `SessionStores.Session.RecordCall`, `SessionStores.Resume`.
- Refinements: `FrozenValues.NestedDepth`, `LockChecks.VersionSatisfies`, `LockChecks.RequirementExactly`,
  `LockChecks.CheckLock`.

## What the code does not keep

Where a promise of the documentation or the design fails, the model follows the code. One lemma
gives the failing case, and another says exactly when the promise holds, or that it never does.

- An approved request is meant to have been decided by another key than the raising one. The
  gate holds to that (`ApprovalEyes.GrantedByAnother`), but a handler assigns the status and the
  decider in two steps without a lock, after everything it decided. A requester's withdrawal that
  overlaps with the grant leaves the request approved by its own requester, in memory and on
  disk, and minting accepts it (`ApprovalOverwrites.OwnApproval`). A save by another handler
  between the two assignments of a grant leaves a request approved by nobody on the disk
  (`ApprovalOverwrites.HalfGrantSaved`). While approvals come from per-key identities, the tables
  in memory and on disk tell the truth throughout a run if and only if no rejection presenting
  the raising key assigns its decider after a grant has assigned both, and no save reads an entry
  across such an assignment (`ApprovalEyes.RunEyesExactly`).
- Requests are meant to move pending to approved, denied or expired and approved to expired. A
  reject and an approve that have both found the request pending overwrite each other: a denied
  request becomes approved (`ApprovalOverwrites.DenialLost`), or a grant and its decider are
  replaced by a rejection (`ApprovalOverwrites.GrantLost`), for every request on which this can
  happen, and there is one (`ApprovalOverwrites.ContestedRequest`). Without crashes and late loads
  the lifecycle holds if and only if every status is assigned to an entry that may still move
  there (`ApprovalRaces.RunMovesExactly`), and so whenever no decision is overtaken by another
  change of its request (`ApprovalRaces.LifecycleUndisturbed`). The theorems of
  `ApprovalLifecycle` and `KeyStores.TwoHumans` cover calls that do not overlap; that two humans stand
  behind a grant holds for overlapping ones too (`ApprovalOwners.TwoOwners`).
- Resuming after an approval: `_trigger_resume` is meant to let the run continue. It presents
  the approver's name, while minting insists on the requester's, so it succeeds only when the
  two are the same (`ApprovalLifecycle.ResumeMintsExactly`), and never after an approval by two
  humans through the per-key routes (`KeyStores.TwoHumansNeverResume`, with the case in
  `KeyStores.TwoHumansHappen`).
- The label `sod: enforced` is documented as "a per-key store authorized the decision". It is a
  comparison of recorded key ids (`ApprovalLifecycle.SodLabelExact`), and a decision taken with
  the bootstrap credential can carry it (`ApprovalLifecycle.SodLabelOverclaims`).
- `resolve_identity` documents that the bootstrap secret is not consulted under an authoritative
  key store. It is (`KeyStores.BootstrapUnderStore`, `KeyStores.BootstrapUnderStoreHappens`).
- The shape check of the key store asks for 64 hex digits but parses a number, so an entry that
  no key can ever match is accepted (`KeyStores.UnusableEntryAccepted`). An accepted entry is
  usable if and only if its digest holds no blank, sign, underscore or `x`
  (`KeyStores.UsableExactly`).
- Reconnecting to the stream promises no gap and no duplicate. Without drops this holds exactly
  under the condition of `LiveStream.ResumesAfterCursorExactly`; a cursor that was appended but not
  yet published is delivered again (`LiveStream.UnpublishedCursorRepeats`).
- After a drop the client's cursor is documented not to match, so that the client starts over. It
  always matches, and the dropped events are lost for good (`StreamRuns.DroppedIsLost`, with drops
  of any number of events in `StreamRuns.DropHappens`).
- The client is meant to hand over each event once. A failed poll makes it start over
  (`StreamClient.FailedPollReplaysAll`) unless it has no cursor or gave up this one before
  (`StreamClient.FailedPollExactly`); over whole runs nothing is repeated if and only if every
  failure is of that kind (`StreamClient.RepeatsNothingExactly`). It also repeats what a poll handed
  over before a replay, exactly when that poll had something new
  (`StreamClient.PollBeforeReplayRepeats`).
- Correlation is called deterministic. The processing order is a function of the set of alerts
  exactly when different alerts have different timestamps (`Correlator.OrderDeterminedExactly`).
  What is kept of them is one exactly when of alerts with one timestamp all but one are suppressed
  by what was kept before that time (`Ties.KeptDeterminedExactly`), and then so are the incidents
  (`Ties.Deterministic`). Otherwise the input order may decide which duplicate survives and what its
  incident says (`Grouping.TieChangesIncidents`).
- A saved session store is meant to load back. It does exactly if every entry is proper
  (`Sessions.SaveLoadsBackExactly`); a load that was refused for an unknown role leaves an entry
  that is not (`Sessions.FailedLoadSpoilsSave`).
- Truncating the end of a chain is never detected by verification
  (`AuditChains.TruncationUndetected`).

## Model

| member | source | states |
|---|---|---|
| Text.StripExactly | backend/app/services/approval.py:61-61 | strip leaves the text between its first and its last character that is not a blank; a text is blank exactly if all its characters are |
| Text.SpacesAre | backend/app/services/approval.py:61-61 | which characters are blanks |
| NonceStores.ConsumeKeepsValid | backend/app/services/approval.py:79-119 | whatever the file system does, a burn is accepted exactly for an unknown nonce, remembers it, and `_used` stays the set of a repetition-free `_order` |
| NonceStores.ConsumeKeepsLog | backend/app/services/approval.py:85-114 | with working I/O the log tells the same nonces in the same order as memory, eviction included, so a restart finds what was in memory |
| NonceStores.FailedAppendExactly | backend/app/services/approval.py:94-97 | a burn whose append fails is flagged as degraded and survives a restart exactly if its line reached the disk |
| NonceStores.InMemoryNeverEvicts | backend/app/services/approval.py:79-98 | over any burns, whatever the file system does, a store without a file refuses exactly the nonces it knew and those burned since |
| NonceStores.BurnRememberedExactly | backend/app/services/approval.py:79-119 | over any mix of other burns and restarts a burned nonce is refused if and only if fewer than MAX_NONCES fresh burns followed it |
| NonceStores.ReopenExactly | backend/app/services/approval.py:50-67 | a new process knows exactly the nonces that stand in a line of its log, or nothing, flagged and without a file, when the log cannot be read |
| NonceStores.CompactionExactly | backend/app/services/approval.py:85-119 | past MAX_NONCES the newest stay in memory, the log is cut to them only when the replacement works, and only a missing temporary file is flagged |
| NonceStores.NonceStore.constructor | backend/app/services/approval.py:50-67 | the store of a new process is what its log reads as, or an empty flagged memory-only store |
| NonceStores.NonceStore.Burn | backend/app/services/approval.py:79-98 | refines the burn on values, for every outcome of the file operations |
| NonceStores.NonceStore.Clear | backend/app/services/approval.py:121-130 | forgets every burn in memory, and in the file unless removing it fails, so that a restart may bring them back |
| NonceStores.NonceStore.Compact | backend/app/services/approval.py:100-119 | keeps the newest MAX_NONCES in memory, and in the file only when the replacement succeeds |
| Approval.IssuedTokenWorksOnce | backend/app/services/approval.py:153-198 | a token opens its own request exactly while that is unexpired, once, and a refusal burns nothing |
| Approval.LastFieldDetermined | backend/app/services/approval.py:148-150 | the field after the last separator is determined by the joined text |
| Approval.FieldsPinnedExactly | backend/app/services/approval.py:148-150 | the signed text determines its fields if and only if no field holds the separator |
| Approval.TokenBinding | backend/app/services/approval.py:148-198 | an issued token that verifies against a stored request was issued for its nonce, and for exactly its fields when the issued ones hold no separator, or a MAC collision is exhibited |
| Approvals.ApprovalDesk.Request | backend/app/routers/approvals.py:403-452 | the in-place step equals the request step on states: answer, table, file |
| Approvals.ApprovalDesk.Approve | backend/app/routers/approvals.py:490-626 | the in-place step equals the approve step on states: every refusal, expiry, replay, grant and cached answer |
| Approvals.ApprovalDesk.Reject | backend/app/routers/approvals.py:685-717 | the in-place step equals the reject step on states |
| Approvals.ApprovalDesk.Sweep | backend/app/routers/approvals.py:720-733 | exactly the pending requests past their expiry become expired and are returned |
| Approvals.ApprovalDesk.Mint | backend/app/routers/approvals.py:755-830 | the in-place step equals the mint step on states |
| ApprovalAnswers.RequestExactly | backend/app/services/approval.py:132-171 | a request is accepted exactly for a valid action, a named actor and a secret; it leaves this action, incident, actor, scope and expiry pending under its own id, and its token is the MAC of these fields in order |
| ApprovalAnswers.ApproveExactly | backend/app/routers/approvals.py:539-624 | when an approve grants (pending, in time, role, separation of duties, token over the stored fields, unburned nonce) and which of the four refusals it gives otherwise |
| ApprovalAnswers.RejectExactly | backend/app/routers/approvals.py:699-717 | a rejection succeeds exactly on a pending request and a fitting role, and records its key if it presents one |
| ApprovalAnswers.BlankKeyRefused | backend/app/routers/approvals.py:490-497 | a blank idempotency key is refused whatever else the call says |
| ApprovalAnswers.ViewTells | backend/app/routers/approvals.py:455-487 | the view shows each field of the entry under its name, the time that is left, and the label that the recorded keys and mode give |
| ApprovalAnswers.SweepExactly | backend/app/routers/approvals.py:720-733 | a sweep expires exactly the pending requests whose time is up, and touches nothing else |
| ApprovalAnswers.SavedThenLoaded | backend/app/routers/approvals.py:204-226 | what a working save wrote is what a new process finds, and memory that is not empty is never loaded over |
| ApprovalAnswers.MintExactly | backend/app/routers/approvals.py:774-830 | when a permit is minted and which refusal is given instead; only an expired one changes the entry |
| ApprovalAnswers.RaisedStands | backend/app/routers/approvals.py:403-452 | after any run of calls that do not overlap, a request stands under its id with everything that was raised |
| ApprovalAnswers.MintForIncident | backend/app/routers/approvals.py:788-798 | after any such run, an incident that the caller names has to be the one the action was raised for, and naming that one never is what refuses the permit |
| ApprovalLifecycle.LifecycleOverRuns | backend/app/routers/approvals.py:539-733 | over every crash-free run of calls that do not overlap, a status moves only pending to approved, denied or expired and approved to expired, and what the decision was based on, and the decider once there is one, never change |
| ApprovalLifecycle.ApproveSucceeds | backend/app/routers/approvals.py:539-624 | a grant found the request pending and in time, saw the right MAC, burned the nonce for the first time, and changed that entry only |
| ApprovalLifecycle.RefusalBurnsNothing | backend/app/routers/approvals.py:543-605 | a call that grants nothing burns and caches nothing, and changes at most this request from pending to expired |
| ApprovalLifecycle.FourEyesForever | backend/app/routers/approvals.py:550-563 | over every run of later calls that do not overlap, an approval granted through a per-key identity keeps a decider different from the requesting key |
| ApprovalLifecycle.SodLabelExact | backend/app/routers/approvals.py:470-476 | when a fresh approval is labelled as enforced: exactly when recorded key ids differ on a per-key request |
| ApprovalLifecycle.SodLabelOverclaims | backend/app/routers/approvals.py:455-476 | a decision under the bootstrap credential that is labelled as enforced, against the documentation |
| ApprovalLifecycle.PermitFaithful | backend/app/routers/approvals.py:774-830 | a permit carries the stored action and parameters, outlives neither the request nor mint time plus 300, matches the expected incident, needs a decider in per-key mode, and cannot be minted again |
| ApprovalLifecycle.ResumeMintsExactly | backend/app/routers/approvals.py:629-682 | when the resume after an approval gets its permit: if and only if the approver's name is the requester's, in time, for the first time, with a recorded decider in per-key mode |
| ApprovalLifecycle.ApprovedOnlyByGrant | backend/app/routers/approvals.py:606-607 | whenever a request is found approved at the end of a run, some step of the run granted it |
| ApprovalLifecycle.PermitFromRequest | backend/app/routers/approvals.py:403-830 | over any run from request to mint, the permit is for the action and parameters that were raised, within their lifetime, and a granting step lies in between |
| ApprovalLifecycle.RepeatedDecision | backend/app/routers/approvals.py:490-505 | after any run of calls that do not overlap a repeated idempotency key gets the first answer marked duplicate and changes nothing, even when an approval is repeated as a rejection |
| ApprovalRaces.RunMovesExactly | backend/app/routers/approvals.py:539-733 | over every interleaving of handlers, each split into decision, status, decider and save, the lifecycle holds throughout if and only if every status is assigned to an entry that is pending, has that status, or is approved and expires |
| ApprovalRaces.LifecycleUndisturbed | backend/app/routers/approvals.py:539-733 | it holds over every interleaving in which no handler assigns anything to a request that another handler or a sweep has changed since it decided, and then a decider, once assigned, stays |
| ApprovalEyes.GrantedByAnother | backend/app/routers/approvals.py:550-607 | in every interleaving, with every crash, torn save and late load, each grant made through a per-key identity was made by another key than the one that raised the request with that nonce |
| ApprovalEyes.RunEyesExactly | backend/app/routers/approvals.py:606-711 | over every such run with per-key approvals, the tables in memory, being saved and on disk show each approved request decided by another key than the raising one, the two assignments of a grant apart, if and only if no rejection by the raising key assigns its decider to a granted request and no save reads across an assignment |
| ApprovalOwners.TwoOwners | backend/app/routers/auth.py:170-226 | over every such run, the holders of the key that raised a request and of the per-key identity that granted it are different owners who present different keys |
| ApprovalOverwrites.DenialLost | backend/app/routers/approvals.py:543-711 | a run on every contested request in which a denied request becomes approved |
| ApprovalOverwrites.GrantLost | backend/app/routers/approvals.py:543-711 | a run on every contested request in which an approved one becomes denied and its decider the rejecting key |
| ApprovalOverwrites.OwnApproval | backend/app/routers/approvals.py:606-711 | a run on every request contested by its own requester that ends with it approved, decided by the requester's key, saved and loaded again, and indistinguishable to minting |
| ApprovalOverwrites.HalfGrantSaved | backend/app/routers/approvals.py:101-139 | a run on every request that may be approved while another handler saves, after which a process loads it approved with the decider it had when pending |
| ApprovalOverwrites.ContestedRequest | backend/app/routers/approvals.py:543-717 | such a request, raised from the start and still being saved: the requester may withdraw it while another key may approve it |
| ApprovalProtocol.FirstBurn | backend/app/services/approval.py:79-119 | a first burn is accepted, and memory and log keep at least the last MAX_NONCES burns |
| ApprovalProtocol.SecondBurnRefused | backend/app/services/approval.py:81-82 | a repeated burn within MAX_NONCES burns is refused |
| ApprovalProtocol.ReopenDurable | backend/app/services/approval.py:56-64 | a crash and restart lose none of these burns |
| ApprovalProtocol.EventKeeps | backend/app/routers/approvals.py:539-830 | every event of concurrent handlers, saves, late loads and crashes keeps the invariant that ties tables, snapshots, flights and burns together |
| ApprovalProtocol.AtMostOnce | backend/app/routers/approvals.py:539-830 | in every interleaving of concurrent handlers with crashes and late loads that restore any earlier table, each nonce backs at most one grant and one permit, as long as burns stay durable and at most MAX_NONCES lie between issue and use |
| ApprovalProtocol.AtMostOnceWithinLifetime | backend/app/routers/approvals.py:539-830 | the same from a condition on request lifetimes: fewer than MAX_NONCES burns before a request expires, and handlers that burn in time |
| ApprovalSteps.ApproveIsFiveEvents | backend/app/routers/approvals.py:539-624 | an uninterrupted approve is decide, burn, assign status, assign decider, save, and ends in the desk's own state |
| ApprovalSteps.MintIsThreeEvents | backend/app/routers/approvals.py:774-830 | the same for an uninterrupted mint: decide, burn, done |
| ApprovalSteps.RejectIsFourEvents | backend/app/routers/approvals.py:700-717 | an uninterrupted reject is decide, assign status, assign decider, save, and ends in the desk's own state |
| ApprovalSteps.LapseIsThreeEvents | backend/app/routers/approvals.py:592-598 | the same for an approve that finds the request out of time |
| ApprovalSteps.RaiseIsTwoEvents | backend/app/routers/approvals.py:403-452 | an uninterrupted request is raise, save, and ends in the desk's own state |
| ApprovalSteps.SweepIsTwoEvents | backend/app/routers/approvals.py:720-733 | the same for a sweep |
| ApprovalSteps.CrashRestarts | backend/app/services/approval.py:50-67 | after a crash no handler and no remembered answer is left; a nonce is known exactly if the log can be read and holds it, and the requests are those of the file |
| KeyStores.CheckUnique | backend/app/routers/auth.py:170-190 | succeeds exactly when key ids, digests and owners are pairwise distinct, and otherwise names the first repeated field of the first repeating entry |
| KeyStores.AcceptedExactly | backend/app/routers/auth.py:97-191 | a file is accepted exactly if its objects each have a named id and owner, 64 characters that read as a hex number, and a list of named roles, and share no id, owner or, up to case, digest |
| KeyStores.LoadKeyStore | backend/app/routers/auth.py:145-191 | falls back exactly for a missing or unreadable file and accepts exactly the well-shaped unambiguous ones |
| KeyStores.ResolveIdentity | backend/app/routers/auth.py:194-226 | who a caller is, exactly: the holder of a matching entry, the bootstrap identity, or an error; a broken store is never bypassed |
| KeyStores.IdentityUnique | backend/app/routers/auth.py:219-225 | one key never stands for two identities |
| KeyStores.IdentityFromFile | backend/app/routers/auth.py:194-226 | under an accepted store a caller is a per-key identity exactly as an object of the file lists the digest of its key: with that object's id, owner and roles, all of them |
| KeyStores.RoutesExactly | backend/app/routers/approvals.py:915-1036 | which identities may raise and approve, under which names, and that their own key id and mode are handed to the desk |
| KeyStores.BootstrapUnderStore | backend/app/routers/auth.py:199-225 | under an accepted store a caller is the bootstrap identity if and only if the key equals the secret and matches no entry |
| KeyStores.BootstrapUnderStoreHappens | backend/app/routers/auth.py:199-225 | an accepted store under which the bootstrap secret is consulted, against the documentation |
| KeyStores.UsableExactly | backend/app/routers/auth.py:125-133 | an entry that passes the shape check can be matched by some key if and only if its digest is 64 hex digits, that is, holds no blank, sign, underscore or prefix |
| KeyStores.HexSyntaxExactly | backend/app/routers/auth.py:125-133 | what the shape check takes for a digest: between blanks an optional sign and `0x`, then hex digits with single underscores between them |
| KeyStores.UnusableEntryAccepted | backend/app/routers/auth.py:125-133 | an entry that passes the shape check and that no key can ever match |
| KeyStores.OwnersApart | backend/app/routers/auth.py:179-187 | two key ids resolved by one accepted store have different owners and different keys |
| KeyStores.TwoHumans | backend/app/routers/approvals.py:930-1036 | request and approval through the per-key routes, with any run of calls between them, come from two different owners with different keys; the request names its raiser and the approver holds an approving role |
| KeyStores.TwoHumansNeverResume | backend/app/routers/approvals.py:622-678 | after such an approval the resume is always refused its permit |
| KeyStores.TwoHumansHappen | backend/app/routers/approvals.py:622-678 | two keys of two owners, a request and its approval in time, and the refused resume |
| EventBus.RunAccounted | backend/app/services/eventbus.py:72-100 | over any run the queue is bounded, holds the newest items offered, reads follow in offer order, and offered items are read, dropped or queued |
| EventBus.Subscription.DoPut | backend/app/services/eventbus.py:85-97 | the oldest item makes room; the inner error branch is unreachable |
| EventBus.RemoveUndoesAdd | backend/app/services/eventbus.py:119-133 | unsubscribing a new subscription restores the table, empty buckets included |
| EventBus.WithoutExactly | backend/app/services/eventbus.py:123-133 | removing a subscription keeps the order of the others |
| EventBus.Bus.Subscribe | backend/app/services/eventbus.py:112-121 | a fresh subscription joins its incident's list, and no other list changes |
| EventBus.Bus.Unsubscribe | backend/app/services/eventbus.py:123-133 | removes it everywhere, once, and drops an empty list |
| EventBus.Bus.Publish | backend/app/services/eventbus.py:135-145 | every subscriber of the incident, and no other, is offered the event exactly once |
| LiveStream.FilterAfter | backend/app/routers/stream.py:91-109 | the items after the first match of the cursor, everything without a cursor, an error exactly for an unknown one |
| LiveStream.LiveFrames | backend/app/routers/stream.py:243-280 | sends the backlog, then what the queue gave it without the ordinals already sent |
| LiveStream.FollowedNews | backend/app/routers/stream.py:271-280 | of the items taken off the queue exactly those are sent that have no number or a greater one than all before, in backlog or queue, under their own event ids |
| LiveStream.DeliveredIncreasing | backend/app/routers/stream.py:241-284 | in every interleaving, with any losses, delivered ordinals strictly increase |
| LiveStream.ExactlyAfterCursor | backend/app/routers/stream.py:241-284 | with nothing dropped and a cursor published before the subscription, delivery is the contiguous run right after the cursor, and all of it once the system is quiet |
| LiveStream.GapMeansDropped | backend/app/services/eventbus.py:112-145 | a hole in the delivered ordinals proves a drop |
| LiveStream.ResumesAfterCursorExactly | backend/app/routers/stream.py:286-295 | with nothing dropped, delivery is the contiguous run right after the cursor if and only if the cursor was published before the subscription or something was left to replay |
| LiveStream.UnpublishedCursorRepeats | backend/app/routers/stream.py:286-295 | a run in which the cursor's own event is delivered again, against the documentation |
| StreamRuns.SendsWhatLiveFramesSends | backend/app/routers/stream.py:243-280 | in every interleaving a following connection has sent what the generator sends for the backlog it read and the items its queue gave it |
| StreamRuns.DroppedIsLost | backend/app/services/eventbus.py:30-38 | the last delivered event is found as cursor by the next connection, over any later chain, and that delivers nothing before it, so no dropped event |
| StreamRuns.DropHappens | backend/app/services/eventbus.py:50-97 | for every number of events over 256 a run of one connection that drops all but the last 256 of them and delivers the next one |
| AuditChains.EmitKeepsVerified | backend/app/services/audit.py:137-185 | an emission appends exactly one event at the next position and keeps the chain verifiable |
| AuditChains.EmitExactly | backend/app/services/audit.py:131-185 | when an event is accepted, and the event that is then appended: the caller's id, time and fields, the next position, this incident, and the hash over the last hash and itself |
| AuditChains.ExtrasByField | backend/app/services/audit.py:46-66 | for each optional field, the event types that need it |
| AuditChains.SafeIdExactly | backend/app/services/audit.py:76-92 | which incident ids may name a file |
| AuditChains.EmittedVerifies | backend/app/services/audit.py:137-202 | every chain that emission can build verifies |
| AuditChains.LinkTextInjective | backend/app/services/audit.py:101-110 | equal hashed texts come from equal events, although previous hash and body are only concatenated |
| AuditChains.SameEndSameChain | backend/app/services/audit.py:187-202 | two verified chains with the same last hash are equal event by event, whatever their lengths and incidents, or two texts with one hash are exhibited |
| AuditChains.TamperingDetected | backend/app/services/audit.py:187-202 | a change that keeps the last hash makes verification fail, or a collision is exhibited |
| AuditChains.TruncationUndetected | backend/app/services/audit.py:187-202 | every prefix of a verified chain verifies |
| AuditChains.ParsedDumped | backend/app/services/audit.py:227-281 | the lines that save writes read back as the events |
| AuditChains.ParsedExactly | backend/app/services/audit.py:262-281 | a file reads as these events exactly if its lines that are not blank do, one by one and in order, all of this incident |
| AuditChains.SaveThenLoad | backend/app/services/audit.py:216-287 | loading what save wrote for any emitted chain gives the chain back |
| AuditChains.AuditChain.EmitEvent | backend/app/services/audit.py:137-185 | the in-place emission equals the emission on values, refusals included |
| AuditChains.AuditChain.Verify | backend/app/services/audit.py:187-202 | valid exactly when position, owner, previous link and hash hold everywhere; `checked` is the longest good prefix, and the first fault is reported |
| AuditChains.AuditChain.Save | backend/app/services/audit.py:216-244 | one line per event in order, refused for an id that may not name a file |
| AuditChains.AuditChain.Load | backend/app/services/audit.py:246-287 | succeeds exactly on files whose lines read as a chain of this incident that verifies |
| StreamClient.Subscriber.HandOver | frontend/src/sse.ts:134-150 | hands over exactly the items behind the cursor, nothing when the cursor is missing, and moves the cursor along |
| StreamClient.Subscriber.PollOnce | frontend/src/sse.ts:129-185 | the response to a poll has exactly the effect of the poll on values; an answer that comes after the stream took over changes nothing, while a failure that comes so late still gives up the cursor |
| StreamClient.CursorAfter | frontend/src/sse.ts:43-49 | the cursor becomes the audit event id, or else the event id, of the last item handed over that has one |
| StreamClient.ReachExactly | frontend/src/sse.ts:143-148 | the search stops at the first item with the cursor's id |
| PollRuns.PollsExactly | frontend/src/sse.ts:90-185 | over any run of polls of a growing chain: what is handed over, that a cursor is given up once for each length at which polls fail, and that every other failure is an error, all as a function of the answers |
| PollRuns.QuietChain | frontend/src/sse.ts:90-96 | on a quiet chain the first failure replays it once, and however often polls fail from then on, each failure is one error and each answer hands over nothing |
| StreamClient.PollAgreesWithServer | backend/app/routers/stream.py:91-109 | a poll hands over what the server's cursor filter would send, and nothing for a cursor the server does not know |
| StreamClient.PollsHandOverTail | frontend/src/sse.ts:129-156 | over any run of polls of a growing chain without a reset, failures included, exactly the events after the starting cursor are handed over, each once, in order |
| StreamClient.RepeatsNothingExactly | frontend/src/sse.ts:129-185 | over any run of polls of a growing chain no cursor is given up if and only if every failing poll falls where nothing was shown yet or where this cursor was given up before, and over runs that end with an answer exactly then nothing is handed over twice |
| StreamClient.FailedPollReplaysAll | frontend/src/sse.ts:162-166 | one failed request makes the next poll hand over the whole chain again |
| StreamClient.FailedPollExactly | frontend/src/sse.ts:90-96 | a failed poll before an answered one repeats nothing if and only if the client had no cursor or had given up this one before |
| StreamClient.PollBeforeReplayRepeats | frontend/src/sse.ts:199-203 | a poll answered before the replay of a new connection is repeated by it, unless it had nothing new |
| Correlator.SortSorts | backend/app/services/correlator.py:236 | the order by timestamp is sorted, a permutation, and stable |
| Correlator.OrderDeterminedExactly | backend/app/services/correlator.py:236-237 | the processing order is the same for every permutation of the input if and only if different alerts have different timestamps |
| Correlator.Deduplicate | backend/app/services/correlator.py:137-167 | the loop keeps and counts, in total and per key, exactly what the specification keeps and drops, and fails exactly on a missing signature |
| Correlator.DedupSplits | backend/app/services/correlator.py:137-167 | kept and suppressed alerts together are the input; the kept ones are a subsequence with distinct ids |
| Correlator.SuppressedExactly | backend/app/services/correlator.py:154-163 | on sorted input an alert is suppressed if and only if a kept one has its id, or its key at most five seconds earlier |
| Correlator.KeptApart | backend/app/services/correlator.py:158-166 | on sorted input kept alerts of one key are more than five seconds apart |
| Correlator.SecondPassKeepsAll | backend/app/services/correlator.py:137-167 | a second pass suppresses nothing, sorted or not |
| Grouping.Correlate | backend/app/services/correlator.py:214-290 | the whole run equals its specification, topology and signature errors included |
| Grouping.GroupAlerts | backend/app/services/correlator.py:239-267 | the loop builds the specified groups |
| Grouping.FindMerge | backend/app/services/correlator.py:248-258 | the oldest group that the alert joins by a dependency edge, in time and similar enough, no earlier one joining; none if and only if no group joins |
| Grouping.GroupedFormed | backend/app/services/correlator.py:239-267 | every member of a group has its fingerprint or, when it joined, formed an edge with the group's service, in time of the last member and similar enough |
| Fingerprints.DeployExactly | backend/app/services/correlator.py:82-97 | an alert's deploy is the first one of its service within 900 seconds either way, or none |
| Fingerprints.FingerprintIs | backend/app/services/correlator.py:56-66 | the first sixteen characters of the hash of service, signature, environment and deploy |
| Fingerprints.SameFingerprint | backend/app/services/correlator.py:56-66 | alerts that agree in these four have one fingerprint; one fingerprint means that they agree, fields without bars given, or two texts whose cut hashes collide are exhibited |
| Fingerprints.PlacedExactly | backend/app/services/correlator.py:243-267 | an alert goes to the end of the oldest group whose first service depends on its own or the other way round, with the last member at most 600 seconds away and signatures over 0.7 similar, or else of the group of its fingerprint; nothing else changes |
| Fingerprints.TogetherAlike | backend/app/services/correlator.py:239-267 | two alerts of one group agree in these four, unless one of them came by a dependency edge, in time and similar enough, or a collision is exhibited |
| Fingerprints.AlikeTogether | backend/app/services/correlator.py:239-267 | kept alerts that agree in these four come together, as long as no kept alert is of a service they could merge with |
| Grouping.GroupsPartition | backend/app/services/correlator.py:239-267 | the groups together hold exactly the kept alerts |
| Grouping.ExactlyOneGroup | backend/app/services/correlator.py:239-267 | every kept alert is a member of exactly one group |
| Grouping.IncidentsOrdered | backend/app/services/correlator.py:269-290 | incidents come out in order of detection, each at the time of its first member, and their alert counts add up to the kept alerts |
| Fingerprints.IncidentsReport | backend/app/services/correlator.py:269-290 | each incident tells service, signature, environment and time of its group's first member, the ids of the first hundred in order, their number, and how many suppressed alerts were of a member's kind |
| Ties.KeptDeterminedExactly | backend/app/services/correlator.py:137-167 | the kept alerts and their order are the same for every permutation of the input if and only if of alerts with one timestamp at most one is not suppressed by an alert kept at an earlier time |
| Ties.Deterministic | backend/app/services/correlator.py:214-290 | under that condition every permutation of the input gives the same incidents |
| Grouping.TieChangesIncidents | backend/app/services/correlator.py:214-290 | two alerts of one time whose order decides which one survives, and so the incidents |
| Sessions.WindowShowsLatest | agents/session.py:64-104 | over every life of a session the substantive messages are the last ten accepted, all others are counted, and the marker stands first with the anchor of the oldest |
| Sessions.MessagesExactly | agents/session.py:64-104 | over every life the messages are exactly the accepted ones without the substantive ones before the last ten, behind one marker that takes the place of a leading look-alike |
| Sessions.FirstMessageTells | agents/session.py:91-104 | once something is hidden the first message tells in decimal how many messages are, and the first forty characters of the oldest |
| Sessions.SaysOnce | agents/session.py:97-100 | count and anchor can be read back from a marker in one way only |
| Sessions.AppendExactly | agents/session.py:64-78 | what an append accepts, which error it gives otherwise, and which messages count as substantive |
| Sessions.SessionBelowTotal | agents/session.py:119-133 | no session has made more calls than its incident |
| Sessions.CallKeepsBalance | agents/session.py:52-62 | counting a call on both sides keeps every aggregate equal to the sum over its agents |
| Sessions.BalanceSettles | agents/session.py:203-206 | the sessions determine the aggregates |
| Sessions.SaveLoadsBackExactly | agents/session.py:161-202 | a save loads back into a fresh store, with every session as it was, if and only if every entry is proper |
| Sessions.FailedLoadSpoilsSave | agents/session.py:191-195 | a refused file leaves an entry behind with which the store's own save is refused |
| SessionStores.Session.Append | agents/session.py:64-104 | the in-place append and its compaction loop equal the append on values and end because each turn removes a substantive message; the store stays balanced and its entries proper |
| SessionStores.Session.CompactOldest | agents/session.py:91-104 | one turn of the loop: pop, count, replace or insert the marker |
| SessionStores.Session.RecordCall | agents/session.py:52-62 | all or nothing: it succeeds exactly while the incident has room, both later raises are unreachable, and the store stays balanced, within budget and its entries proper |
| SessionStores.SessionStore.GetOrCreate | agents/session.py:139-149 | the session under this name, made if need be and bound to the store; balances and proper entries are kept |
| SessionStores.SessionStore.SaveJson | agents/session.py:161-171 | every session, in order of creation |
| SessionStores.SessionStore.LoadEntry | agents/session.py:181-202 | one entry of the file, each error at its place with what was written before it |
| SessionStores.SessionStore.Recount | agents/session.py:203-206 | the aggregates are the sums over the sessions again |
| SessionStores.SessionStore.LoadJson | agents/session.py:173-222 | a success re-establishes balance and budget and keeps entries proper; an entry error leaves the entries read so far and the old aggregates; a file over budget leaves balanced books |
| SessionStores.Resume | agents/session.py:161-222 | save and load into a fresh store succeed exactly if every entry is proper, and then restore every session and every aggregate |
| FrozenValues.FreezeIsDeep | backend/app/contracts/incident.py:129-139 | freezing leaves nothing mutable at any depth |
| FrozenValues.NormalizeIsPlain | backend/app/contracts/incident.py:142-150 | normalising leaves plain containers only |
| FrozenValues.NormalizeFrozen | backend/app/contracts/incident.py:129-150 | a frozen value normalises like its original |
| FrozenValues.FreezeNormalized | backend/app/contracts/incident.py:237-239 | a frozen value is rebuilt exactly from its plain rendering, as pickling does |
| FrozenValues.FreezeKeepsDepth | backend/app/contracts/incident.py:129-171 | freezing preserves nesting depth |
| FrozenValues.DepthExactly | backend/app/contracts/incident.py:153-171 | the depth is the greatest number of containers that lie inside each other |
| FrozenValues.NestedDepth | backend/app/contracts/incident.py:153-171 | the iterative two-stack walk finds the structural depth and ends, by the number of nodes on the stack |
| FrozenValues.PyEqSymmetric | backend/app/contracts/incident.py:214-219 | the one-sided comparison of mappings is symmetric, keys being unique |
| FrozenValues.ScalarsEqual | backend/app/contracts/incident.py:214-219 | scalars compare as numbers, true and false being one and zero, or as what they are |
| FrozenValues.ContentEquivalence | backend/app/contracts/incident.py:214-219 | equality of frozen and plain mappings is an equivalence, and a frozen mapping equals its source |
| FrozenValues.SameContentSameDepth | backend/app/contracts/incident.py:153-219 | equal mappings are equally deep, so the depth limit cannot tell them apart |
| LockChecks.NormalizeExactly | scripts/freeze.py:59-60 | normalisation is idempotent, and its fixed points are the names without capitals, underscores, dots and repeated dashes |
| Text.LowerLetters | scripts/freeze.py:60-60 | capitals become small letters, and nothing else changes |
| LockChecks.NormalizeConcat | scripts/freeze.py:59-60 | normalisation works piece by piece, as long as no run of separators is torn |
| LockChecks.NormalizePieces | scripts/freeze.py:59-60 | a run of separators becomes one dash, any other character its small letter |
| LockChecks.NumericExactly | scripts/freeze.py:113-116 | a text reads as a version exactly if it is decimal numbers with dots between them, and then as these numbers |
| LockChecks.VersionText | scripts/freeze.py:113-116 | every version can be written down, its numbers in decimal, and reads back |
| LockChecks.CutComparesExactly | scripts/freeze.py:127-133 | comparing a version cut to the length of the bound is comparing in the zero-padded order of any length |
| LockChecks.BeforeTransitive | scripts/freeze.py:113-133 | that order is transitive |
| LockChecks.BeforeIrreflexive | scripts/freeze.py:113-133 | and asymmetric |
| LockChecks.BeforeTotal | scripts/freeze.py:113-133 | and total up to trailing zeros |
| LockChecks.VersionSatisfies | scripts/freeze.py:119-136 | accepts exactly the versions for which every clause, read off its text, holds in that order; otherwise the first clause that does not hold decides: rejected if it asks for something, an error if it is not understood or the version is not numbers |
| LockChecks.OneBound | scripts/freeze.py:126-133 | `>=` and a version accept exactly what is not before that version, `<` and a version exactly what is |
| LockChecks.JoinedClauses | scripts/freeze.py:119-136 | clauses joined by commas accept exactly what each of them accepts |
| LockChecks.RangesAreConvex | scripts/freeze.py:119-136 | a range accepts everything between two versions that it accepts |
| LockChecks.PinExactly | scripts/freeze.py:54-54 | the scan for a pin accepts exactly the lines of the pin pattern, with that name and version |
| LockChecks.SignificantOne | scripts/freeze.py:88-91 | a line counts, stripped, exactly if it is neither blank nor a comment |
| LockChecks.SignificantConcat | scripts/freeze.py:85-93 | the lines that count keep their order |
| LockChecks.RequirementExactly | scripts/freeze.py:63-82 | a line comes apart into piece, marker, bare text, comment, name, extras and range in one way, and is read as its normalised name and its stripped range, or as an error exactly without a name |
| LockChecks.ParseLock | scripts/freeze.py:96-110 | succeeds exactly when every line that counts is a pin and no two name one package, and returns exactly those pins |
| LockChecks.ParseRequirements | scripts/freeze.py:85-93 | one name and range per line that counts, in order, or an error exactly when one cannot be parsed |
| LockChecks.CheckLock | scripts/freeze.py:139-155 | no finding if and only if the lock pins distinct packages exactly and covers every requirement within its range; otherwise one explained finding per uncovered requirement, in order |

## Left out

- HTTP routing, status codes, JWT bearer tokens, settings, logging, database, webhooks and the UI beyond the stream cursor.
- LLM and agent prompts, telemetry, evaluation rubrics, and the FSM, policy, sandbox and orchestrator modules; a permit is the record that minting returns.
- Field bounds of the event, alert, incident and action contracts: an event's own validation is an arbitrary predicate, a request's a flag.
- Audit events that the approval routes emit, evidence ids, proposals and the token pickup route.
- ApprovalProtocol.AtMostOnce: holds while no append of a burn failed and the log was readable at every restart, the case the store flags as degraded; NonceStores.FailedAppendExactly says what a failed append costs.
- ApprovalProtocol.EventKeeps: the idempotency cache is not part of the concurrent machine, because it only answers calls without burning; corrupted queue files, which stop the process, are not modelled. A save that fails because the table grows meanwhile is a handler that stops before its save ends.
- ApprovalRaces.RunMovesExactly: crashes and late loads, which take an approved entry back to what the disk says, are events of the machine that this theorem leaves out.
- ApprovalEyes.RunEyesExactly: approval ids are taken to be drawn new, as their random text makes them.
- Fingerprints.PlacedExactly: takes no fingerprint to be the empty text, which a hash in hex never is; the model itself follows the code there too.
- Grouping.TieChangesIncidents: when ties are not harmless what is kept depends on the order (`Ties.KeptDeterminedExactly`); the incidents may still agree, because they store at most 100 ids, and no exact condition is given for them.
- Approvals.ApprovalDesk.Sweep: returns the set of expired ids; the insertion order of the request dictionary is not modelled.
- Approvals.ApprovalDesk.Approve: the resume is not part of the step; ApprovalLifecycle.ResumeMintsExactly takes it as a mint of its own right afterwards.
- KeyStores.ResolveIdentity: the comparison of keys is equality; its error on non-ASCII text and its timing are not modelled.
- KeyStores.LoadKeyStore: of the digits that number parsing accepts only the ASCII ones are modelled.
- LiveStream.ExactlyAfterCursor: one emitter per chain; several unsynchronised emitters can publish out of order. Keepalive frames, timeouts and the connection deadline change no cursor and are left out.
- StreamClient.Subscriber.PollOnce: timers, backoff, mode and state callbacks and the guard before a request is sent are left out, and handlers are taken not to throw.
- AuditChains.SaveThenLoad: the serialiser is any pair of functions that reads back what it wrote; failing disk writes on saving a chain, and the queries by action, approval, execution and evidence, are left out.
- Grouping.Correlate: severity, metrics, fresh incident ids and the normalisation of raw alerts are left out; the sum of suppressed duplicates over incidents is not claimed to be the total, because one key can feed several groups. Times and similarities are exact numbers instead of floats.
- SessionStores.SessionStore.LoadJson: values of the wrong JSON type in the file and an unreadable file are left out; sessions kept by a caller across a reset of the store are not claimed to stay balanced.
- FrozenValues.ContentEquivalence: scalars are null, booleans, exact numbers and text; NaN, which differs from itself, and exotic objects are left out.
- LockChecks.CheckLock: works on the lines of both files; letters, digits and blanks are ASCII. Generating and auditing the lock are left out.
- Stripping and blank tests know the ASCII whitespace characters only.
