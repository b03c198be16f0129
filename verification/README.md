# Verified model of the permission engine's durable core

Dafny 4.11 models of Seepient's permission engine and of the exact algorithms under it, with machine-checked
proofs. `dafny verify dfyconfig.toml` checks everything. Each module is a model of its own; a module's header says
which source file it follows.

| module | what it models |
|---|---|
| `PolicyMerge`, `GrantProtocol`, `GrantRuns`, `GrantRecovery` | persistent approvals: the capability merge, the write-ahead protocol as a state machine with crashes, concurrent writers, outbox flushes and recoveries at any point, its properties over whole runs, and the reconciliation loop |
| `ActionWorld`, `ActionLifecycle` | one action through its lifecycle, with other lifecycles stepping before every awaited call |
| `Fips180`, `Sha256` | the one-shot definition of FIPS 180-4 (sections 4.1.2, 5.1.1, 5.2.1, 6.2.2) and the buffered hash that refines it |
| `Disk`, `FileCommit` | a file system that other processes change between any two system calls, and the exact commit on it |
| `JsonText`, `CanonicalJson`, `DispatchText` | JSON printing, the canonical printer behind action digests, and the sort-then-print form behind dispatch signatures |
| `Redirects`, `EffectBroker` | the redirect loop against any server, resolver and URL parser, and the broker around it |
| `ReplayLedger` | the lock/reload/append protocol of many processes over one file |
| `JsonRepair`, `AgentLoop` | the repair of raw control characters, and the agent loop's bookkeeping |
| `Optional`, `Ascii` | a value that may be missing; lower-casing |
| `HtmlScan`, `RateLimit`, `ControlPlane`, `WorkerScheduler`, `JsonPointer`, `ModelOrder`, `Skills` | the smaller cores |

Code that updates things in place is a class with methods or a method with loops, proved against a specification
function or an independent statement; interference is a method (`Others`) or a step relation that may do anything
the other parties can do. Foreign behaviour (policy evaluation, `covers`, server replies, DNS, URL parsing, model
answers, tool results, clocks, failures) is an arbitrary function or an arbitrary choice.

## Where the code and its documentation differ

The models follow the code.

- `run` is documented never to throw (src/domain/permissions/action-lifecycle.ts:137-141). It throws when the audit
  append of `prepared`, `awaiting-approval` or most `denied` records fails, when the ledger throws, and when the
  terminal append fails without a working outbox; `ActionLifecycle.Lifecycle.Run` states exactly when, through
  `FateOf` and `Throws`, for every decision of the policy and every answer of the broker and the ledger.
- The comment at src/domain/permissions/action-lifecycle.ts:536-539 speaks of a last-resort revert of an installed
  grant. There is none. `ActionLifecycle.Lifecycle.Run` says exactly which runs that execute nothing leave a grant
  installed (`LeavesGrant`): one whose write lost its reply, and one that is stopped after the write
  (`ActionLifecycle.Lifecycle.DeniedAfterInstall`). Of the protocol,
  `GrantRuns.DeniedButInstalledExactly` is the first case over every trace and `GrantRuns.DeniedButInstalled` such a run.
- A merge for an approver whose id is the empty string writes empty-stamped capabilities twice
  (`PolicyMerge.MergeConserves`).
- With an injected secret a GET or HEAD that has a body keeps it over a 301 or 302 to another host
  (`Redirects.BodyEscapesExactly`).
- `deepSort` reorders integer-like keys, which keeps the dispatch text canonical (`DispatchText.PrintersDisagree`,
  `DispatchText.PrintersAgree`), and loses `__proto__`, which does not: `DispatchText.DispatchTextCanonical` has the
  exact condition, `DispatchText.ProtoFieldIsLost` the failing inputs.
- The default model depends on catalogue order when the locale's comparison cannot tell two best ids apart
  (`ModelOrder.OrderDoesNotMatterExactly`).
- The scheduler reports a failed launch as retryable, but the same dispatch id is refused as a replay ever after
  (`WorkerScheduler.NeverRetried`); `WorkerScheduler.RepeatedExactly` says exactly which repeated ids are.
- The replay ledger consumes an id at most once exactly when the file it starts from is empty or ends in a whole line
  (`ReplayLedger.OnceFromExactly`); an append that fails half-way without killing its process leaves one that does
  not (`ReplayLedger.PartialAppendTears`, `ReplayLedger.TornTailReplays`).
- In the control plane a policy read of an id with a ':' may show another key's snapshot
  (`ControlPlane.ColonReadsExactly`), and a compare-and-set at the version just read conflicts on a seeded workspace
  and on such an id (`ControlPlane.ReadThenWrite`, `ControlPlane.ReadAndWrite`).

## Assumptions

- Audit appends are idempotent by key and a failed append did not land; an enqueue is durable once it returns.
- An action id and a mutation id are drawn for one action (they are random in the source). A dispatch id has one
  nonce, which is not empty, as the boundary arranges.
- The temp name of a commit is unpredictable: it is not the destination's name and others leave it alone. Inode
  numbers are not reused while the helper runs.
- The digest that a single-use envelope claims is the envelope's own, which the policy engine copies from the action.
- Inputs that reach SHA-256 are under 2^61 bytes where a digest is claimed.
- A collation is a total preorder on strings. Token-bound principals are slugs without ':', and the
  control plane's seeded workspaces have no ':' in their ids.

## Model

| member | source | states |
|---|---|---|
| `PolicyMerge.Merge` | src/domain/permissions/action-lifecycle.ts:609-657 | The merge as it runs (three filters, a pushing loop) is exactly `Merged`: other principals' capabilities, kept unstamped ones, the approver's own, then the candidates not covered yet. |
| `PolicyMerge.MergeCount` | src/domain/permissions/action-lifecycle.ts:612-657 | How often any capability stands in the merged policy: its copies in each group it falls into, plus those added. |
| `PolicyMerge.MergeConserves` | src/domain/permissions/action-lifecycle.ts:612-657 | One merge conserves every capability (written + dropped = read + added) if and only if the approver's id is not empty or nothing stored carries an empty stamp; otherwise an empty-stamped capability is written twice. |
| `PolicyMerge.CandidatesCovered` | src/domain/permissions/action-lifecycle.ts:626-645 | Every candidate of the dedup pass ends in the approver's part or is covered by it. |
| `PolicyMerge.MergedCovers` | src/domain/permissions/action-lifecycle.ts:626-657 | Every approved (and baseline) capability stands in the policy that is written, or is covered by it. |
| `GrantProtocol.StepKeeps` | src/domain/permissions/action-lifecycle.ts:541-694 | Every enabled step of the persistent-grant protocol (runs, crashes, administrators, flushes, recoveries) keeps the invariant, and histories, intents, committed records and drawn ids only grow. |
| `GrantProtocol.VerdictExact` | src/domain/permissions/action-lifecycle-factory.ts:678-687 | The reconciler's verdict is exact: a version is proven if and only if the intent's mutation is in the store's history, and then it is that entry's version. |
| `GrantProtocol.SeenEntryProven` | src/domain/permissions/action-lifecycle-factory.ts:675-687 | A mutation a recovery saw in a history is still proven when its intent is handled, whatever was written in between. |
| `GrantProtocol.NewIdHasNotRun` | src/domain/permissions/action-lifecycle.ts:584-588 | A freshly drawn mutation id is in no history. |
| `GrantProtocol.RunKeptOverWrite` | src/domain/permissions/policy-store.ts:316-327 | A store write makes every other run's snapshot stale and leaves its intent, pending state and installed entry in order. |
| `GrantProtocol.EnqueueKeeps` | src/domain/permissions/action-lifecycle.ts:1080-1117 | Putting the intent in the outbox keeps the invariant, also when the enqueue is durable but its reply is lost. |
| `GrantProtocol.InstallKeeps` | src/domain/permissions/policy-store.ts:309-384 | A compare-and-set that installs, reply lost or not, keeps the invariant: its entry is owned by one action, is later than its before-version, and has a durable intent. |
| `GrantProtocol.AdminKeeps` | src/domain/permissions/policy-store.ts:330-384 | An administrative write, which clears the latest marker, keeps the invariant because the history stays. |
| `GrantProtocol.ListingOk` | src/domain/permissions/action-lifecycle-factory.ts:571-591 | A recovery that lists when the audit holds the intent of every installed mutation has every mutation it can see either granted or on its list. |
| `GrantProtocol.FlushedListsAll` | src/domain/permissions/action-lifecycle-factory.ts:571-591 | That is so once the flush left nothing in the outbox but intents of runs that have installed nothing. |
| `GrantProtocol.ReconcileKeeps` | src/domain/permissions/action-lifecycle-factory.ts:663-717 | Handling one intent, with the read or the append failing or not, keeps the invariant. |
| `GrantRuns.TraceGrows` | src/domain/permissions/action-lifecycle.ts:588-694 | Over any stretch of any run nothing durable is lost. |
| `GrantRuns.IntentBeforeInstall` | src/domain/permissions/action-lifecycle.ts:588-669 | Every mutation in a store's history was preceded by a state in which its intent was durable and it was not yet installed. |
| `GrantRuns.GrantedOnlyIfRan` | src/domain/permissions/action-lifecycle.ts:670-687 | A `policy-granted` record, whichever path wrote it, names the action's own workspace, before-version and mutation, and the version the history records for it. |
| `GrantRuns.RecoveryComplete` | src/domain/permissions/action-lifecycle-factory.ts:649-718 | After a recovery whose listing had the intent of every mutation the stores then held, and which had no failure, each of those mutations has its committed record with its own version. |
| `GrantRuns.RecoveryExact` | src/domain/permissions/action-lifecycle-factory.ts:649-718 | At the end of a recovery without failures, if no mutation was installed since its listing (administrators may have written meanwhile): an action has a committed record with a version if and only if its mutation is in the history with that version, and every mutation is settled. |
| `GrantRuns.SecondRecoveryChangesNothing` | src/domain/permissions/action-lifecycle-factory.ts:571-591 | Once every mutation has its record, any further reloads, flushes, listings, reconciling and administrative writes, in any order and with any failures, change no record, no run and no history, and leave everything settled. |
| `GrantRuns.RecoveryWritesNoStore` | src/domain/permissions/action-lifecycle-factory.ts:571-718 | Reloads, flushes, listings and reconciling leave the stores as a whole as they are. |
| `GrantRuns.StepMerges` | src/domain/permissions/action-lifecycle.ts:601-669 | Every step that is not administrative leaves a workspace as it is or installs the merge of exactly the version it replaces, one version up. |
| `GrantRuns.InstalledExactly` | src/domain/permissions/action-lifecycle.ts:601-669 | In every run of the protocol, however the action ends: its mutation is in its workspace's history if and only if an earlier compare-and-set of it met a version that still matched, reply lost or not. |
| `GrantRuns.DeniedButInstalledExactly` | src/domain/permissions/action-lifecycle.ts:588-709 | In every run of the protocol: an action that the persistent approval itself refused has its mutation in its workspace's history if and only if an earlier compare-and-set of it met a version that still matched and lost its reply. Denials that come later in a run are `ActionLifecycle.Lifecycle.Run`'s. |
| `GrantRuns.DeniedButInstalled` | src/domain/permissions/action-lifecycle.ts:601-709 | Such a run exists for every workspace, principal and capability: the action ends refused with the capability in the stored policy under its stamp, or covered. |
| `GrantProtocol.Missing` | src/domain/permissions/action-lifecycle.ts:555-562 | A requested capability that is not missing is covered by one the approver's principal already has stored; nothing else is called missing. |
| `GrantRuns.InstallGrants` | src/domain/permissions/action-lifecycle.ts:601-669 | An installed approval leaves every missing capability, and for a project every baseline one, in the workspace under its stamp or covered. |
| `GrantRuns.MergeMoves` | src/domain/permissions/action-lifecycle.ts:612-657 | One merge never lowers a capability's count unless it drops it, and keeps the exact count of each unstamped one. |
| `GrantRuns.ApprovalsConserve` | src/domain/permissions/action-lifecycle.ts:601-694 | Over any interleaving of approvals by any principals: stamped capabilities never lose a copy, unstamped ones keep their count, and only unstamped universal roots go, and only with a multi-tenant run on the workspace. |
| `GrantRecovery.AuditLog.Reconcile` | src/domain/permissions/action-lifecycle-factory.ts:649-718 | The reconciliation loop appends exactly what `Reconciled` says, read and append failures swallowed. |
| `GrantRecovery.ReconciledExactly` | src/domain/permissions/action-lifecycle-factory.ts:654-717 | The loop adds a record for an action if and only if one of its intents is proven and appended, and the record is the first such verdict. |
| `GrantRecovery.ReconciledOnce` | src/domain/permissions/action-lifecycle-factory.ts:654-717 | Reconciling the same listing against the same stores a second time changes nothing, whichever appends fail the second time, if none failed for a proven intent the first. |
| `GrantRecovery.ReconciledAgainExactly` | src/domain/permissions/action-lifecycle-factory.ts:654-717 | Reconciling a listing, with any reads and append failures, changes nothing if and only if every action it would commit has its record already. |
| `GrantRecovery.VerdictIsProof` | src/domain/permissions/action-lifecycle-factory.ts:664-707 | For a complete intent the loop's verdict is the one the protocol's recovery step uses. |
| `ActionWorld.World.Execute` | src/domain/permissions/action-lifecycle.ts:880-912 | The boundary may be called only behind a durable `dispatched` of the action, once, and under a single-use envelope only by the action that won the claim; other lifecycles step before the call. |
| `ActionWorld.World.Others` | src/domain/permissions/action-lifecycle.ts:183-963 | Any number of steps of other lifecycles leave this action's records, outbox entries, claims and executions alone and keep the world in order. |
| `ActionWorld.World.Consume` | src/domain/permissions/persisted-capability-ledger.ts:201-252 | A digest is won once per principal; a consume that gives up on its lock wins nothing and consumes nothing. |
| `ActionWorld.DigestExecutesOnce` | src/domain/permissions/action-lifecycle.ts:805-848 | Over all runs that share a ledger: two executions under single-use envelopes never have the same principal and digest. |
| `ActionLifecycle.Lifecycle.Run` | src/domain/permissions/action-lifecycle.ts:183-963 | The whole run: boundary at most once and behind `dispatched`; the trail a path closed by one denial or one terminal stage (in the outbox if its append failed); nothing executed once revoked; active authority grown only by one valid approval's option; what ran is what the policy allowed. It throws, refuses or dispatches if and only if its fate says so, for every decision of the policy, in terms of what the ledger answered. A run that executes nothing leaves a new persistent grant behind if and only if its approval's write landed and lost its reply, or was installed and the run was then denied, gated, thrown out or refused its `dispatched`. |
| `ActionLifecycle.Lifecycle.FailsClosed` | src/domain/permissions/action-lifecycle.ts:183-880 | A run that dispatches under an approval chose an offered option in time; a session was bound and not revoked; a persistent grant was recorded, intended and installed or there already; a single-use claim was won; a run or session envelope was neither revoked nor expired. |
| `ActionLifecycle.Lifecycle.LostWriteExecutesNothing` | src/domain/permissions/action-lifecycle.ts:694-716 | A write that landed and lost its reply ends the run in a denial that cannot throw. |
| `ActionLifecycle.Lifecycle.DeniedAfterInstall` | src/domain/permissions/action-lifecycle.ts:742-797 | A re-evaluation that denies after an install ends the run denied with its grant in the store. |
| `ActionLifecycle.Lifecycle.Select` | src/domain/permissions/action-lifecycle.ts:232-433 | A selection is made exactly of an approved answer for this very action and request, in time, with an offered option, lifetime and choice, and not the global lifetime in multi mode; and exactly when a rejected answer makes the run throw. |
| `ActionLifecycle.Lifecycle.Resolve` | src/domain/permissions/action-lifecycle.ts:437-509 | A run goes on if and only if its lifetime holds: a session bound and not revoked, a persistent grant durable; `approved` is recorded for the two persistent lifetimes only. |
| `ActionLifecycle.Lifecycle.Persist` | src/domain/permissions/action-lifecycle.ts:506-716 | A persistent approval goes on if and only if store, outbox and workspace are there, `approved` was recorded, and the grant was there already or was installed after a durable intent; else it is one denial, which throws only when nothing could be attempted and its record is refused. |
| `ActionLifecycle.Lifecycle.Approve` | src/domain/permissions/action-lifecycle.ts:229-773 | One broker round and one re-evaluation, decided if and only if the answer is accepted and its lifetime holds; authority changes only on a decided round, by the selected option, and not at all for an action lifetime. |
| `ActionLifecycle.Lifecycle.Reevaluate` | src/domain/permissions/action-lifecycle.ts:718-772 | The one re-evaluation sees the selected capabilities; only a lifetime beyond the action commits them. |
| `ActionLifecycle.WidenedCovers` | src/domain/permissions/action-lifecycle.ts:729-741 | The principal of the re-evaluation keeps all it had and lacks no approved capability. |
| `ActionLifecycle.NarrowedIsExact` | src/domain/permissions/action-lifecycle.ts:748-760 | The final envelope holds every capability of the option, and of the required ones exactly those the option does not cover. |
| `ActionLifecycle.Lifecycle.Gate` | src/domain/permissions/action-lifecycle.ts:798-878 | A run goes on under a single-use envelope only with the claim won, under a run or session envelope only unrevoked and unexpired; a replayed digest is refused as expired; and exactly when the gate throws. |
| `ActionLifecycle.Lifecycle.Dispatch` | src/domain/permissions/action-lifecycle.ts:880-962 | Without an accepted `dispatched` the run is denied; with it the boundary is called once and the terminal record is kept or the run throws, by an exact condition. |
| `ActionLifecycle.Lifecycle.RecordTerminal` | src/domain/permissions/action-lifecycle.ts:1044-1070 | A refused terminal append goes to the outbox, or throws if there is none or it fails. |
| `ActionLifecycle.Lifecycle.Act` | src/domain/permissions/action-lifecycle.ts:776-962 | A final decision other than allow is one terminal denial; an allowed one passes the gate and dispatches, or ends as the gate says; and exactly when the run throws, ledger or not. |
| `ActionLifecycle.Lifecycle.RevokeActive` | src/domain/permissions/action-lifecycle.ts:986-994 | After a revocation no active capability is covered by a revoked one, and nothing else was removed. |
| `Sha256.Hasher.Update` | native/fs-commit/src/sha256.rs:35-59 | Appends the input to the message hashed so far, however it is split, and keeps the buffer below a block. |
| `Sha256.Hasher.Finish` | native/fs-commit/src/sha256.rs:61-77 | For every message under 2^61 bytes the result is the digest of FIPS 180-4; the padding loop ends. |
| `Sha256.HashChunks` | native/fs-commit/src/sha256.rs:35-77 | Any way of cutting a message into updates gives the standard's digest of the whole. |
| `Sha256.Hasher.CompressBlock` | native/fs-commit/src/sha256.rs:79-126 | Folding one block takes the state from the hash of the blocks before it to the hash with it. |
| `Sha256.Hasher.Expand` | native/fs-commit/src/sha256.rs:80-96 | The 64 words are the message schedule of section 6.2.2. |
| `Sha256.Hasher.RunRounds` | native/fs-commit/src/sha256.rs:97-117 | The 64 rounds over local words are the standard's working variables after all rounds. |
| `Sha256.BlockAppended` | native/fs-commit/src/sha256.rs:79-126 | Hashing whole blocks extends by one compression. |
| `Sha256.BufferLenIs` | native/fs-commit/src/sha256.rs:64-66 | The padding loop's exit test holds exactly when the standard's number of zero bytes has been appended. |
| `Sha256.BitLength` | native/fs-commit/src/sha256.rs:62 | The wrapping bit count is the true one below 2^61 bytes. |
| `Sha256.Hex` | native/fs-commit/src/sha256.rs:129-135 | Two lower-case digits a byte. |
| `Sha256.HexIsInjective` | native/fs-commit/src/sha256.rs:129-135 | Equal hex texts come from equal bytes, so comparing texts compares digests. |
| `Fips180.PaddingIsMinimal` | native/fs-commit/src/sha256.rs:62-70 | The reference padding is the least one with 448 mod 512 bits, as section 5.1.1 words it. |
| `Fips180.BigEndianValue` | native/fs-commit/src/sha256.rs:69 | The reference length field is the number it spells. |
| `FileCommit.Commit` | native/fs-commit/src/commit.rs:161-283 | With other processes stepping between any two calls: the destination name is bound by the helper at most once, to an inode holding exactly the content; a refusal binds nothing and leaves no temp entry unless its unlink failed; the parent was reached through real directories; the reported hash is the content's; with an expected hash, a file read under the name had that hash, and `snapshot-changed` is given exactly when the bytes read do not. |
| `FileCommit.OpenParent` | native/fs-commit/src/commit.rs:112-155 | Every descriptor on the way was opened by the next name under the one before, and is a directory; `..` is refused. |
| `FileCommit.ReadAll` | native/fs-commit/src/commit.rs:318-331 | What is returned is what a gapless sequence of reads of one inode, from start to end, delivered. |
| `FileCommit.UndisturbedRead` | native/fs-commit/src/commit.rs:318-331 | When nobody changed the file meanwhile, the bytes are the file. |
| `FileCommit.CheckSnapshot` | native/fs-commit/src/commit.rs:193-209 | The refusal follows from the bytes read: changed if and only if their hash differs; absent and unreadable files are refused. |
| `FileCommit.WriteAll` | native/fs-commit/src/commit.rs:234-247 | Short writes of any length end with exactly the content in the private file, or with a failure. |
| `FileCommit.Fill` | native/fs-commit/src/commit.rs:229-266 | A private file that passes revalidation holds exactly the content. |
| `FileCommit.Settle` | native/fs-commit/src/commit.rs:229-277 | The rename binds the destination to the private inode with exactly the content, or nothing is changed. |
| `FileCommit.Replace` | native/fs-commit/src/commit.rs:211-283 | From the exclusive create on, everything the helper changed is accounted for by the outcome. |
| `Disk.FileSystem.Rename` | native/fs-commit/src/commit.rs:268-274 | The rename replaces the name itself in the one directory; a link standing there is not followed. |
| `JsonText.PrintInjective` | src/foundations/action-digest.ts:10-17 | Different well-formed values have different texts. |
| `JsonText.ReadQuoted` | src/foundations/action-digest.ts:11 | A printed string reads back as itself, whatever follows it. |
| `CanonicalJson.StableJsonCanonical` | src/foundations/action-digest.ts:10-17 | Two values have the same `stableJson` text if and only if they are equal up to the order of object keys. |
| `CanonicalJson.StableIsCanonPrint` | src/foundations/action-digest.ts:10-17 | `stableJson` is the plain printer on the value with its fields sorted. |
| `CanonicalJson.SameHasSameCanon` | src/foundations/action-digest.ts:13-16 | Values equal up to key order have one canonical form. |
| `CanonicalJson.SameCanonIsSame` | src/foundations/action-digest.ts:13-16 | And only those. |
| `DispatchText.PrintersAgree` | src/capabilities/execution/worker-execution-boundary.ts:207-221 | `canonicalDispatch` prints the `stableJson` text if and only if the engine's own-key order keeps the sorted keys of every object. |
| `DispatchText.OrdinaryKeepsOrder` | src/capabilities/execution/worker-execution-boundary.ts:213-221 | Keys that are no array index and not `__proto__` keep that order. |
| `DispatchText.DispatchTextCanonical` | src/capabilities/execution/worker-execution-boundary.ts:207-211 | For all well-formed dispatches, whatever their keys: the texts are the same if and only if the dispatches are equal up to key order once the signature and every `__proto__` field, at any depth, are removed. |
| `DispatchText.SortedTextExactly` | src/capabilities/execution/worker-execution-boundary.ts:213-221 | Sort-then-print gives two values one text if and only if they are equal up to key order once every `__proto__` field is removed. |
| `DispatchText.PrintersDisagree` | src/capabilities/execution/worker-execution-boundary.ts:213-221 | A value with index keys for which the two printers differ. |
| `DispatchText.ProtoFieldIsLost` | src/capabilities/execution/worker-execution-boundary.ts:216-219 | Every value has the text it would have without its `__proto__` fields, which differs from the value exactly when it has one: the printer cannot tell them apart. |
| `EffectBroker.SendAll` | src/capabilities/execution/effect-broker.ts:653-803 | The redirect loop sends exactly the requests of `Sent` and ends with its outcome. |
| `Redirects.SentSafe` | src/capabilities/execution/effect-broker.ts:550-803 | For every server: at most six requests, the first the one asked for over HTTP, each to an authorised host off the denied list with validated addresses, clean headers, and only allow-listed headers off the original host. |
| `Redirects.FollowSafe` | src/capabilities/execution/effect-broker.ts:666-767 | The same from any hop on, with the body discipline of chains that began with a bodied method. |
| `Redirects.FollowChains` | src/capabilities/execution/effect-broker.ts:688-767 | Each request follows from the reply before it by section 6.4 of RFC 7231, to the parsed location with freshly resolved addresses. |
| `Redirects.SuccessIsLast` | src/capabilities/execution/effect-broker.ts:769-787 | A success reports the last reply: no redirect that could be followed, within the cap, from a validated address. |
| `Redirects.BodyStays` | src/capabilities/execution/effect-broker.ts:708-758 | With an injected secret and a method other than GET and HEAD no body reaches another host. |
| `Redirects.BodyEscapesExactly` | src/capabilities/execution/effect-broker.ts:708-759 | With an injected secret some server can make the body reach another host if and only if the method is GET or HEAD, there is a body, and the envelope lets another host out. |
| `Redirects.HeadersKept` | src/capabilities/execution/effect-broker.ts:708-767 | No hop makes up a header or changes one: an `authorization` that is sent on is the first request's. |
| `Redirects.SecretReachesExactly` | src/capabilities/execution/effect-broker.ts:550-767 | For any destination: some server can make the injected secret go there if and only if it has the request's host and the envelope lets both out. Neither scheme nor port matters, so a capability for plain http or another port of that host lets the secret go there. |
| `EffectBroker.CleanHeaders` | src/capabilities/execution/effect-broker.ts:586-592 | No forbidden header of the request goes out. |
| `EffectBroker.Inject` | src/capabilities/execution/effect-broker.ts:601-651 | Only `authorization` changes, only to a resolved secret; a missing required secret stops the request, exactly then. |
| `EffectBroker.Broker.Execute` | src/capabilities/execution/effect-broker.ts:230-260 | Nothing is sent on a used request id, an expired or foreign lease, or another action's digest; a request id is used up by any attempt. |
| `ReplayLedger.StepKeeps` | src/capabilities/execution/persisted-replay-ledger.ts:84-120 | Every step but a half-way append that its process survives keeps the lock protocol's invariant, from any file whatever earlier deaths left in it. |
| `ReplayLedger.ConsumedAtMostOnce` | src/capabilities/execution/persisted-replay-ledger.ts:84-120 | In every run of any number of processes, with deaths anywhere, that starts from a file that is empty or ends in a whole line: `consume` is true at most once per request id. |
| `ReplayLedger.NothingAfterDeath` | src/capabilities/execution/persisted-replay-ledger.ts:84-98 | After a death that holds the lock every later `consume` is false. |
| `ReplayLedger.OnceFromExactly` | src/capabilities/execution/persisted-replay-ledger.ts:84-120 | From a given file, with no process at work and no lock: every run without a half-way append its process survives consumes each id at most once if and only if the file is empty or ends in a whole line. |
| `ReplayLedger.TornTailReplays` | src/capabilities/execution/persisted-replay-ledger.ts:60-120 | From any file that ends in a torn piece, two undisturbed attempts for any id not yet in it both win. |
| `ReplayLedger.PartialAppendTears` | src/capabilities/execution/persisted-replay-ledger.ts:103-117 | A half-way append leaves such a file, so a process that survives one makes the next id replayable. |
| `JsonRepair.Sanitize` | src/domain/agent-loop.ts:166-204 | The two-flag loop is the automaton `Sanitized`. |
| `JsonRepair.TreeTurns` | src/domain/agent-loop.ts:166-204 | On every JSON text whose strings may hold raw LF, CR and tab the repair spells the strict text of the same value. |
| `JsonRepair.FixIsStrict` | src/domain/agent-loop.ts:161-165 | That strict tree is valid, means the same, and is the input when that was valid. |
| `JsonRepair.ValidUnchanged` | src/domain/agent-loop.ts:166-204 | Text valid under RFC 8259 is left unchanged. |
| `JsonRepair.Idempotent` | src/domain/agent-loop.ts:166-204 | Repairing twice is repairing once, on any text. |
| `JsonRepair.UnchangedExactly` | src/domain/agent-loop.ts:187-200 | A text is unchanged if and only if no LF, CR or tab stands unescaped in a string. |
| `JsonRepair.SanitizedSettles` | src/domain/agent-loop.ts:187-200 | The output has none left. |
| `JsonRepair.StructureKept` | src/domain/agent-loop.ts:171-203 | What stands outside strings, and where strings begin and end, is the input's. |
| `AgentLoop.Conversation.Run` | src/domain/agent-loop.ts:549-994 | Messages, tool calls, totals and tool steps are those of the rounds, and `max_steps` is the reason if and only if the last allowed round completed its tool calls. |
| `AgentLoop.Conversation.OneRound` | src/domain/agent-loop.ts:550-961 | One round adds exactly its messages, calls, tokens and steps, by how it ended. |
| `AgentLoop.Conversation.RunTools` | src/domain/agent-loop.ts:739-939 | One tool message and one step per call, in order, until an abort between two calls. |
| `AgentLoop.BlocksFollow` | src/domain/agent-loop.ts:727-939 | Each assistant message with tool calls is followed directly by its tool messages, same ids, same order; every block is whole if and only if the run was not cut short between two calls. |
| `HtmlScan.StructureToText` | src/capabilities/execution/executors.ts:516-559 | The scan ends, writes no '<', writes no more than it reads, and all its searches together examine at most 16 characters per character. |
| `HtmlScan.IndexOf` | src/capabilities/execution/executors.ts:521-552 | A search returns the first match and examines no more than the stretch it passes over. |
| `HtmlScan.Skip` | src/capabilities/execution/executors.ts:534-556 | Handling one tag, with its skipped block, examines a bounded number of characters per character passed. |
| `HtmlScan.NoTagsUnchanged` | src/capabilities/execution/executors.ts:521-525 | Text without '<' is left as it is. |
| `HtmlScan.TagLeaves` | src/capabilities/execution/executors.ts:534-556 | Any other tag leaves one character: a newline for a break or the end of a block, else a space. |
| `HtmlScan.CommentDropped` | src/capabilities/execution/executors.ts:527-531 | A comment leaves nothing behind, whatever is in it. |
| `HtmlScan.BlockDropped` | src/capabilities/execution/executors.ts:534-556 | Wherever a skipped block stands at the front of a text, whichever of the skipped tags it is and with any attributes, the text left is that of what follows its closing tag. |
| `HtmlScan.BlockSpelled` | src/capabilities/execution/executors.ts:546-554 | A skipped tag with any attributes, any code without its closing tag, and that tag make such a block. |
| `HtmlScan.UnclosedDropped` | src/capabilities/execution/executors.ts:546-554 | A skipped tag that is never closed drops the rest of the text. |
| `ControlPlane.Server.Handle` | examples/worker/src/stub-app.ts:279-531 | Each principal's part of the flat tables stays what its private store would hold, and the answer is `Answer`: that store's, except for a policy read of an id that is spelled like somebody's composite key. |
| `ControlPlane.Serve` | examples/worker/src/stub-app.ts:279-531 | A server given any history of slug principals' requests: each principal whose policy reads name no id with a ':' gets exactly the replies of a store that saw only its own requests; a digest is won once per principal; under every composite key stands a snapshot stamped with its principal whose version is the number of its accepted writes. |
| `ControlPlane.ColonReadsExactly` | examples/worker/src/stub-app.ts:294-336 | After any history, a policy read is answered otherwise than by the private store if and only if the id is no workspace of the reader's and is `<workspace>:<owner>` for a slug owner with a snapshot there; it then shows that snapshot's version and history, and its capabilities to the owner only. |
| `ControlPlane.ReadAndWrite` | examples/worker/src/stub-app.ts:294-353 | Of the tables: reading a version and writing at it conflicts if and only if there is nothing under the composite key and a version other than zero under the bare id. |
| `ControlPlane.ScopedOwner` | examples/worker/src/stub-app.ts:405-408 | A `principal:id` key belongs to one principal, whatever the id. |
| `ControlPlane.PolicyKeyOwner` | examples/worker/src/stub-app.ts:341 | A `workspace:principal` key belongs to one workspace and principal, even with ':' in the workspace id. |
| `ControlPlane.MinePut` | examples/worker/src/stub-app.ts:460-465 | Setting a composite key is setting the id in one principal's entries and changes nobody else's. |
| `ControlPlane.MineRemove` | examples/worker/src/stub-app.ts:468-472 | And so is deleting it. |
| `ControlPlane.PolicyWritten` | examples/worker/src/stub-app.ts:338-401 | A policy write changes one workspace of one principal. |
| `ControlPlane.StampsKept` | examples/worker/src/stub-app.ts:354-383 | After any history a principal's store holds only snapshots of its own workspaces, written at least once, with capabilities stamped with it that passed the checks. |
| `ControlPlane.VersionCounts` | examples/worker/src/stub-app.ts:350-401 | The version of a workspace is the number of its principal's writes to it that were accepted. |
| `ControlPlane.LostAgain` | examples/worker/src/stub-app.ts:420-430 | In every answered history a digest consumed a second time by its principal is answered false. |
| `ControlPlane.ReadThenWrite` | examples/worker/src/stub-app.ts:294-353 | After any history, writing at the version just read conflicts if and only if the principal has no snapshot of its own and the read falls through to one with a version above zero: the plain one, or one under somebody's key of that spelling. |
| `WorkerScheduler.Scheduler.Dispatch` | src/capabilities/execution/docker-worker-scheduler.ts:144-273 | A container is asked for only for an id that was never launched; the records a launch saves, all of its own id, and nothing else; a failed launch leaves its record failed and without a result, in memory and on disk; an id with a record is never launched again and changes nothing; and what each case answers. |
| `WorkerScheduler.Scheduler.Attend` | src/capabilities/execution/docker-worker-scheduler.ts:229-273 | From the container on: the worker's result is recorded and returned, or the launch has failed, or the process died; and the records saved on the way. |
| `WorkerScheduler.Scheduler.Save` | src/capabilities/execution/docker-worker-scheduler.ts:123-141 | After a save memory and file agree. |
| `WorkerScheduler.Scheduler.Restart` | src/capabilities/execution/docker-worker-scheduler.ts:100-118 | A restart has every record and every used nonce of the file. |
| `WorkerScheduler.Scheduler.Cancel` | src/capabilities/execution/docker-worker-scheduler.ts:276-286 | A cancel marks exactly the lease's live records failed, in memory only. |
| `WorkerScheduler.StandsExactly` | src/capabilities/execution/docker-worker-scheduler.ts:100-286 | After any saves, cancels and restarts, the record of an id is its last save, marked failed exactly if that was a live one whose lease was cancelled since, with a save between that cancel and the next restart. |
| `WorkerScheduler.RepeatedExactly` | src/capabilities/execution/docker-worker-scheduler.ts:164-177 | In every state a history can lead to, a repeated id is refused as a replay if and only if its last save has no result and is failed, or was cancelled since and the cancel not forgotten; and exactly when it is answered pending or with its result. |
| `WorkerScheduler.NeverRetried` | src/capabilities/execution/docker-worker-scheduler.ts:256-273 | A dispatch that was reported failed and retryable is refused as a replay after any later dispatches, cancels, deaths and restarts. |
| `WorkerScheduler.Live` | src/capabilities/execution/docker-worker-scheduler.ts:144-286 | Over any history of dispatches, cancels, deaths and restarts no dispatch id gets a second container, and a result handed out stays the record's. |
| `RateLimit.Limiter.Handle` | src/domain/middleware/rate-limit.ts:41-63 | A call is let through exactly when its key's bucket has a token, and the buckets are what the calls made of them. |
| `RateLimit.TwicePerWindow` | src/domain/middleware/rate-limit.ts:41-63 | With a clock that never goes back, any half-open window holds at most `2 * maxRequests - 1` calls of a key (`maxRequests` when the window is one tick wide, none when the limit is not positive), which is below the documented double. |
| `RateLimit.PeakIsReached` | src/domain/middleware/rate-limit.ts:48-61 | That bound is reached by some calls of any key, for every limit and every window above zero. |
| `RateLimit.OncePerLife` | src/domain/middleware/rate-limit.ts:48-61 | At most `maxRequests` calls of a key over the whole history fall in the life of any one bucket that ever stood. |
| `ModelOrder.CompareGenerations` | src/foundations/models-catalog.ts:73-83 | The loop returns the first difference of the zero-padded tuples. |
| `ModelOrder.GenerationsLexicographic` | src/foundations/models-catalog.ts:68-83 | Its sign is that of lexicographic comparison with trailing zeros ignored. |
| `ModelOrder.BetterConsistent` | src/foundations/models-catalog.ts:177-197 | The chain of five comparators is a total preorder, for any collation of ids. |
| `ModelOrder.ChosenIsBest` | src/foundations/models-catalog.ts:179-199 | The chosen model is a maximum of the candidates. |
| `ModelOrder.HeadOfSorted` | src/foundations/models-catalog.ts:179-199 | So is the head of any sorted order of them. |
| `ModelOrder.OrderDoesNotMatterExactly` | src/foundations/models-catalog.ts:171-199 | The choice is the same for every order of the catalogue if and only if no two candidates tie for best. |
| `ModelOrder.DistinctIdsSuffice` | src/foundations/models-catalog.ts:171-199 | Distinct ids are enough when the collation tells them apart. |
| `JsonPointer.Resolve` | src/capabilities/tools/connector-registry.ts:27-59 | The walk computes `Resolved`: split, two-step unescape, own fields only, with its four faults. |
| `JsonPointer.UnescapeUndoes` | src/capabilities/tools/connector-registry.ts:35 | The two-step unescape undoes the escape of sections 3 and 4 of RFC 6901 on every token. |
| `JsonPointer.ResolvesPath` | src/capabilities/tools/connector-registry.ts:27-59 | Escaping and joining any path gives a pointer that resolves to the value at that path, or to the same fault. |
| `JsonPointer.FoundExactly` | src/capabilities/tools/connector-registry.ts:37-57 | A path's pointer resolves if and only if the path walks own fields and avoids the three reserved names. |
| `JsonPointer.PointersDiffer` | src/capabilities/tools/connector-registry.ts:35 | Different paths have different pointers. |
| `JsonPointer.OtherOrderIsWrong` | src/capabilities/tools/connector-registry.ts:35 | The two steps in the other order would turn the token `~1` into `/`. |
| `Skills.LoadSkills` | src/capabilities/skills/index.ts:17-55 | The last record of each name decides alone; a shadowed record leaves nothing in either map. |
| `Skills.Registry.GetBody` | src/capabilities/skills/registry.ts:37-91 | A cached answer is always the uncached one, and the cache holds at most five entries, unless a skill has an empty name, which is never evicted; the loader refuses such a name (src/capabilities/skills/parser.ts:34), so only a registry built directly can hold one. |
| `Skills.BodyIsLasts` | src/capabilities/skills/registry.ts:46-69 | A body always comes from the last record of its name: its content, or its file. |

## Left out

- Network, DNS, SMTP, webhooks, Docker, MCP, provider streams, browsers: arbitrary results stand in their place.
- The internals of the policy engine, of `covers`, of the audit recorder and of the outbox: abstract, as listed above.
- ActionWorld.World.Consume: the ledger's lock and append are one atomic step; breaking a stale lock (src/domain/permissions/persisted-capability-ledger.ts:201-252) is left out, and so is a half-way append that its process survives, after which the next line and its digest are lost as in `ReplayLedger.TornTailReplays`. A call that throws may still have consumed the digest.
- Stale-lock breaking of the policy store: compare-and-set is atomic here.
- The principal-projected first read of the policy (src/domain/permissions/action-lifecycle.ts:545): the approver's stored capabilities are read from the whole snapshot.
- The intent's `policy-grant-intent` audit stage in `ActionLifecycle`: it belongs to `GrantProtocol`, where it may be flushed at any time.
- Two runs at once on one `ActionLifecycle` object: its active set changes only by the run itself; the shared world is changed by others freely.
- Redaction, forensic fields, timestamps, messages and hooks: not part of the states.
- Hash collisions and signature checks: digests are compared as texts; a dispatch signature is a yes or no.
- The parent dev/ino comparison (native/fs-commit/src/commit.rs:253-262): both calls use one descriptor, so only the failing call's cleanup is modelled.
- The watchdog of native/fs-commit/src/main.rs: only as the patience of the read loop; it may leave a temp file by design.
- Failing saves and interleaved dispatches of the scheduler; `kill` and `remove` in `cancel`, which are given the dispatch id.
- Approvals, tokens, HTTP framing and the wildcard and path checks of the control plane: the checks are one arbitrary predicate.
- Regex-based extraction of tool calls, entity decoding after the scan, the executors' bookkeeping, tier scores: arbitrary functions or absent.
- Usage of attempts that came back empty: as in the source, only the last attempt of a round is counted.
- Fractional rate limits, and files that change under the skill registry.
- The gateway, environment sanitizing, the egress gate, lease checks beyond the broker's own, catalogue merging: stateless checks of one value, on whose results the state machines here do not depend.
- GrantRecovery.Verdict: a missing before-version is recorded as 0 where the source leaves the field out.
