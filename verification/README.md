# Waygate admin core: a Dafny model

This project models the parts of the Waygate gateway's administration crate that
decide what is allowed to happen, and proves what they promise. It covers the
maker-checker change-request protocol, execution-bound approval grants, the catalog
server lifecycle, the tool-contract differ, the JSON scanner behind policy review,
bulk tool acceptance, API keys under profile ceilings, the asset snapshot, and the
login deep link. `dafny verify dfyconfig.toml` checks everything.

Protocols that several operators run at once are state machines. Each store
statement, audit write, target read and side effect is one atomic step, runs
interleave in any order, and a call may fail before or after it took effect. Code
that works by changing things in place is a method or a class with a loop, proved
against a function. Pure code is functions and lemmas.

| file | what it holds |
|---|---|
| `Basics.dfy` | options, results, blank text |
| `ApprovalBar.dfy` | the frozen approval bar: admission and the approve-time check |
| `ChangeStore.dfy` | the change row, its ledger, the conditional updates, the in-memory store |
| `ChangePropose.dfy` | admission of a proposal and its freshness witness |
| `ChangeProtocol.dfy` | approvers, deniers and secret readers as one transition system |
| `ChangeSafety.dfy` | the inductive invariant and its preservation, step by step |
| `ChangeTheorems.dfy` | what follows over whole runs |
| `ChangeAlone.dfy` | what one operator achieves when nobody interferes |
| `ChangeRuns.dfy` | what becomes of a request over any interleaving, and runs that reach the limits |
| `JsonTree.dfy` | JSON values, height, key order |
| `ContractDiff.dfy` | the unbounded list of changes between two contracts |
| `ContractWalk.dfy` | the walk as it runs, filling a bounded collector |
| `ContractSilence.dfy` | exactly when nothing is listed |
| `ContractFlags.dfy` | exactly what is flagged |
| `ContractCount.dfy` | flags match the reachable widenings one to one |
| `ContractTruth.dfy` | exactly which changes a schema walk lists |
| `ContractExact.dfy` | exactly what a whole summary lists, and in which order |
| `GrantProtocol.dfy` | approvers and the broker around execution-bound grants |
| `CatalogLifecycle.dfy` | direct approval, recovery, quarantine and import over one server row |
| `JsonScanner.dfy` | the balanced-object scanner and the JSON grammar |
| `ManifestEdit.dfy` | folding a selection of approvals into the manifest set |
| `BulkReview.dfy` | the bulk acceptance batch |
| `ApiKeys.dfy` | mint, edit, revoke, profile create and delete |
| `Assets.dfy` | byte budget, digest framing, reference rewriting |
| `AssetRestore.dfy` | reading a rewritten text back |
| `LoginLink.dfy` | percent-encoding, the login round trip, constant-time comparison |

## Results worth knowing

Where a promise holds only under a condition, the model states the condition and a
lemma shows the failing case.

- A bar admitted at propose time can be met before expiry exactly when its cooldown
  ends before expiry, counted from the stored creation time. Expiry is computed
  before the row is stored, so a slow insert can leave a bar nobody can meet.
- A pending request past its expiry can still be approved exactly when it needs one
  approver and one is deciding who had finished every check before the expiry: its
  statement may have begun in time. An approver still previewing at the expiry is
  refused. The side effect of a late approval runs although everyone else already read
  the request as expired. A denial can come late in the same way and no other.
- An edit that lands between the recheck and the write is overwritten exactly when the
  executor does not bind the witness, or the edit leaves the witness as it was. So some
  edit can be lost exactly unless the executor binds a version.
- The version segments of a rewritten text can be told from the output alone exactly
  when no reference that is left alone already reads as the segment and a known path.
- A settled execution-bound grant authorises the pending request exactly while a
  request is pending. A denied execution keeps its live grant. An approver whose store
  call was lost between mint and recheck leaves a live grant for the earlier request,
  and no other finished approver does.
- Two successive direct promotions have different actors unless somebody else's approval
  of another kind is at least as recent. An actor may promote exactly when it did not
  give the newest approval, so a recovery in between lets one actor promote twice.
- A change of a contract is listed exactly when it can be said of a place the walk
  reaches. A contract summary is empty exactly when both sides look the same to the walk and
  no evidence was added. A schema that is not an object can be swapped unseen.
- A keyword that was an object and becomes a list is compared but its elements are
  not walked, and inside a parameter `type`, `description`, `enum` and `default` are
  compared and not descended into. Both are part of the definition of a reachable
  place.
- A login link comes back mounted exactly when the inner path does not itself begin
  with the mount. `/admin/x` below the mount is lost.

The comment at `crates/waygate-admin/src/approval_grants.rs:754-758` speaks of
revoking on replace. The broker revokes first and replaces after
(`crates/waygate-server/src/mcp_codemode.rs:2991-3041`), and the model follows that
order. The comment at `crates/waygate-admin/src/auth.rs:241-251` promises the
original URL back for every path, which the code does not do for paths that look
mounted.

## Assumptions

- PostgreSQL: `now()` is the start of the transaction, one statement is atomic, and
  row locks serialise writers of one row.
- Two transactions on one catalog server row never start in the same microsecond.
- The program and the database read one clock.
- Every write to a target of a change request gives it a version no earlier write had.
- Digests identify what they digest. Decryption succeeds exactly with the right key.
- Audit, inference, upstream and publication calls are nondeterministic answers.

## Model

| member | source | states |
|---|---|---|
| ApprovalBar.EnforceOkExactly | crates/waygate-admin/src/approval_requirement.rs:55-144 | the approve-time check accepts exactly the approvals that hold the role, present every factor from a fresh session of their own, and come after the cooldown |
| ApprovalBar.RefusalExactly | crates/waygate-admin/src/approval_requirement.rs:55-144 | a refusal names the first requirement that is not met, in the order role, session, cooldown, and what it says of the session is so |
| ApprovalBar.AdmittedBarApprovableExactly | crates/waygate-admin/src/approval_requirement.rs:26-52 | an enforceable bar can be met before expiry if and only if its cooldown ends before expiry |
| ApprovalBar.PromptlyStoredBarIsApprovable | crates/waygate-admin/src/change_requests.rs:383-427 | a bar admitted for its time-to-live can be met when the row is stamped at the propose instant |
| ApprovalBar.SlowInsertCanLeaveUnapprovableBar | crates/waygate-admin/src/change_requests.rs:383-427 | an admitted bar that nobody can meet because the row was stamped a second later |
| ApprovalBar.AdmittedBarNeverBlamesRow | crates/waygate-admin/src/approval_requirement.rs:73-141 | no corrupt-row error can occur for an admitted bar whose cooldown stays in the date range, however late the row was stamped |
| ApprovalBar.AdmittedRowBlamedExactly | crates/waygate-admin/src/approval_requirement.rs:118-141 | some approval blames an admitted row if and only if its cooldown overflows the date range |
| ChangeStore.MemoryStore.constructor | crates/waygate-changeset/src/lib.rs:1475-1506 | an empty store |
| ChangeStore.MemoryStore.Find | crates/waygate-changeset/src/lib.rs:1508-1518 | the search finds the one row of this tenant with the id, or none |
| ChangeStore.MemoryStore.Propose | crates/waygate-changeset/src/lib.rs:1475-1506 | a proposal is appended as a pending row and nothing else changes |
| ChangeStore.MemoryStore.Approve | crates/waygate-changeset/src/lib.rs:1652-1674 | the conditional approve of the named open row, framed |
| ChangeStore.MemoryStore.Deny | crates/waygate-changeset/src/lib.rs:1769-1792 | the conditional denial of the named open row, framed |
| ChangeStore.MemoryStore.Begin | crates/waygate-changeset/src/lib.rs:1794-1808 | the execution claim of the named approved row, framed |
| ChangeStore.MemoryStore.Record | crates/waygate-changeset/src/lib.rs:1676-1752 | one distinct approval, counted and flipped at the quorum, ledger and row framed |
| ChangeStore.MemoryStore.List | crates/waygate-changeset/src/lib.rs:1754-1767 | the approvers of one change, oldest first |
| ChangeStore.LedgerIsExact | crates/waygate-changeset/src/lib.rs:1754-1767 | a ledger lists exactly who approved that change of that tenant |
| ChangeStore.LedgerKeepsOrder | crates/waygate-changeset/src/lib.rs:1754-1767 | ledgers list approvers in the order they approved |
| ChangeStore.QuorumReachedExactly | crates/waygate-changeset/src/lib.rs:1122-1220 | however often the same operators approve, an open request is approved if and only if as many distinct ones have as its bar requires; the ledger then holds just that many and the row names the last |
| ChangePropose.ProposedRowIsSound | crates/waygate-admin/src/change_requests.rs:333-447 | a stored proposal freezes the executor's own enforceable bar and the witness of the target as read, and an action that needs a witness has one |
| ChangePropose.ProposedExactly | crates/waygate-admin/src/change_requests.rs:333-710 | a proposal is stored if and only if request, bar and target fit; the row carries the proposer's tenant and name, the executor's bar, the witness read and the expiry its time-to-live after now; a refusal names something that is so |
| ChangeSafety.QuorumRecords | crates/waygate-changeset/src/lib.rs:1122-1220 | recording an approval keeps the ledger distinct and flips exactly at the required count, before expiry |
| ChangeSafety.EveryTurnKept | crates/waygate-admin/src/change_requests.rs:963-1592 | every step of every run keeps the shared invariant and the run's own |
| ChangeSafety.StepKeepsInv | crates/waygate-admin/src/change_requests.rs:963-1592 | every action of the whole system keeps the invariant |
| ChangeTheorems.InvariantHolds | crates/waygate-admin/src/change_requests.rs:963-1592 | the invariant holds in every state of every run |
| ChangeTheorems.RunsMoveForward | crates/waygate-admin/src/change_requests.rs:963-1592 | history only grows, the intent never changes and a settled row stays as it is |
| ChangeTheorems.EffectRunsAtMostOnce | crates/waygate-admin/src/change_requests.rs:1258-1406 | in every interleaving the side effect runs at most once, by the run that claimed it |
| ChangeTheorems.DenialIsFinal | crates/waygate-admin/src/change_requests.rs:1215-1252 | after a denial the row never changes and the effect never runs |
| ChangeTheorems.LapseIsFinal | crates/waygate-admin/src/change_requests.rs:963-1130 | a request past its expiry, unless it needs one approver and one is deciding who had finished every check in time, is never executed |
| ChangeRuns.ApprovableAfterExpiryExactly | crates/waygate-admin/src/change_requests.rs:963-1130 | a pending request past its expiry can still be approved if and only if it needs one approver and one is deciding who finished the preview before the expiry |
| ChangeRuns.DeniableAfterExpiryExactly | crates/waygate-admin/src/change_requests.rs:1215-1238 | a pending request past its expiry can still be denied if and only if a denier under way had loaded it before the expiry |
| ChangeRuns.EffectCanFollowExpiry | crates/waygate-changeset/src/lib.rs:1088-1120 | a run from a stored proposal that reads as expired and undecided, and whose effect runs after that |
| ChangeTheorems.EffectFollowsAuditAndDecision | crates/waygate-admin/src/change_requests.rs:1076-1130 | the effect is run by an operator of the request's tenant whose own approve audit is durable by then, after a decision before expiry |
| ChangeTheorems.OnlyOwnTenantActs | crates/waygate-admin/src/change_requests.rs:963-985 | in every run, whoever clears the bar, claims, denies or reads is of the request's own tenant |
| ChangeTheorems.DenialIsAttributed | crates/waygate-admin/src/change_requests.rs:1215-1252 | whenever a request becomes denied, an operator of its tenant denied it before expiry with a reason that is kept |
| ChangeTheorems.AuditIsTrueAndComplete | crates/waygate-admin/src/change_requests.rs:1076-1406 | in every run no audit row is false, and a run that reports success, failure or a denial has its own row in the log |
| ChangeTheorems.RecordingFollowsClearance | crates/waygate-admin/src/change_requests.rs:963-1075 | in any run, whoever is recorded as an approver is of the request's tenant and had met the bar and the preview gate before that step, and the effect had not run |
| ChangeTheorems.EffectHasQuorum | crates/waygate-admin/src/change_requests.rs:963-1075 | when the effect runs, exactly the required number of distinct approvers are recorded, each of the request's tenant, at an earlier step and after clearing the bar and the preview gate |
| ChangeTheorems.SuccessNamesEveryApprover | crates/waygate-admin/src/change_requests.rs:1378-1398 | a successful M-of-N run leaves an execute audit naming exactly the ledger |
| ChangeTheorems.ExecutingIsHeld | crates/waygate-admin/src/change_requests.rs:1258-1406 | a row is left executing only by a run that still holds it or lost a store call |
| ChangeRuns.ClaimedRunSettles | crates/waygate-admin/src/change_requests.rs:1258-1406 | in any interleaving in which a claimed run takes its remaining steps and its store calls succeed, the row ends executed or failed |
| ChangeRuns.ReachedClaimSettles | crates/waygate-admin/src/change_requests.rs:1569-1592 | the same of any state of any run, within five steps of the claimed run |
| ChangeRuns.SettledRowHasNoMoreEffects | crates/waygate-admin/src/change_requests.rs:1258-1406 | once executed, failed or denied a change has no further effect in any interleaving |
| ChangeRuns.AfterIsReached | crates/waygate-admin/src/change_requests.rs:963-1592 | every interleaving from a reached state is part of a run of the system |
| ChangeAlone.ApprovalCountsExactly | crates/waygate-admin/src/change_requests.rs:963-1075 | an undisturbed approval of a pending request is counted and audited if and only if the operator is of the tenant, meets the bar now, the request is open and the preview clears; the request is approved if and only if that makes the required number of distinct approvers |
| ChangeAlone.ResumptionExactly | crates/waygate-admin/src/change_requests.rs:963-1130 | an approved change that nobody executed is claimed by an undisturbed operator if and only if it is of the tenant, meets the bar and the preview clears |
| ChangeAlone.DenialLandsExactly | crates/waygate-admin/src/change_requests.rs:1215-1252 | an undisturbed denial lands, with its reason, if and only if the reason is not blank, the operator is of the tenant and the request is open |
| ChangeAlone.ExecutesExactly | crates/waygate-admin/src/change_requests.rs:1258-1442 | an undisturbed claim ends executed if and only if the target is as proposed, the executor writes and reports success and any secret can be sealed; the one effect, the target, the sealed secret and the settled row are determined, and otherwise the change has failed |
| ChangeTheorems.HolderUndisturbed | crates/waygate-admin/src/change_requests.rs:1258-1406 | nobody else can move a claimed row or its run |
| ChangeTheorems.NoLostUpdate | crates/waygate-admin/src/agent_configs.rs:200-260 | a version-binding write replaces exactly the captured target; any guarded write followed a recheck that found the witness; what a versioned one replaced matches the witness if and only if it is the captured target |
| ChangeRuns.OverwritableExactly | crates/waygate-admin/src/change_requests.rs:1284-1340 | in any run, with a witness carried and the recheck passed, an edit that lands before the write is overwritten if and only if the executor does not bind the witness or the edit keeps it; some edit can be, if and only if the executor does not bind a version |
| ChangeRuns.UnconditionalWriteCanOverwrite | crates/waygate-admin/src/change_requests.rs:1284-1328 | a run from a stored proposal with a witness, whose recheck finds it, in which a later edit with another witness is overwritten |
| ChangeRuns.StaleTargetFailsWithoutEffect | crates/waygate-admin/src/change_requests.rs:1284-1328 | a target found changed or unreadable at the recheck ends in failed with no effect, whatever interleaves |
| ChangeTheorems.SecretDeliveredOnceToMaker | crates/waygate-admin/src/change_requests.rs:1486-1563 | the plaintext is returned at most once, to the requester, after execution, and an executed change that produced a secret has it stored |
| ChangeTheorems.FailedDecryptConsumesNothing | crates/waygate-admin/src/change_requests.rs:1516-1543 | a failed decryption changes nothing |
| ChangeTheorems.SecretConsumedOnlyByMaker | crates/waygate-admin/src/change_requests.rs:1486-1563 | whenever a stored secret becomes retrieved, in any run, the reader of the maker, in the request's tenant, took it after decrypting it, and either returned it or lost the reply |
| ChangeTheorems.SecretIsSealedOnce | crates/waygate-admin/src/change_requests.rs:1412-1442 | whenever a secret comes to be stored, the run that produced it stored it, unread and under the active key |
| ChangeRuns.UnreadSecretIsDelivered | crates/waygate-admin/src/change_requests.rs:1486-1563 | in any interleaving that keeps the key and loses no reply, in which a reader of the maker's takes its four steps, the unread secret is delivered to the maker |
| ChangeAlone.ReadingDeliversExactly | crates/waygate-admin/src/change_requests.rs:1486-1563 | an undisturbed read hands the secret out, once, if and only if the reader is the maker in the tenant, the change is executed, the secret is unread and its key is at hand; any other read leaves everything as it was |
| JsonTree.InOrderIsSorted | crates/waygate-admin/src/contract_summary.rs:189-193 | reading order lists each key once, by code point |
| JsonTree.StrLeExactly | crates/waygate-admin/src/contract_summary.rs:189-193 | one name comes before another if it is a prefix of it or smaller where they first differ |
| JsonTree.Sort | crates/waygate-admin/src/contract_summary.rs:189-193 | keys are visited in reading order |
| ContractWalk.Collector.constructor | crates/waygate-admin/src/contract_summary.rs:65-70 | an empty collector |
| ContractWalk.Collector.Push | crates/waygate-admin/src/contract_summary.rs:72-85 | every change is counted, its flag too, and the first fifty are kept |
| ContractWalk.WalkSchema | crates/waygate-admin/src/contract_summary.rs:177-329 | the in-place walk appends exactly the list of schema changes |
| ContractWalk.WalkKeywords | crates/waygate-admin/src/contract_summary.rs:245-328 | the keyword loop appends exactly the keyword changes, in key order |
| ContractWalk.WalkNested | crates/waygate-admin/src/contract_summary.rs:333-350 | a schema under a keyword appends exactly its changes |
| ContractWalk.WalkProperty | crates/waygate-admin/src/contract_summary.rs:372-419 | a changed parameter appends its own changes, its schema's, or the fallback |
| ContractWalk.WalkAnnotations | crates/waygate-admin/src/contract_summary.rs:421-462 | the annotation loop appends exactly the annotation changes |
| ContractWalk.WalkTopLevel | crates/waygate-admin/src/contract_summary.rs:113-164 | the top level appends exactly the contract's changes |
| ContractWalk.Summarize | crates/waygate-admin/src/contract_summary.rs:51-60 | the summary lists the first fifty changes of the unbounded list while both counts cover all of it |
| ContractSilence.SchemaSilentExactly | crates/waygate-admin/src/contract_summary.rs:177-329 | a schema walk lists nothing if and only if properties, the required set and every other unreported keyword agree |
| ContractSilence.SummarySilentExactly | crates/waygate-admin/src/contract_summary.rs:51-164 | a summary is empty if and only if the contracts look the same to the walk and no evidence was added |
| ContractSilence.NoSilentDifference | crates/waygate-admin/src/contract_summary.rs:113-329 | normalised contracts give an empty summary if and only if they differ at most in name and in how required names are listed |
| ContractSilence.ScalarSchemaSwapIsSilent | crates/waygate-admin/src/contract_summary.rs:177-200 | without normalisation an input schema can be swapped unseen |
| ContractFlags.EveryWideningIsFlagged | crates/waygate-admin/src/contract_summary.rs:177-350 | a new parameter, newly required name or opened schema at any reachable place, at any depth, is listed with its flag |
| ContractFlags.EveryFlagIsAWidening | crates/waygate-admin/src/contract_summary.rs:177-419 | every flag of a schema walk points at such a widening at a place that exists |
| ContractFlags.OutputIsNeverFlagged | crates/waygate-admin/src/contract_summary.rs:130-137 | changes to the output schema carry no flag |
| ContractFlags.SummaryFlagsWidening | crates/waygate-admin/src/contract_summary.rs:113-164 | widened inputs and widened hints leave a flag in the summary |
| ContractFlags.SummaryFlagsNothingElse | crates/waygate-admin/src/contract_summary.rs:421-535 | a flag in a summary is a widened input, a widened hint or new evidence |
| ContractCount.FlagsCountWidenings | crates/waygate-admin/src/contract_summary.rs:177-419 | the flagged changes of a walk are, in order and one to one, the reports of the reachable widenings, each of which is listed once |
| ContractCount.SummaryFlagCount | crates/waygate-admin/src/contract_summary.rs:51-85 | the flag count of a summary is the number of reachable input widenings, widened hints and kinds of new evidence |
| ContractTruth.EveryChangeHolds | crates/waygate-admin/src/contract_summary.rs:177-419 | each listed schema change is said of a reachable place: what was added, removed, required, opened or changed there, with its flag |
| ContractTruth.EverythingSaidIsListed | crates/waygate-admin/src/contract_summary.rs:177-419 | everything that can be said of a reachable place is listed, at any depth: every dropped parameter and requirement, and each of type, description, values and default that differs |
| ContractTruth.ListedExactly | crates/waygate-admin/src/contract_summary.rs:177-419 | a walk lists a change if and only if it can be said of a place the walk reaches |
| ContractTruth.OwnChangesInOrder | crates/waygate-admin/src/contract_summary.rs:372-407 | a definition's own changes come once each, in the order type, description, values, default |
| ContractTruth.VocabularyExactly | crates/waygate-admin/src/contract_summary.rs:177-371 | where parameters and demands stand, which keywords hold values, which can open an input and which belong to a definition |
| ContractExact.SummaryExactly | crates/waygate-admin/src/contract_summary.rs:51-164 | a summary lists a change if and only if it is said of the two contracts: a field, the input or output schema, an annotation with its own flag, metadata, or evidence gained |
| ContractExact.HintFlagExactly | crates/waygate-admin/src/contract_summary.rs:421-462 | each of the four hints has its own flag, carried if and only if the change widens |
| ContractExact.SummaryInOrder | crates/waygate-admin/src/contract_summary.rs:113-164 | title and description come first, then input, output, annotations, metadata, other fields and evidence |
| GrantProtocol.StepKeeps | crates/waygate-admin/src/approval_grants.rs:614-792 | every step of approvers, broker and execution row keeps the grant invariant |
| GrantProtocol.StaleGrantIsUnsettled | crates/waygate-admin/src/approval_grants.rs:752-780 | a live grant for anything but the last pending request belongs to an approver between mint and recheck or withdrawal, or cut off there, and was minted after the sweep before that request |
| GrantProtocol.SettledGrantAuthorisesExactly | crates/waygate-admin/src/approval_grants.rs:752-780 | a settled live grant authorises the pending request if and only if a request is pending |
| GrantProtocol.PendingRequestIsTheOnlyOneGranted | crates/waygate-server/src/mcp_codemode.rs:2981-3062 | while a request is pending every live grant is for it or still being settled |
| GrantProtocol.GrantBindsWhatWasReviewed | crates/waygate-admin/src/approval_grants.rs:625-657 | a grant is for the request its approver reviewed, never by the execution's own principal, and dead once withdrawn |
| GrantProtocol.OnlyCutOffApproversLeaveStaleGrants | crates/waygate-admin/src/approval_grants.rs:752-780 | of the approvers that are done, only one cut off by a lost store call can leave a live grant for an earlier request |
| GrantProtocol.CutOffApproverLeavesStaleGrant | crates/waygate-admin/src/approval_grants.rs:759-766 | a run in which a store error at the recheck leaves a live grant for the earlier request while another is pending |
| GrantProtocol.DeniedExecutionKeepsItsGrant | crates/waygate-codemode/src/store.rs:1071-1126 | a denial leaves a settled grant live with nothing pending |
| GrantProtocol.ApprovesExactly | crates/waygate-admin/src/approval_grants.rs:614-792 | an undisturbed approver is granted if and only if the owner is known and somebody else, the reviewed request is waiting and readable, and the tool fits; the grant is live and for that request |
| GrantProtocol.DeniesExactly | crates/waygate-codemode/src/store.rs:1071-1126 | a denial ends the execution if and only if a request waits, nobody cancels, and it names that request or none |
| GrantProtocol.ExpiryEndsWaiting | crates/waygate-codemode/src/store.rs:2142-2260 | an execution that waits is over when it expires, and no other is touched |
| GrantProtocol.DoneIsFinal | crates/waygate-codemode/src/store.rs:1071-1340 | an execution that is over stays over and no request of it becomes pending |
| GrantProtocol.CancelIsFinal | crates/waygate-codemode/src/store.rs:90-240 | once cancelled an execution never asks for approval and is never resumed, and it is over at once unless a live worker holds it |
| GrantProtocol.LapsedWorkerIsFenced | crates/waygate-codemode/src/store.rs:1997-2042 | nothing a worker writes after its claim lapsed reaches the row, in any continuation |
| GrantProtocol.CommitsExactly | crates/waygate-codemode/src/store.rs:1997-2042 | a worker's request becomes the pending one if and only if the worker holds the running claim of its epoch with its lease and nobody cancels, and otherwise the row is as it was |
| GrantProtocol.LeavesExactly | crates/waygate-codemode/src/store.rs:1997-2042 | a worker ends its execution if and only if it holds that claim, and pauses it only if nobody cancels |
| GrantProtocol.StartsExactly | crates/waygate-codemode/src/store.rs:1128-1340 | a submission is claimed, and a waiting execution resumed unless cancelled, by a fresh worker in an epoch of its own |
| GrantProtocol.LapsesExactly | crates/waygate-codemode/src/store.rs:2142-2260 | a lapsed claim waits to be resumed if it can be and is over otherwise |
| CatalogLifecycle.SuccessivePromotersDiffer | crates/waygate-admin/src/catalog.rs:203-262 | under the two-approver rule successive direct promotions have different actors unless somebody else's approval of another kind is as recent |
| CatalogLifecycle.PromotesAloneExactly | crates/waygate-admin/src/catalog.rs:203-262 | from any reached state an actor left to itself makes the server live by direct approval if and only if it is not quarantined and, under the two-approver rule, the actor did not give the newest approval; row and record are determined |
| CatalogLifecycle.RecoversAloneExactly | crates/waygate-catalog/src/store.rs:832-886 | anybody left alone recovers a quarantined server, and any other server is left as it is |
| CatalogLifecycle.RecoveryLetsAnActorPromoteTwice | crates/waygate-catalog/src/store.rs:888-913 | with a recovery in between one actor makes two successive direct promotions |
| CatalogLifecycle.PromotionsAreStampedInOrder | crates/waygate-catalog/src/store.rs:832-886 | direct promotions are stamped in commit order, so the query by creation time finds the last |
| CatalogLifecycle.DirectNeverLiftsQuarantine | crates/waygate-admin/src/catalog.rs:203-262 | no direct approval moves a server out of quarantine, even one set mid-run |
| CatalogLifecycle.TransitionSucceedsExactlyWhenUntouched | crates/waygate-catalog/src/store.rs:832-886 | the conditional update succeeds if and only if nobody wrote the row since it was read |
| CatalogLifecycle.CheckAllowsPromotion | crates/waygate-catalog/src/store.rs:888-913 | passing the last-approver check means the actor did not make the last direct promotion, or somebody else's approval is no older |
| CatalogLifecycle.ConvergeKeeps | crates/waygate-catalog/src/import.rs:379-485 | an import, with or without a write, keeps the lifecycle invariant |
| CatalogLifecycle.ImportsExactly | crates/waygate-catalog/src/import.rs:321-485 | the status, the stamp and the record an undisturbed import leaves, for every combination of its effects |
| JsonScanner.Extract | crates/waygate-admin/src/agent_review.rs:737-766 | the scanner returns the shortest balanced span from the first brace, or nothing if there is none, and its depth never underflows |
| JsonScanner.AnswerIsUnique | crates/waygate-admin/src/agent_review.rs:737-766 | there is only one such answer |
| JsonScanner.PrintedObjectIsExtracted | crates/waygate-admin/src/agent_review.rs:735-766 | every JSON object in every spelling of RFC 8259, after any brace-free text and before anything, is returned exactly |
| JsonScanner.TextIsNeutral | crates/waygate-admin/src/agent_review.rs:742-752 | a string literal in any spelling of section 7 of RFC 8259 leaves the depth alone |
| ManifestEdit.ReviseOne | crates/waygate-admin/src/bulk_tool_reviews.rs:58-100 | one approval edits the set as specified, fails if and only if it is refused, and touches the set unless the hash was already there |
| ManifestEdit.Revise | crates/waygate-admin/src/bulk_tool_reviews.rs:56-101 | the edit loop fails if and only if some edit is refused, computes the folded set otherwise, and gives `None` exactly when the set on disk already agrees |
| ManifestEdit.PublishedSetIsExact | crates/waygate-admin/src/bulk_tool_reviews.rs:56-101 | the folded set is determined: the first entry of each classified selected name has only its hash replaced, every other entry stays, and exactly the new classifications are added, last and in order |
| ManifestEdit.ApplyAllFailsExactly | crates/waygate-admin/src/bulk_tool_reviews.rs:56-101 | the selection fails if and only if one of its edits names another base, a missing server, one not in annotation mode, classifies a listed tool or leaves an unlisted one unclassified; the error is that of the first such edit |
| ManifestEdit.UnchangedExactly | crates/waygate-admin/src/bulk_tool_reviews.rs:102-117 | the folded set equals the one read if and only if it already agreed with every edit |
| BulkReview.Gather | crates/waygate-admin/src/bulk_tool_reviews.rs:151-171 | unavailable and unprepared tools get their outcome and the rest become candidates in order |
| BulkReview.Retain | crates/waygate-admin/src/bulk_tool_reviews.rs:186-194 | candidates whose review is no longer pending are settled as conflicts |
| BulkReview.Publish | crates/waygate-admin/src/bulk_tool_reviews.rs:40-117 | at most one set is handed on, and only one that differs from what was read |
| BulkReview.PublicationExactly | crates/waygate-admin/src/bulk_tool_reviews.rs:40-117 | what publishing comes to, from the edits alone: refused, nothing to do, or the publisher's answer to exactly one set |
| BulkReview.StaleBasePublishesNothing | crates/waygate-admin/src/bulk_tool_reviews.rs:60-64 | one approval reviewed against another manifest set and nothing is handed to the publisher |
| BulkReview.EditsExactly | crates/waygate-admin/src/bulk_tool_reviews.rs:40-58 | the edits are those of the annotation-mode candidates, each with its own risk, and no others |
| BulkReview.CandidatesExactly | crates/waygate-admin/src/bulk_tool_reviews.rs:151-171 | a tool is a candidate if and only if its server refreshed and its approval could be prepared |
| BulkReview.AcceptAll | crates/waygate-admin/src/bulk_tool_reviews.rs:196-223 | each locked tool is approved, settled, or the batch is abandoned on a store error |
| BulkReview.RecordAll | crates/waygate-admin/src/bulk_tool_reviews.rs:232-238 | every accepted tool gets its recorded outcome |
| BulkReview.Approve | crates/waygate-admin/src/bulk_tool_reviews.rs:119-241 | the batch succeeds exactly under the stated answers, every selected tool then has its one outcome in input order, exactly the accepted ones are committed and at most one set is handed on; each refusal has its own error |
| BulkReview.OutcomeExactly | crates/waygate-admin/src/bulk_tool_reviews.rs:151-241 | the outcome of a tool, case by case, in the order the batch finds out |
| BulkReview.OkOutcomeIsEarned | crates/waygate-admin/src/bulk_tool_reviews.rs:196-241 | an Ok outcome was locked, approved and committed, and in annotation mode the set in force carries its hash |
| ApiKeys.LiveKeysStayUnderTheirCeiling | crates/waygate-admin/src/api_keys.rs:590-630 | in every run a live key minted under a profile still names it, the profile exists, scopes and expiry are within it, and the owner and reason it asks for are there |
| ApiKeys.KeysKeepTheirTerms | crates/waygate-admin/src/api_keys.rs:940-1018 | a revoked key keeps its scopes and groups, expiry and binding never change, and a live key keeps its profile |
| ApiKeys.RevocationIsFinal | crates/waygate-apikeys/src/store.rs:330-341 | revoking touches one key, and in every continuation that key is gone or dead with the grants it had |
| ApiKeys.MintSucceedsExactly | crates/waygate-admin/src/api_keys.rs:590-630 | an undisturbed mint makes exactly its key if and only if it asks for some scope and the profile it names exists and allows scopes, expiry, owner and reason |
| ApiKeys.EditSucceedsExactly | crates/waygate-admin/src/api_keys.rs:940-1018 | an undisturbed edit replaces exactly scopes and groups if and only if it asks for some scope the key's profile allows and the key is not revoked |
| ApiKeys.SuccessLandsExactly | crates/waygate-apikeys/src/store.rs:370-415 | in any interleaving, the step that ends a mint or an edit with success makes exactly the change asked for |
| ApiKeys.GrantsChangeOnlyByEdit | crates/waygate-apikeys/src/store.rs:370-415 | only an edit that ends with success changes what a key grants |
| ApiKeys.LiveKeysStay | crates/waygate-apikeys/src/store.rs:475-495 | no step takes away a key that is neither revoked nor expired |
| ApiKeys.SweepsExactly | crates/waygate-apikeys/src/store.rs:475-495 | a key is swept if and only if it is revoked or expired and its retention is over |
| ApiKeys.DeletionSucceedsExactly | migrations/0027_api_key_profiles_block_delete_if_referenced.sql:54-77 | a profile is deleted if and only if no live key names it, and the keys that named it are detached and otherwise as they were |
| ApiKeys.CreationIsKept | crates/waygate-admin/src/api_key_profiles.rs:208-317 | a new profile gets an identifier of its own and is never changed |
| ApiKeys.DeleteKeeps | migrations/0027_api_key_profiles_block_delete_if_referenced.sql:54-77 | deleting a profile under the live-reference guard keeps the ceiling invariant |
| ApiKeys.FitsBounds | crates/waygate-apikeys/src/profiles.rs:87-129 | a key that passes the ceiling check expires less than a second past the profile's time |
| ApiKeys.UpdateKeeps | crates/waygate-apikeys/src/store.rs:370-415 | the conditional grant write keeps the ceiling invariant even if its checks are stale |
| Assets.Load | crates/waygate-admin/src/assets.rs:47-69 | all listed files within the budget or none, with at most one byte read past the budget |
| Assets.DigestInput | crates/waygate-admin/src/assets.rs:70-78 | the digest is fed the header and the framed entries |
| Assets.UnframeUndoesFrame | crates/waygate-admin/src/assets.rs:70-78 | the framing can be read back |
| Assets.FramingIsInjective | crates/waygate-admin/src/assets.rs:70-78 | different maps from path to bytes never feed the digest the same bytes |
| Assets.Rewrite | crates/waygate-admin/src/assets.rs:195-213 | the output is the text with the segment put in right after exactly the leftmost non-overlapping markers that a known path follows |
| Assets.CountedIsLeftmost | crates/waygate-admin/src/assets.rs:195-213 | those markers never overlap, and a marker is passed over only for an earlier one it overlaps |
| Assets.PathIsLongestRun | crates/waygate-admin/src/assets.rs:198-203 | the path after a marker is the longest run without one of the nine terminators that does not reach into the next marker |
| Assets.RewritingIsUndone | crates/waygate-admin/src/assets.rs:195-213 | deleting a segment's length at each insertion point restores the text |
| AssetRestore.StrippingRestoresExactly | crates/waygate-admin/src/assets.rs:195-213 | taking the segment out of the output wherever a marker is followed by it and a known path restores the text if and only if no reference left alone already reads so |
| AssetRestore.VersionSegmentFits | crates/waygate-admin/src/assets.rs:81-83 | the segment built from a hexadecimal version meets the premise of that theorem for every inventory with nothing below `admin/static` |
| AssetRestore.AlreadyVersionedIsNotRestored | crates/waygate-admin/src/assets.rs:195-213 | a text that already carries the segment is left alone by the rewriting and changed by taking segments out |
| Assets.UnknownIsUntouched | crates/waygate-admin/src/assets.rs:195-213 | an empty inventory gives the identity |
| LoginLink.UrlEncode | crates/waygate-admin/src/auth.rs:545-556 | the encoding loop computes the percent-encoding of section 2.1 of RFC 3986 |
| LoginLink.DecodeUndoesEncode | crates/waygate-admin/src/auth.rs:545-556 | decoding gives back every byte string |
| LoginLink.EncodedIsInert | crates/waygate-admin/src/auth.rs:545-556 | every position of an encoded value is an unreserved byte of section 2.3 of RFC 3986, a slash, or an escape with two upper-case digits, so no delimiter of a query string occurs |
| LoginLink.StandsForItselfExactly | crates/waygate-admin/src/auth.rs:548-553 | a byte stands for itself if and only if it is unreserved or a slash |
| LoginLink.RoundTripKeepsTheLink | crates/waygate-admin/src/auth.rs:240-265 | encoding, decoding and sanitising give back the absolute path |
| LoginLink.DeepLinkSurvivesExactly | crates/waygate-admin/src/auth.rs:240-265 | a rooted path comes back mounted if and only if it does not itself look mounted |
| LoginLink.HomeExactly | crates/waygate-admin/src/auth.rs:526-540 | the default home is exactly the home path, or a path that looks like the mount |
| LoginLink.RedirectStaysBelowTheMount | crates/waygate-admin/src/auth.rs:519-532 | whatever the link says, the redirect keeps a path below `/admin/` or `/admin` itself and otherwise goes to `/admin/` |
| LoginLink.UnrootedGoesHome | crates/waygate-admin/src/auth.rs:252-263 | a path that does not begin with a slash goes home |
| LoginLink.MountedLookAlikeIsLost | crates/waygate-admin/src/auth.rs:252-261 | a path that begins with the mount is never mounted again |
| LoginLink.ConstantTimeEq | crates/waygate-admin/src/auth.rs:558-567 | the accumulator comparison is equality |

## Left out

- HTTP routing, templates, OpenAPI, notification and prompt text: plumbing with easier properties.
- The words of a listed change: changes are tagged data, and shortening and revealing names is display.
- Extraction of web addresses, email addresses and invisible characters from contract texts: the sets found are given, and only their comparison is modelled.
- The contents of policy and manifest previews: kept as one acknowledged-and-unblocked gate.
- Scope and group normalisation, the group and scope catalogs, and `parse_ttl`: keys start from normalised scopes, and a catalog refusal is a nondeterministic refusal.
- Tenants other than the one at hand: every protocol is modelled within one tenant, except that change requests check it.
- The tool checks of an execution-bound approval: a tool that is gone, changed or no longer effectful is a nondeterministic refusal before the mint.
- Grants that are not bound to an execution, grant lifetimes, and the consumption of a grant at dispatch: any grant may die at any step.
- Server names in the catalog compare-and-set: a name is the key of its row and never changes.
- How long a dead key is kept before it is swept: whether its retention is over is given to the sweep.
- Cryptography, the audit chain, retention sweeps of audit rows, and the signing of published bundles.
- A failed publication whose outcome is unknown: the set handed to the publisher is recorded, not what became of it.
- BulkReview.Approve: takes the order of concurrent batches as given by the manifest lock and the row locks, and models one batch.
- The in-memory change store is modelled against the update functions the protocol uses; its list and secret operations are not.
