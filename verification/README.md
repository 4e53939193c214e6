# Schema Guard: a verified model

Schema Guard validates the arguments of tool calls, repairs them, and guards the
actions they trigger. This project models the parts of it that decide something and
proves what they are for, in Dafny. `dafny verify dfyconfig.toml` checks all of it.

Database transactions are atomic steps on maps and sequences, time is an integer,
keyed hashes and digests are functions that are taken to be injective only where a
statement says so, and identifiers are numbers that callers draw fresh. Objects that
the program updates in place are classes; what their methods do is stated by functions
on values, about which the theorems are.

- **Idempotency ledger, checkpoint outbox, anchor receiver** (`ActionLedger`,
  `LedgerRuns`, `SharedActionState`, `Accumulators`, `AnchorReceiver`,
  `AnchorProtocol`, `ManagedLedger`, `GuardedAction`). A two-node protocol over a
  network that loses, delays, repeats and reorders, with dispatchers that crash and
  leases that are taken over. Once a ledger reports a revision acknowledged, the
  receiver holds it for good. In every interleaving of guarded calls a key has at most
  one execution in flight or done.
- **Schema drift, releases, contract compiler** (`JsonSchema`, `SchemaDrift`,
  `DriftLog`, `SchemaReleases`, `SchemaRewrites`, `CompilerFindings`,
  `OpenAiNormalization`, `ContractCompiler`). A meaning `Accepts(schema, value)` for the
  keywords of sections 6 of JSON Schema Validation 2020-12 and 10.3 of JSON Schema Core
  2020-12, and theorems that relate comparing and rewriting schemas to it.
- **Repair walker and exact decimals** (`RepairWalk`, `RepairContext`, `RepairProofs`,
  `RepairRecords`, `Decimals`, `Pointers`). Termination on recursive schemas, replay,
  idempotence, and a normal form that decides equality of rational numbers.
- **Strict JSON** (`JsonText`, `JsonParser`, `JsonParserProofs`, `JsonTree`,
  `StrictJson`, `SafetyLimits`, `CanonicalJson`). The scanner accepts exactly the texts
  of sections 2 and 4 to 7 of RFC 8259 with distinct names within its limits.
- **Audit chain, alert outbox, rate windows** (`AuditChain`, `AlertOutbox`, `AlertRuns`,
  `AlertStore`, `RateWindows`).

## Where the code does less than it seems to

Each of these has a concrete course or value in the model, and the condition under which
the code does what one would expect, exact unless said otherwise.

- An open object that gains an optional property is reported backward compatible, and may
  reject calls it accepted (`SchemaDrift.OpenGainBreaksCalls`,
  `SchemaDrift.GainIsSafeExactlyWhenAccepted`, `SchemaDrift.GainIsSafeExactlyWhenClosed`,
  `SchemaDrift.NestedGainIsSafeExactlyWhenClosed`).
- Normalizing for OpenAI replaces `required` by the declared names, so a required name
  that was not declared is forgotten (`OpenAiNormalization.UndeclaredRequirement`,
  `OpenAiNormalization.RefinesExactlyWhenDeclared`).
- With the wrapping rule, a schema that asks for an array next to a reference may need a
  second repair pass (`RepairProofs.WrappingNextToReference`). Here the condition is one
  way: without the wrapping rule, or where nothing next to a reference asks for an array,
  a second pass never finds anything (`RepairProofs.SecondPassFindsNothing`).
- An expired lease is claimed again whatever the maximum of attempts says
  (`LedgerRuns.LeaseExpiryPassesMaximum`, `LedgerRuns.ClaimPassesMaximumExactly`,
  `AlertRuns.LeaseExpiryPassesMaximum`, `AlertRuns.ClaimPassesMaximumExactly`).
- The managed server's cached inspection agrees with a full one only while no delivery is
  queued ahead of its revision, which an inspection does not look for
  (`ManagedLedger.QueuedAheadFoolsCache`, `ManagedLedger.ReserveStaysInspected`).
- An audit identifier counts as repeated only while its event is retained; after a purge
  the same decision is recorded, and counted, again
  (`AuditChain.RepeatAfterPurgeCountsAgain`, `AuditChain.RepeatChangesNothing`,
  `AuditChain.RetainedExactly`).
- The walks of the compiler do not visit `additionalProperties`, and OpenAI's walk reports
  neither it nor what is below it: a declaration may keep keywords that the provider does
  not support, where an object may also be null or is an optional property that was just
  made to take null (`ContractCompiler.AdditionalKeywordDeclared`,
  `ContractCompiler.NormalizedKeywordDeclared`, `ContractCompiler.DeclarationIsSupported`).
- The walk for Google does not visit `additionalProperties`, so a reference there is left
  pointing at definitions that have moved. The keyword is reported, so that no declaration
  comes of it, and a lossless status keeps its promise
  (`CompilerFindings.ReferenceLeftBehind`, `CompilerFindings.CleanIsReached`,
  `ContractCompiler.LosslessKeepsMeaning`).

## Model

| member | source | states |
|---|---|---|
| Accumulators.XorBuffers | packages/shared-state/src/postgres.ts:35-39 | the buffer loop computes the bytewise exclusive or of two digests of equal length |
| Accumulators.TotalAdds | packages/shared-state/src/postgres.ts:1186-1193 | folding in one more member is one exclusive or on the accumulator |
| Accumulators.TotalRemoves | packages/shared-state/src/postgres.ts:1221-1230 | the same exclusive or takes a member out again |
| Accumulators.TotalReplaces | packages/shared-state/src/postgres.ts:1240-1249 | taking out the old member and folding in the new one replaces it |
| Accumulators.AnyOrder | packages/shared-state/src/postgres.ts:1084-1121 | the accumulator does not depend on the order in which rows are read |
| SharedActionState.ActionState.VerifyRows | packages/shared-state/src/postgres.ts:1084-1121 | the loop over rows succeeds exactly when every control hash, the count and the accumulator agree with the manifest |
| SharedActionState.ActionState.VerifyLocked | packages/shared-state/src/postgres.ts:1084-1121 | rows verified and the current revision covered by a live delivery (or any, where dead ones are allowed) |
| SharedActionState.ActionState.VerifyReconciliations | packages/shared-state/src/postgres.ts:1039-1060 | the loop succeeds exactly when the reconciliation chain verifies up to the tip |
| SharedActionState.ActionState.WriteManifestRow | packages/shared-state/src/postgres.ts:1122-1151 | revision up by one, and its checkpoint queued once; fails exactly when another checkpoint is queued for that revision |
| SharedActionState.ActionState.ReserveKey | packages/shared-state/src/postgres.ts:1152-1196 | new, duplicate or conflict with the exact next state; keeps the invariant of the ledger |
| SharedActionState.ActionState.TransitionKey | packages/shared-state/src/postgres.ts:1197-1251 | complete and release of a pending reservation with the exact next state, rolled back when a step fails |
| SharedActionState.ActionState.ReconcileReservation | packages/shared-state/src/postgres.ts:1357-1493 | repeat, too recent, not pending or recorded, with the exact next state |
| SharedActionState.ActionState.Compare | packages/shared-state/src/postgres.ts:1260-1307 | same, advanced, rolled back or conflicting, after checking the checkpoint presented and the state |
| SharedActionState.ActionState.ClaimDue | packages/shared-state/src/postgres.ts:1575-1609 | a batch of claims refines claiming due deliveries one by one under leases of their own |
| SharedActionState.BatchTakesDue | packages/shared-state/src/postgres.ts:1575-1609 | a batch takes only due deliveries, in order, each once, within the bound |
| SharedActionState.BatchLeavesNone | packages/shared-state/src/postgres.ts:1575-1609 | a batch that stops short of the bound leaves no due delivery behind |
| SharedActionState.ActionState.FinishDelivery | packages/shared-state/src/postgres.ts:1610-1658 | delivered, retried with the capped exponential delay, or dead; only for the holder of the current lease |
| SharedActionState.ActionState.RedriveDelivery | packages/shared-state/src/postgres.ts:1693-1716 | a dead delivery waits again with no attempts made; any other stays |
| SharedActionState.ActionState.CheckpointAnchorAcknowledged | packages/shared-state/src/postgres.ts:1659-1675 | whether the delivery of the current revision is delivered, on a verified ledger |
| LedgerRuns.StepKeeps | packages/shared-state/src/postgres.ts:1152-1493 | every transaction keeps manifest, rows, chain and outbox consistent and moves the manifest by at most one revision |
| LedgerRuns.RunKeeps | packages/shared-state/src/postgres.ts:1084-1493 | every run keeps the invariant; deliveries keep their payload, delivered and completed rows stay |
| LedgerRuns.ManifestMatchesRows | packages/shared-state/src/postgres.ts:1084-1121 | after any run the row count, the accumulator folded in any order and the reconciliation chain verify |
| LedgerRuns.EarlierCheckpoint | packages/shared-state/src/postgres.ts:1260-1307 | a checkpoint taken earlier later compares as same, exactly when nothing was written since, and otherwise as advanced |
| LedgerRuns.Lifecycle | packages/shared-state/src/postgres.ts:1152-1251 | for each key, grants minus releases minus not-executed reconciliations is 1 while a row exists and 0 otherwise |
| LedgerRuns.CompletedForGood | packages/shared-state/src/postgres.ts:1152-1251 | a completed reservation is never changed, granted again, released or completed again |
| LedgerRuns.RetryReturnsRecord | packages/shared-state/src/postgres.ts:1357-1493 | an identical reconciliation later in the run returns the same record and changes nothing |
| LedgerRuns.OthersDeliverNone | packages/shared-state/src/postgres.ts:1575-1658 | only a dispatcher that reports success makes a delivery delivered |
| LedgerRuns.RunsLeaveAttempts | packages/shared-state/src/postgres.ts:1610-1658 | in every run a waiting delivery has attempts left |
| LedgerRuns.ClaimPassesMaximumExactly | packages/shared-state/src/postgres.ts:1580-1598 | the maximum of attempts is passed exactly by claiming a delivery whose lease expired with its attempts used up |
| LedgerRuns.LeaseExpiryPassesMaximum | packages/shared-state/src/postgres.ts:1580-1598 | a run from the start with a maximum of one: reservation, claim, and a claim at lease expiry that is the second attempt |
| AnchorReceiver.AnchorStore.Verify | packages/anchor-receiver/src/store.ts:254-286 | the loop succeeds exactly when the event chain and the table of latest checkpoints agree |
| AnchorReceiver.AnchorStore.AssertFresh | packages/anchor-receiver/src/store.ts:143-152 | the verdict with the cached data version is the verdict of a full verification |
| AnchorReceiver.AnchorStore.IngestEvent | packages/anchor-receiver/src/store.ts:169-246 | the exact answer and next state; the store stays one that verifies |
| AnchorReceiver.IngestKeeps | packages/anchor-receiver/src/store.ts:169-246 | ingesting keeps the log sound, extends it, and keeps each tenant's revisions increasing |
| AnchorReceiver.AnswerMeans | packages/anchor-receiver/src/store.ts:169-246 | what each answer says about the log and the latest checkpoint |
| AnchorProtocol.StepSafe | packages/shared-state/src/postgres.ts:1575-1658 | every step of senders, network and receiver keeps the protocol invariant |
| AnchorProtocol.AcknowledgedIsAnchored | packages/shared-state/src/postgres.ts:1659-1675 | in every run, an acknowledged revision is in the receiver's log with the sender's hash, and the receiver's latest is at least that, from then on |
| AnchorProtocol.ReceiverVerifies | packages/anchor-receiver/src/store.ts:254-286 | in every state of every run the receiver verifies and revisions strictly increase per tenant |
| AnchorProtocol.HonestConflicts | packages/anchor-receiver/src/store.ts:186-246 | honest runs see no integrity or event conflict, and a rollback answer only for a superseded revision |
| AnchorProtocol.RepliesKillOnlySuperseded | packages/managed/src/webhook.ts:137-147 | settling any reply never makes the delivery of the current manifest revision dead |
| ManagedLedger.ManagedStore.InspectTenant | packages/managed/src/store.ts:455-507 | the inspection of one tenant succeeds exactly when rows, manifest and coverage agree |
| ManagedLedger.ManagedStore.AssertManifestFresh | packages/managed/src/store.ts:508-526 | skipping the inspection while the data version is unchanged gives the verdict of a full inspection |
| ManagedLedger.ManagedStore.ReserveKey | packages/managed/src/store.ts:1777-1831 | a reservation behind the cached check does exactly what one behind a full inspection does |
| ManagedLedger.ManagedStore.SettleKey | packages/managed/src/store.ts:1832-1911 | complete and release behind the cached check do exactly what they do behind a full inspection |
| ManagedLedger.ReserveStaysInspected | packages/managed/src/store.ts:527-582 | a reservation on an inspected book leaves an inspected book exactly when the key is taken or, before the call, the queue holds nothing else for the next revision |
| ManagedLedger.SettleStaysInspected | packages/managed/src/store.ts:527-582 | complete and release leave an inspected book exactly when they match no pending row or, before the call, the queue holds nothing else for the next revision |
| ManagedLedger.QueuedAheadFoolsCache | packages/managed/src/store.ts:629-642 | a concrete book with a delivery queued ahead of its revision passes inspection, and after one write passes exactly when that delivery carries the hash of the checkpoint written |
| GuardedAction.InMemoryIdempotencyLedger.Reserve | packages/core/src/action.ts:49-56 | new exactly when the key is free, duplicate for the same fingerprint, conflict otherwise |
| GuardedAction.InMemoryIdempotencyLedger.Complete | packages/core/src/action.ts:58-63 | refuses exactly a missing or different reservation |
| GuardedAction.InMemoryIdempotencyLedger.Release | packages/core/src/action.ts:65-72 | refuses exactly a missing, different or completed reservation |
| GuardedAction.EvaluateGate | packages/core/src/action.ts:352-400 | the idempotency tail of the gate: allowed, blocked or rejected with the exact next ledger |
| GuardedAction.ExecuteGuardedAction | packages/sdk-typescript/src/index.ts:855-892 | reserve, execute, then release or complete: which of these happens and what the ledger is afterwards |
| GuardedAction.RunKeeps | packages/sdk-typescript/src/index.ts:855-892 | every interleaving of calls keeps each reservation held by exactly one call |
| GuardedAction.AtMostOneExecution | packages/sdk-typescript/src/index.ts:855-892 | in every interleaving the executions of a key in flight or succeeded never exceed one |
| GuardedAction.CompletionGoesThrough | packages/core/src/action.ts:58-72 | the in-memory ledger never refuses to complete or release what it let through |
| GuardedAction.RetryOnlyAfterFailure | packages/core/src/action.ts:352-400 | a new call with a key is let through exactly when no call holds the key |
| JsonParser.NumberSound | packages/core/src/strict-json.ts:3 | what the primitive pattern takes as a number is the print of a grammatical number |
| JsonParser.NumberComplete | packages/core/src/strict-json.ts:3 | and it takes the whole of every grammatical number that ends there |
| JsonParser.CharsSound | packages/core/src/strict-json.ts:93 | what JSON.parse reads of a string literal prints back to that text |
| JsonParser.CharsComplete | packages/core/src/strict-json.ts:93 | and it reads every grammatical literal |
| JsonParserProofs.TextSound | packages/core/src/strict-json.ts:19-84 | an accepted text is an RFC 8259 text of the tree found, with distinct names, within both limits |
| JsonParserProofs.TextComplete | packages/core/src/strict-json.ts:19-84 | every such text is accepted, with its tree and node count |
| JsonParserProofs.ParsesExactly | packages/core/src/strict-json.ts:19-84 | acceptance is exactly: an RFC 8259 text with no repeated decoded name, within the node and depth limits |
| JsonParserProofs.Unambiguous | packages/core/src/strict-json.ts:117-130 | a text is the text of one tree with distinct names at most |
| JsonTree.DenoteMeasures | packages/core/src/limits.ts:25-48 | the parsed value has as many nodes and levels as the scanner counts in the text |
| StrictJson.ScanIsParse | packages/core/src/strict-json.ts:86-99 | finding the closing quote first and parsing the slice is parsing the literal in place |
| StrictJson.UniqueKeyScanner.SkipWhitespace | packages/core/src/strict-json.ts:101-104 | the index stops at the first unit that is not whitespace |
| StrictJson.UniqueKeyScanner.Consume | packages/core/src/strict-json.ts:106-110 | takes the expected unit or leaves the index |
| StrictJson.UniqueKeyScanner.ScanString | packages/core/src/strict-json.ts:86-99 | ends after the literal with its decoded text, or throws exactly when there is none |
| StrictJson.UniqueKeyScanner.ScanValue | packages/core/src/strict-json.ts:26-49 | stops where the parse of a value stops with its node count, or throws what the parse fails with |
| StrictJson.UniqueKeyScanner.ScanArray | packages/core/src/strict-json.ts:72-84 | the same for an array |
| StrictJson.UniqueKeyScanner.ScanObject | packages/core/src/strict-json.ts:51-70 | the same for an object, with its growing set of names |
| StrictJson.UniqueKeyScanner.ScanMember | packages/core/src/strict-json.ts:58-64 | one round of the object loop: name, repeated name, colon, value |
| StrictJson.UniqueKeyScanner.Scan | packages/core/src/strict-json.ts:19-24 | the whole text, surrounded by whitespace |
| StrictJson.ParseUnambiguousJson | packages/core/src/strict-json.ts:117-130 | returns exactly on texts within all three limits with distinct names, and then the value of the one tree |
| SafetyLimits.IsWellFormedUnicode | packages/core/src/limits.ts:6-16 | the loop accepts exactly the texts whose surrogates are paired |
| SafetyLimits.AssertJsonSafety | packages/core/src/limits.ts:18-83 | the worklist accepts exactly the values within the node and depth limits with well-formed text |
| SafetyLimits.SameLimits | packages/core/src/limits.ts:28-48 | scanner and worklist enforce the same limits: the text passes exactly when its value does |
| CanonicalJson.StableEquivalent | packages/core/src/hash.ts:3-12 | sorting members changes a value only in member order |
| CanonicalJson.StableDecides | packages/core/src/hash.ts:3-12 | two values sort to the same value exactly when they are equal up to member order |
| CanonicalJson.EncodeDecodes | packages/core/src/hash.ts:14 | the string encoding decodes back, lone surrogates included |
| CanonicalJson.ToValueDenotes | packages/core/src/hash.ts:14 | the printed tree denotes the value |
| CanonicalJson.CanonicalRoundTrip | packages/core/src/hash.ts:13-15 | parsing the canonical print gives back the value, up to member order |
| CanonicalJson.CanonicalNormalForm | packages/core/src/hash.ts:13-15 | canonical prints are equal exactly when the values are equal up to member order |
| SchemaDrift.MultipleSound | packages/core/src/drift.ts:150-190 | a relaxed multipleOf accepts every multiple it accepted before |
| SchemaDrift.BoundSound | packages/core/src/drift.ts:122-148 | a bound reported relaxed or unchanged only widens |
| SchemaDrift.LocalSound | packages/core/src/drift.ts:211-355 | harmless changes keep the keywords on the value itself satisfied |
| SchemaDrift.AcceptsSound | packages/core/src/drift.ts:192-355 | with only harmless changes, and properties gained only by closed objects, every accepted value stays accepted, at every depth |
| SchemaDrift.CompatibleWidens | packages/core/src/drift.ts:15-44 | a verdict of identical or backward compatible, under that guard, means every old call stays valid |
| SchemaDrift.WidensTransitive | packages/shared-state/src/schema.ts:996-1014 | compatible steps compose |
| SchemaDrift.NothingChanges | packages/core/src/drift.ts:192-355 | comparing a schema with itself reports nothing |
| SchemaDrift.GainIsSafeExactlyWhenAccepted | packages/core/src/drift.ts:257-267 | next to any other keywords one more optional property is always reported compatible; it is so exactly when that property accepts what accepted calls had there, hence whenever the object was closed to it |
| SchemaDrift.GainIsSafeExactlyWhenClosed | packages/core/src/drift.ts:257-267 | for an object schema with properties alone it is so exactly when the object was closed or the property accepts everything |
| SchemaDrift.NestedGainIsSafeExactlyWhenClosed | packages/core/src/drift.ts:200-267 | the same verdict, right in the same cases, however deep below declared properties that object stands |
| SchemaDrift.OpenGainBreaksCalls | packages/core/src/drift.ts:257-267 | a concrete open object, reported compatible, that rejects a call it accepted before |
| DriftLog.ChangeLog.Add | packages/core/src/drift.ts:46-54 | pushes one change, with the root path spelled / |
| DriftLog.ChangeLog.CompareTypes | packages/core/src/drift.ts:59-80 | the list grows by exactly the type change |
| DriftLog.ChangeLog.CompareSetConstraint | packages/core/src/drift.ts:82-105 | the list grows by exactly the enumeration changes |
| DriftLog.ChangeLog.CompareConst | packages/core/src/drift.ts:107-120 | the list grows by exactly the constant change |
| DriftLog.ChangeLog.NumericConstraint | packages/core/src/drift.ts:122-148 | the list grows by exactly the change of one bound |
| DriftLog.ChangeLog.CompareMultipleOf | packages/core/src/drift.ts:150-190 | the list grows by exactly the multipleOf change |
| DriftLog.ChangeLog.CompareRequired | packages/core/src/drift.ts:212-231 | the loops push one change for each name newly or no longer required |
| DriftLog.ChangeLog.CompareProperties | packages/core/src/drift.ts:233-256 | the loop over declared properties pushes removals, nested changes and unexplained ones |
| DriftLog.ChangeLog.CompareGained | packages/core/src/drift.ts:257-267 | the loop over gained properties |
| DriftLog.ChangeLog.CompareOthers | packages/core/src/drift.ts:316-354 | the loop over the remaining keywords, annotations being harmless |
| DriftLog.ChangeLog.Compare | packages/core/src/drift.ts:192-355 | one pass pushes exactly the changes of the comparison, in whatever order the keys come |
| DriftLog.DetectSchemaDrift | packages/core/src/drift.ts:15-44 | the verdict and the changes reported are those of the comparison |
| SchemaReleases.ReleaseStore.Verify | packages/shared-state/src/schema.ts:472-518 | the loop succeeds exactly when sources, chain and manifest agree |
| SchemaReleases.ReleaseStore.RegisterSchema | packages/shared-state/src/schema.ts:823-945 | returns the recorded drift of a repeated version, refuses a different one, appends a new one |
| SchemaReleases.ReleaseStore.PromoteSchemaRelease | packages/shared-state/src/schema.ts:946-1086 | the exact result: current release, refusal of an unreviewed breaking change, or a chained new release |
| SchemaReleases.RunKeeps | packages/shared-state/src/schema.ts:946-1086 | after any run the chain verifies and each release is labelled by drift detection against the one it replaced; breaking ones carry evidence |
| SchemaReleases.ReleasesKeepCalls | packages/shared-state/src/schema.ts:996-1014 | releases of one tool in one environment that were all called compatible keep every call of the first valid |
| SchemaRewrites.ConstSame | packages/core/src/compiler.ts:201-224 | a constant and the enumeration of that one value say the same |
| SchemaRewrites.NullableSame | packages/core/src/compiler.ts:432-451 | a two-element type with null and the nullable spelling say the same |
| SchemaRewrites.RefsPreserved | packages/core/src/compiler.ts:396-431 | references and definitions spelled for Google reach the same definitions |
| SchemaRewrites.Preserves | packages/core/src/compiler.ts:118-137 | rewriting every schema position, and the definitions referred to, keeps what is accepted, under every combinator |
| SchemaRewrites.PassIsLossless | packages/core/src/compiler.ts:201-466 | each lossless pass keeps the set of accepted values of a whole schema; the one that spells references anew, where no reference stands under a keyword that holds schemas and is not visited |
| SchemaRewrites.StaysStrict | packages/core/src/compiler.ts:201-224 | replacing constants leaves a well-formed schema |
| CompilerFindings.NoTransformNoChange | packages/core/src/compiler.ts:101-116 | a pass that reports no transformation has left the schema as it was |
| CompilerFindings.CleanIsSupported | packages/core/src/compiler.ts:258-465 | a schema without issues uses only supported keywords in every schema in it, those for additional members included, exactly when these do, which the walk does not visit; for Google always |
| CompilerFindings.ConstantsAside | packages/core/src/compiler.ts:201-224 | replacing constants changes nothing about the schemas for additional members |
| CompilerFindings.CleanIsReached | packages/core/src/compiler.ts:368-466 | a schema with nothing to report for Google has no reference outside the positions visited |
| CompilerFindings.ReferenceLeftBehind | packages/core/src/compiler.ts:118-138 | a concrete schema whose reference stands in additionalProperties, which the walk does not visit: the rewritten schema rejects what the source accepts, and an issue is reported |
| OpenAiNormalization.Refines | packages/core/src/compiler.ts:288-366 | where every required name is declared, a value the normalized schema accepts is accepted by the source once nulls of optional properties are erased |
| OpenAiNormalization.RefinesExactly | packages/core/src/compiler.ts:288-366 | at every schema: the erased value is accepted exactly when each object in it stands under a schema whose required names are declared |
| OpenAiNormalization.RefinesExactlyWhenDeclared | packages/core/src/compiler.ts:331 | of each value a normalized schema accepts the erased form is accepted by the source exactly when its objects, at every depth, stand under schemas whose required names are declared |
| OpenAiNormalization.UndeclaredRequirement | packages/core/src/compiler.ts:331 | a concrete schema that requires an undeclared name: normalized it accepts {}, which the source rejects |
| ContractCompiler.NoPolicyNoChange | packages/core/src/compiler.ts:288-355 | without a policy-authorized transformation normalizing only drops the dialect annotation |
| ContractCompiler.NormalizedSupported | packages/core/src/compiler.ts:258-366 | a normalized schema without issues uses supported keywords throughout exactly when, at the schemas the walk visits and does not close, the schemas for additional members do |
| ContractCompiler.NativeIsUnchanged | packages/core/src/compiler.ts:468-486 | a native or unverified status means the declaration is the source schema itself |
| ContractCompiler.LosslessKeepsMeaning | packages/core/src/compiler.ts:484 | a lossless status means the declaration accepts exactly the values of the source |
| ContractCompiler.PolicyRefines | packages/core/src/compiler.ts:479-483 | a declaration that needed the policy refines the source: the erased value is accepted exactly when its objects, at every depth, stand under schemas whose required names are declared |
| ContractCompiler.DeclarationIsSupported | packages/core/src/compiler.ts:503-520 | a Google declaration uses only supported keywords in every schema in it; an OpenAI one exactly when, at the source schemas the walk visits and does not close, the schemas for additional members do |
| ContractCompiler.KeptAside | packages/core/src/compiler.ts:201-366 | that condition is the same before and after constants are replaced |
| ContractCompiler.AdditionalKeywordDeclared | packages/core/src/compiler.ts:118-138 | a concrete object that may also be null, declared as native with an unsupported keyword below additionalProperties and no issue |
| ContractCompiler.NormalizedKeywordDeclared | packages/core/src/compiler.ts:288-366 | a concrete optional property that normalizing makes to take null and does not close, declared with an unsupported keyword and no issue |
| Decimals.DecimalCanonical | packages/core/src/repair.ts:113-125 | the stripping loop computes the normal form, or none for texts that are no decimals |
| Decimals.NormalKeepsValue | packages/core/src/repair.ts:117-124 | the normal form denotes the same rational number |
| Decimals.CanonicalDecidesValue | packages/core/src/repair.ts:126-127 | normal forms agree exactly when the decimals denote the same rational number, for all lengths and exponents |
| Pointers.UnescapeEscape | packages/core/src/repair.ts:134 | unescaping a reference token undoes the escaping of its key |
| Pointers.DecimalInjective | packages/core/src/repair.ts:157 | different indices are written differently |
| Pointers.RenderInjective | packages/core/src/repair.ts:157-171 | the token texts of a pointer can be read off it |
| RepairContext.Context.ConvertNumber | packages/core/src/repair.ts:53-83 | a string converts exactly when it spells a number whose decimal value survives the round trip, and the rule is allowed |
| RepairContext.Context.ConvertScalar | packages/core/src/repair.ts:46-111 | the conversion of one value and the record pushed for it |
| RepairContext.Context.WalkValue | packages/core/src/repair.ts:144-176 | ends on every schema, pushes exactly the records of the walk, and restores the references being resolved |
| RepairContext.Context.FollowReference | packages/core/src/repair.ts:146-153 | a reference is followed once on each path, and taken out again |
| RepairContext.Context.WalkEachItem | packages/core/src/repair.ts:155-158 | the items in order, each under its index |
| RepairContext.Context.WalkEachMember | packages/core/src/repair.ts:166-174 | the members in order, each under its escaped key |
| RepairContext.RunRepairs | packages/core/src/repair.ts:177-189 | the walk from the root with an empty context |
| RepairWalk.TargetWithin | packages/core/src/repair.ts:129-153 | following a reference strictly shrinks the references not yet being resolved |
| RepairProofs.WalkRefines | packages/core/src/repair.ts:144-176 | where nothing is wrapped, by the rules or by the schema, the output has the input's arrays, keys and lengths, with some strings converted |
| RepairProofs.QuietMonotone | packages/core/src/repair.ts:144-176 | where a walk finds nothing, it finds nothing after more strings were converted |
| RepairProofs.SecondPassFindsNothing | packages/core/src/repair.ts:177-189 | a second pass changes and records nothing, when the wrapping rule is off or nothing next to a reference asks for an array |
| RepairProofs.WrappingNextToReference | packages/core/src/repair.ts:146-158 | a concrete tool schema with wrapping next to a reference whose second pass records more |
| RepairRecords.WalkExact | packages/core/src/repair.ts:53-110 | every recorded change is exact: booleans by spelling, numbers by rational value |
| RepairRecords.WalkReplays | packages/core/src/repair.ts:28-45 | the records of a walk, replayed on its input, give its output |
| RepairRecords.SamePointerSamePlace | packages/core/src/repair.ts:157-171 | two places of one value with the same JSON Pointer are the same place |
| RepairRecords.RepairsReplay | packages/core/src/repair.ts:177-189 | shape kept, records exact, replay gives the output, and no pointer twice |
| AuditChain.AuditStore.VerifyAudit | packages/shared-state/src/control.ts:545-600 | the loop succeeds exactly when rows, anchor and manifest agree, and counts what it checked |
| AuditChain.AuditStore.RecordValidation | packages/shared-state/src/control.ts:1042-1192 | the exact result and next state: repeat, conflict, quota, or a chained event with its counters |
| AuditChain.AuditStore.PurgeExpiredAudits | packages/shared-state/src/control.ts:1229-1315 | the exact number purged and next state; on a consistent history its final check never fails |
| AuditChain.PurgeRetains | packages/shared-state/src/control.ts:1243-1313 | a purge removes a prefix that ends in an expired event, and everything retained is at or after the cutoff |
| AuditChain.RunKeeps | packages/shared-state/src/control.ts:545-600 | after any run the chain verifies and total equals retained plus deleted equals decisions recorded |
| AuditChain.RepeatIsAnswered | packages/shared-state/src/control.ts:1086-1097 | a decision whose audit is retained is answered with the counters as they are, or a conflict when it differs, and changes nothing |
| AuditChain.RepeatChangesNothing | packages/shared-state/src/control.ts:1078-1110 | a decision changes no counter, nor anything else, exactly when it contradicts its envelope, its audit is still retained, or the quota of the month is used up |
| AuditChain.RetainedExactly | packages/shared-state/src/control.ts:1243-1313 | through every run an event is retained exactly as long as no purge finds it, or an event after it, expired |
| AuditChain.RepeatInRun | packages/shared-state/src/control.ts:1078-1110 | after any run that has not purged it, repeating a decision changes no counter, whatever the host and the quota |
| AuditChain.RepeatAfterPurgeCountsAgain | packages/shared-state/src/control.ts:1078-1110 | a concrete run: one decision recorded, purged and recorded again counts twice |
| AuditChain.ManifestAdmitsOneHistory | packages/shared-state/src/control.ts:574-599 | when event hashes do not collide, a manifest admits one sequence of events |
| AlertStore.AlertState.VerifyWith | packages/shared-state/src/alerts.ts:403-484 | the loops succeed exactly when webhooks, alert chain, recipients and delivery rows agree with the manifest |
| AlertStore.AlertState.RecordAlertWithClient | packages/shared-state/src/alerts.ts:580-728 | the exact result: repeat, conflict, or a chained alert with one pending delivery per enabled webhook |
| AlertStore.AlertState.CreateWebhookRow | packages/shared-state/src/alerts.ts:770-841 | a new webhook, or a conflict of name or endpoint |
| AlertStore.AlertState.DisableWebhookRow | packages/shared-state/src/alerts.ts:860-898 | the webhook is disabled once and its live deliveries are given up |
| AlertStore.AlertState.RedriveDelivery | packages/shared-state/src/alerts.ts:913-964 | a dead delivery to an enabled webhook waits again; any other stays |
| AlertStore.AlertState.ClaimDeliveries | packages/shared-state/src/alerts.ts:965-1061 | due deliveries, earliest first, each once, up to the bound or until none is due |
| AlertStore.AlertState.FinishDelivery | packages/shared-state/src/alerts.ts:1062-1140 | delivered, retried with the capped delay, or dead; only under the current lease |
| AlertRuns.StepKeeps | packages/shared-state/src/alerts.ts:580-1140 | every transaction keeps the outbox consistent and delivered rows untouched |
| AlertRuns.RunKeeps | packages/shared-state/src/alerts.ts:580-1140 | so does every run |
| AlertRuns.RunsAreConsistent | packages/shared-state/src/alerts.ts:403-484 | in every run from the start: verification holds, leases exactly while processing, nothing live for disabled webhooks, attempts left while waiting |
| AlertRuns.SafeTwice | packages/shared-state/src/alerts.ts:223-259 | filtering a detail twice filters it once, so stored details pass verification |
| AlertRuns.StepLeavesLost | packages/shared-state/src/alerts.ts:1071-1077 | no operation gives a lost lease back, short of a claim that draws it again |
| AlertRuns.SupersededLeaseChangesNothing | packages/shared-state/src/alerts.ts:1071-1077 | through every run that does not draw it again a lease that is not held stays lost, and finishing under it changes nothing and says so |
| AlertRuns.TakeoverIsForGood | packages/shared-state/src/alerts.ts:984-1077 | after another dispatcher took the row over, the first holder can never again change it, whatever happens since |
| AlertRuns.RepeatedSourceAddsNothing | packages/shared-state/src/alerts.ts:601-615 | a source recorded before adds nothing |
| AlertRuns.ClaimPassesMaximumExactly | packages/shared-state/src/alerts.ts:1005-1012 | the maximum of attempts is passed exactly when the lease of a row that has used them up expires |
| AlertRuns.LeaseExpiryPassesMaximum | packages/shared-state/src/alerts.ts:984-1012 | a run from the start with a maximum of one: webhook, alert, claim, and a claim at lease expiry that is the second attempt |
| RateWindows.FixedWindowRateLimiter.ConsumeCall | packages/managed/src/rate-limit.ts:10-19 | admits a call exactly when the run of its key's calls does, and leaves other keys alone |
| RateWindows.FixedWindowRateLimiter.AdmitsAtMost | packages/managed/src/rate-limit.ts:10-19 | what the limiter has let a key through stays within both bounds |
| RateWindows.TimesLogged | packages/managed/src/rate-limit.ts:10-19 | the run logs each call at its own time |
| RateWindows.RunKeeps | packages/managed/src/rate-limit.ts:10-19 | windows count their calls, are a length apart, and each was opened by a call at its start |
| RateWindows.IntervalsAreBounded | packages/managed/src/rate-limit.ts:10-19 | when no call brings a limit above a cap, each window admits at most the cap, and any half-open interval one window long at most twice the cap, less one when every window was opened by a call |
| RateWindows.SharedRateLimiter.ConsumeRateLimit | packages/shared-state/src/control.ts:910-952 | invalid input, unavailable or revoked key, failed control hash, or admitted exactly when the run of the key's calls, each under its own limit, admits it |
| RateWindows.SharedRateLimiter.RevokeApiKey | packages/shared-state/src/control.ts:888-908 | a key other than the caller's is revoked once and for good, under a new control hash |
| RateWindows.SharedRateLimiter.AdmitsAtMost | packages/shared-state/src/control.ts:910-952 | a key whose callers bring limits of at most a cap is let through at most that often in each window and at most twice as often in any minute |
| RateWindows.BoundIsReached | packages/managed/src/rate-limit.ts:10-19 | both bounds are reached, for every limit of at least one and every length of at least two |
| RateWindows.LimitIsKeptExactlyWhenPositive | packages/managed/src/rate-limit.ts:12-15 | no window of any run admits more than the limit exactly when the limit is at least one, which both callers see to |

## Left out

- ContractCompiler: the passes are functions on schema values; the original updates a private deep copy in place and pushes findings in walk order, so order and in-place update are not captured, findings are sets, and the before and after hashes of a transformation are left out.
- ContractCompiler.PolicyRefines: with OpenAiNormalization.RefinesExactlyWhenDeclared, excludes `anyOf`, `$ref`, enumerations of objects or arrays, and schema-valued `additionalProperties` that contain references, because erasing nulls has no single meaning there; `additionalProperties` is not a position the compiler visits.
- SchemaRewrites.PassIsLossless: takes schemas whose positions hold schemas and that use no `defs` or `ref` keyword, which is what the strict validation at packages/core/src/compiler.ts:145-199 lets through; references other than to direct definitions keep a fixed meaning, as do keywords without a clause in `JsonSchema`, which is why the pass that spells references anew asks for none under them.
- SchemaDrift.CompatibleWidens: the keywords without a clause in `JsonSchema` are one predicate of their values, as the comparison treats them; `pattern` and `format` are predicates of the text; numbers are exact reals; enumeration members are compared by value, where the code compares their printed text and so reports more changes; the detail text of a change is left out.
- JsonSchema: references unfold a given number of times, and every statement holds for all such numbers; `$dynamicRef`, `unevaluatedProperties` and `propertyNames` have no clause of their own.
- RepairProofs.SecondPassFindsNothing: one direction only for the wrapping rule; whether a schema that wraps next to a reference settles in one pass depends on the value and on the numbers converted.
- RepairContext.Context.ConvertScalar: the receipt, its hashes and the explanation are left out.
- Decimals.CanonicalDecidesValue: exponents are unbounded integers; the original reads them as floating point, which differs beyond 2^53 and cannot pass the round trip there.
- RepairContext.Context.ConvertNumber: `Number()` and `String()` are functions of the text; receipts, their hashes and explanations are left out.
- CanonicalJson.CanonicalNormalForm: member order is a strict total order, so ties of `localeCompare` and the reordering of integer-like keys are not modelled; numbers are lexemes.
- SafetyLimits.AssertJsonSafety: values are trees, so cycles, repeated references, symbols, accessors and sparse arrays do not arise.
- SharedActionState.ActionState.VerifyLocked: the control hashes of the manifest row and of delivery rows are taken to be intact; those of reservations and of the reconciliation chain are checked.
- SharedActionState.ActionState.ReconcileReservation: the alert that the source writes in the same transaction and the format checks on identifiers are left out.
- SharedActionState.ActionState.ClaimDue: one tenant's deliveries, keyed by revision, where the source takes one batch across tenants; anchoring is configured.
- SharedActionState.ActionState.FinishDelivery: the last attempt, response status and error code, which no later decision reads, are left out.
- ManagedLedger.ManagedStore.InspectTenant: the control hashes of manifest and delivery rows are taken to be intact.
- ManagedLedger.ManagedStore: reconciliation in the SQLite store follows the shared ledger and is left out; another connection's commit changes the data version and queues nothing ahead.
- GuardedAction.EvaluateGate: only the idempotency tail; risk, policy and approval are decided before it.
- GuardedAction.AtMostOneExecution: idempotency is required and all calls share one in-memory ledger.
- SchemaReleases.ReleaseStore.Verify: the control hashes of the manifest and of the source rows are left out; a schema's hash is a function of it.
- SchemaReleases.ReleaseStore.RegisterSchema: the manifest over registered schemas and the alert on a breaking change are left out.
- SchemaReleases.ReleaseStore.PromoteSchemaRelease: the alert on promotion and the control hashes of rows are left out.
- AuditChain.AuditStore.VerifyAudit: the control hashes of the tenant, anchor and manifest rows and the parsing of envelopes are left out.
- AuditChain.AuditStore.RecordValidation: the observation and the alert written in the same transaction are left out; the agreement of a decision with its envelope is a flag.
- AlertStore.AlertState.VerifyWith: the control hash of the manifest is left out.
- AlertStore.AlertState.ClaimDeliveries: one tenant, without the order of rows due at the same time, and no rows skipped because another transaction has locked them, and no control hash checked again for a claimed row.
- AlertStore.AlertState.CreateWebhookRow: the sealed endpoint and signing secret in the row are left out.
- AlertStore.AlertState: the encryption of credentials and the checks on endpoints are left out; deliveries are keyed by alert and webhook.
- DriftLog.ChangeLog.CompareSetConstraint: members are compared by value, where the code compares their printed text.
- SchemaDrift.GainIsSafeExactlyWhenClosed: the condition a caller can check is stated for objects that say nothing but their properties, at any depth by SchemaDrift.NestedGainIsSafeExactlyWhenClosed; next to other keywords the condition speaks of the calls accepted before.
- AnchorProtocol.AcknowledgedIsAnchored: the sender's tables are not rolled back from outside; the posted body determines the event.
- RateWindows.SharedRateLimiter.ConsumeRateLimit: the tenant and the scopes of the key are left out.
- RateWindows.SharedRateLimiter.RevokeApiKey: the tenant, the scopes and the time of revocation are left out.
- RateWindows.SharedRateLimiter: a row holds the window, the revocation and their control hash; scopes and the tenant a key belongs to are left out.
- HTTP servers, command line, dashboard, network clients, migrations, locks and connection pools, scoring and reports.
