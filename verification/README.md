# MGDS verification model

This project models the parts of MGDS that decide what counts as evidence and what may be released, and proves what
they promise. Check it with Dafny 4.11: `dafny verify dfyconfig.toml`.

| files | model |
|---|---|
| `JsText`, `Json`, `CanonicalJson`, `Ordering`, `Manifests` | JavaScript strings as UTF-16 code units, `JSON.stringify` with its escapes and a parser, the sorted-key printer, sorting, and manifests of hashed parts |
| `Crc32`, `Words`, `PngChunks`, `PngGrammar`, `PngScanner`, `PngDamage` | the bitwise CRC and the PNG scanner against the chunk grammar of RFC 2083 |
| `EventLedger` | the hash-chained ledger and what its head hash pins |
| `JobTrace`, `JobController`, `ReferenceService` | the persisted job state machine, its trace checker, and at-most-once execution with crashes between saves |
| `CampaignPlan`, `CampaignRun`, `Groups`, `Campaign`, `CampaignProperties`, `HostSlots` | planning, the checks of one run, aggregation, slot selection |
| `Runtime`, `Base64`, `Paths`, `Evidence`, `EvidenceAgreement`, `PlayerBuild` | evidence bundles, their builder, their verifier, and the formats of their artifacts |
| `P2Plan`, `P2Gate`, `P2GateProperties` | the release gate: plan check, review target, release subject, decision |
| `Submission`, `SubmissionProperties` | P3 submissions |
| `Redaction` | the bounded rewrite with its shared counter |
| `PolicyContract`, `Policy`, `Budget` | the policy engine and budget sessions against the policy contract |
| `PackageClosure` | the dependency worklist of the Unity package runner |
| `SemanticWorld` | the bounded event queue and its cursor |
| `Sequences` | sums, filters, permutations and products of lists |

## How the model stands to the code

Loops, mutable objects and persisted snapshots are methods and classes; each is tied by its `ensures` to a function or
predicate of its inputs or old state, and the promises are lemmas about that function or predicate. Thrown errors are
results (`None`, `Threw`, `Mismatch`, `false`), never preconditions.

Libraries are parameters: the digest, UTF-8 and base 64 decoding, `JSON.parse`, inflate, Ed25519, AJV, `localeCompare`
and the privacy patterns are functions passed in, and a theorem that needs a fact about one of them asks for it
(`Runtime.Faithful`, `Ordering.StrictTotal`, `SubmissionProperties.KeysMatch`). The digest is never assumed to be free of
collisions: a tamper-evidence theorem says that the contents agree or returns two particular texts of the inputs that
differ and share a digest.

Where the code is less than a reader might expect, the model keeps the code and says exactly when the property holds:

- A head hash pins a ledger up to the order of keys inside its events, and no further (`EventLedger.HeadPinsLedger`,
  `EventLedger.EventsPinLedger`, `EventLedger.KeyOrderIsNotPinned`), because the hashed text is canonical.
- Line 61 of `job-controller.mjs` records the key of every procedure that carries one, but only key-required
  submissions look it up, so a key stays with its job exactly when no other submission of the run takes it
  (`JobController.KeyPinned`, `JobController.KeyTaken`).
- Redacting twice is redacting once exactly for the inputs in which no visited string, once cleaned, still holds an
  escape sequence (`Redaction.IdempotentExactly`, `Redaction.NotIdempotent`).
- Recorded and missing runs add up to the expected ones exactly when no slot that a run names was planned twice
  (`CampaignProperties.CountsAddUp`, `CampaignProperties.RepeatedSlotMiscounts`).
- The identities of a plan are distinct exactly when different combinations of names join to different texts
  (`CampaignPlan.PlanIdsExactly`), which fails for some names with colons (`CampaignPlan.ColonsCollide`).
- A budget session and `consumeBudget` agree on all usages exactly when no dimension of the budget is negative
  (`Budget.AgreeExactly`), and call by call when none is that the usage leaves out (`Budget.CallRefines`).

## Model

| member | source | states |
|---|---|---|
| `Crc32.ComputeCrc` | packages/campaign/src/index.mjs:521-528 | The two nested loops compute the CRC-32 of RFC 2083 section 3.4, as the fold over bytes that the lemmas below are about |
| `Crc32.MaskedShift` | packages/campaign/src/index.mjs:525 | The masked negation in the loop is the conditional polynomial of one shift step |
| `Crc32.UnshiftShift` | packages/campaign/src/index.mjs:525 | One shift step can be undone |
| `Crc32.ShiftUnshift` | packages/campaign/src/index.mjs:525 | One shift step reaches every register value, so with the row above it is a bijection |
| `Crc32.StepByteInjective` | packages/campaign/src/index.mjs:523-526 | Absorbing a byte never merges two register values |
| `Crc32.StateInjective` | packages/campaign/src/index.mjs:523-526 | Absorbing any message never merges two register values |
| `Crc32.CrcAffine` | packages/campaign/src/index.mjs:521-528 | The CRC is affine over XOR: for equal lengths the CRC of a xor b xor c is the XOR of the three CRCs |
| `Crc32.WindowInjective` | packages/campaign/src/index.mjs:523-526 | From one register value, different windows of at most four bytes lead to different register values |
| `Crc32.BurstDetected` | packages/campaign/src/index.mjs:521-528 | Two messages of one length that differ only inside a four-byte window never share a CRC |
| `PngChunks.ChunkAtSound` | packages/campaign/src/index.mjs:468-475 | What is read as a chunk is the encoding of that chunk at that offset |
| `PngChunks.ChunkAtComplete` | packages/campaign/src/index.mjs:468-475 | Every encoded chunk is read back where it stands |
| `PngChunks.SplitUnique` | packages/campaign/src/index.mjs:468-517 | A byte string is the encoding of at most one chunk list |
| `PngGrammar.GrammarOnce` | packages/campaign/src/index.mjs:476-505 | One leading header, at most one palette and one transparency chunk, both before the data, one final end chunk |
| `PngGrammar.GrammarConsecutive` | packages/campaign/src/index.mjs:498-502 | Image data chunks are consecutive and none is empty |
| `PngGrammar.GrammarHasData` | packages/campaign/src/index.mjs:503-504 | There is image data between header and end |
| `PngGrammar.StepKeepsSummary` | packages/campaign/src/index.mjs:476-502 | The scanner's flags after each chunk are exactly what the chunks so far imply, and the turn succeeds exactly when the chunk is legal there |
| `PngScanner.ReadChunk` | packages/campaign/src/index.mjs:468-475 | One turn's bounds, type and CRC checks read exactly the chunk at the offset, or refuse |
| `PngScanner.Turn` | packages/campaign/src/index.mjs:476-502 | The branches of the loop body compute the step on the flags that the grammar proofs use |
| `PngScanner.ValidRows` | packages/campaign/src/index.mjs:507-511 | The filter-byte loop accepts exactly rows of the declared size whose filter byte is at most 4 |
| `PngScanner.ValidImage` | packages/campaign/src/index.mjs:505-514 | The inflated data is accepted exactly when it has the size the header declares and legal rows |
| `PngScanner.ValidPng` | packages/campaign/src/index.mjs:452-519 | The flag-driven loop decides the acceptance predicate; the offset strictly grows |
| `PngScanner.GrammarAccepted` | packages/campaign/src/index.mjs:452-519 | Encoding any chunk list of the grammar gives an accepted byte string |
| `PngScanner.AcceptedSplit` | packages/campaign/src/index.mjs:452-519 | Every accepted byte string splits into signature and a chunk list of the grammar (sections 3.2 and 4.3 of RFC 2083) |
| `PngScanner.AcceptsExactly` | packages/campaign/src/index.mjs:452-519 | Both directions: accepted if and only if such a chunk list exists |
| `PngDamage.CrcDetects` | packages/campaign/src/index.mjs:475 | The CRC notices every change inside a four-byte window |
| `PngDamage.DamageRejected` | packages/campaign/src/index.mjs:475 | Changing at most four adjacent bytes in the type or data of any chunk of an accepted image makes the scanner reject |
| `Json.ParseInverse` | packages/attestation/src/index.mjs:6 | A parser undoes JSON.stringify on every value, escapes, surrogates and control characters included (section 7 of RFC 8259) |
| `Json.StringifyInjective` | packages/attestation/src/index.mjs:6 | No two values have one JSON.stringify text |
| `CanonicalJson.CanonicalArray` | packages/attestation/src/index.mjs:4 | The canonical text of an array is its items' canonical texts between brackets, joined by commas |
| `CanonicalJson.CanonicalObject` | packages/attestation/src/index.mjs:5 | The canonical text of an object is its members in key order, each key quoted and each value canonical |
| `CanonicalJson.CanonicalUnambiguous` | packages/attestation/src/index.mjs:3-7 | Two values print to the same canonical text if and only if they are equal up to the order of object keys at every level |
| `CanonicalJson.ParseCanonical` | packages/attestation/src/index.mjs:3-7 | Parsing a canonical text gives the value back, up to key order |
| `CanonicalJson.NormalizeTwice` | packages/attestation/src/index.mjs:3-7 | Canonical key order is stable: normalizing again changes nothing |
| `CanonicalJson.RecordsAgree` | packages/attestation/src/index.mjs:5 | Records over the same keys are the same exactly when their values are, field by field |
| `EventLedger.VerifyEntries` | packages/artifacts/src/event-ledger.mjs:41-50 | The loop accepts exactly the linked chains and otherwise names the first entry that breaks the chain |
| `EventLedger.EventLedger.Append` | packages/artifacts/src/event-ledger.mjs:25-37 | Appending extends a verified ledger by one entry for the event and keeps it verified; a broken ledger is left alone |
| `EventLedger.AppendVerified` | packages/artifacts/src/event-ledger.mjs:29-34 | One more entry keeps a chain a chain |
| `EventLedger.AppendAllVerified` | packages/artifacts/src/event-ledger.mjs:25-37 | Every sequence of appends leaves a ledger that verifies and holds exactly the events appended |
| `EventLedger.BodyTextDetermines` | packages/artifacts/src/event-ledger.mjs:44-45 | The hashed text determines number, predecessor and event, up to key order inside the event |
| `EventLedger.HeadPinsLedger` | packages/artifacts/src/event-ledger.mjs:39-51 | Two verified ledgers with one head hash have the same length and entries, or two of their entries are exhibited as a digest collision |
| `EventLedger.KeyOrderIsNotPinned` | packages/artifacts/src/event-ledger.mjs:44-45 | Key order inside an event is not pinned: two different ledgers with one head hash, for every digest |
| `EventLedger.EventsPinLedger` | packages/artifacts/src/event-ledger.mjs:25-51 | Conversely to the head hash pinning the ledger, verified ledgers of the same events, up to key order, are the same ledger with the same head hash |
| `EventLedger.FileRoundTrip` | packages/artifacts/src/event-ledger.mjs:20-23 | Splitting and parsing the file's lines gives back exactly the entries written |
| `JobTrace.TerminalHasNoEdge` | scripts/job-trace.mjs:14-24 | The terminal states are exactly those without a legal edge |
| `JobTrace.GrantedOnlyFromQueue` | scripts/job-trace.mjs:14-24 | No edge leads into queued and only queued leads into granted |
| `JobTrace.AssertJobTrace` | scripts/job-trace.mjs:26-43 | The checker accepts exactly the logs with rising numbers and legal edges and, for a job never to be repeated, at most one execution |
| `JobTrace.ChainAccepted` | scripts/job-trace.mjs:26-43 | Every connected chain of transitions is accepted |
| `JobTrace.GrantedOnce` | scripts/job-trace.mjs:14-43 | A chain crosses from queued to granted at most once, at its second event |
| `JobController.JobController.Submit` | packages/controller/src/jobs/job-controller.mjs:36-64 | Submitting returns and saves what the snapshot function says: key and never rules, new job, first event, bindings |
| `JobController.JobController.Transition` | packages/controller/src/jobs/job-controller.mjs:78-93 | A transition returns and saves what the snapshot function says, and saves nothing when it throws |
| `JobController.JobController.Get` | packages/controller/src/jobs/job-controller.mjs:66-71 | Reading a job changes nothing and throws for malformed or unknown identifiers |
| `JobController.JobController.Checkpoint` | packages/controller/src/jobs/job-controller.mjs:95-97 | A checkpoint is a transition to checkpointed with its payload |
| `JobController.JobController.Resume` | packages/controller/src/jobs/job-controller.mjs:99-101 | Resuming is a transition to running without payload |
| `JobController.JobController.Timeout` | packages/controller/src/jobs/job-controller.mjs:103-105 | Timing out is a transition to timed-out without payload |
| `JobController.ReachableConsistent` | packages/controller/src/jobs/job-controller.mjs:36-93 | In every reachable store, with fresh identifiers, each job is told by its log: events 1..n starting with submitted, a connected chain of legal edges to the stored state, attempts counted, checkpoint the last payload |
| `JobController.ReachableLogsAccepted` | packages/controller/src/jobs/job-controller.mjs:78-93 | assertJobTrace accepts the log of every job in a reachable store |
| `JobController.TerminalForever` | packages/controller/src/jobs/job-controller.mjs:78-93 | A job in a terminal state, and its log, are never changed again |
| `JobController.LogsGrow` | packages/controller/src/jobs/job-controller.mjs:89-91 | Logs are only ever extended |
| `JobController.KeyReturnsJob` | packages/controller/src/jobs/job-controller.mjs:38-42 | A submission that requires a bound key returns that job and changes nothing |
| `JobController.RebindsExactly` | packages/controller/src/jobs/job-controller.mjs:61 | Exactly which calls bind a key to another job |
| `JobController.KeyPinned` | packages/controller/src/jobs/job-controller.mjs:38-61 | A key names one job over a whole run if and only if no call of the run rebinds it |
| `JobController.RequiredKeyPinned` | packages/controller/src/jobs/job-controller.mjs:38-61 | A key that only key-required submissions use names one job over a whole run |
| `JobController.KeyTaken` | packages/controller/src/jobs/job-controller.mjs:61 | A submission that does not require its key takes it away from the job that had it: a concrete run |
| `JobController.NeverRepeated` | packages/controller/src/jobs/job-controller.mjs:43-45 | A procedure never to be repeated is refused for the rest of the run |
| `ReferenceService.ReferenceService.RunTask` | packages/controller/src/reference-service.mjs:36-69 | One call, cut off after any number of saves, leaves exactly the surviving store and executions that the step functions say |
| `ReferenceService.ReferenceService.Cancel` | packages/controller/src/reference-service.mjs:71-76 | Cancelling, cut off after any number of saves, leaves exactly the surviving store that the step function says |
| `ReferenceService.ReachableSound` | packages/controller/src/reference-service.mjs:36-76 | The invariant behind at-most-once: every reachable store accounts for each execution by a job that has left granted |
| `ReferenceService.AtMostOnce` | packages/controller/src/reference-service.mjs:36-76 | Over any calls with crashes and restarts between saves, the adapter executes at most once for each truncated task digest |
| `ReferenceService.SucceededMeansExecuted` | packages/controller/src/reference-service.mjs:52-55 | A job stored as succeeded was executed exactly once |
| `ReferenceService.FirstRunExecutes` | packages/controller/src/reference-service.mjs:36-69 | A first run that is not cut off executes once and succeeds |
| `ReferenceService.RerunDoesNothing` | packages/controller/src/reference-service.mjs:41-49 | Running a task again whose job has left the queue changes nothing |
| `CampaignPlan.BuildPlan` | packages/campaign/src/index.mjs:43-86 | The planner succeeds exactly on valid inputs and then returns the product of tasks, hosts, harnesses, seeds and repetitions |
| `CampaignPlan.PlanMembers` | packages/campaign/src/index.mjs:48-78 | The product holds exactly the slots for combinations asked for |
| `CampaignPlan.PlanSize` | packages/campaign/src/index.mjs:48-78 | The number of slots is the product of the five sizes |
| `CampaignPlan.SlotIdsEqual` | packages/campaign/src/index.mjs:58 | Identities are equal exactly when seed, repetition and the joined names are: they are read from the right |
| `CampaignPlan.PlanIdsExactly` | packages/campaign/src/index.mjs:43-86 | The identities of a plan are pairwise distinct if and only if no two different combinations of task, host and harness names join to one text: a check on the names, before planning |
| `CampaignPlan.PlanIdsDistinct` | packages/campaign/src/index.mjs:58 | Slots of a plan have pairwise distinct identities when names hold no colon |
| `CampaignPlan.ColonsCollide` | packages/campaign/src/index.mjs:43-86 | For every list of sealed tasks there is a configuration the planner accepts (hosts a and a::b, harnesses b::c and c) whose plan repeats an identity |
| `CampaignPlan.JoinInjective` | packages/campaign/src/index.mjs:58 | Parts without colons can be read back from their join |
| `CampaignRun.SameRolesExactly` | packages/campaign/src/index.mjs:179 | Comparing canonical texts of role lists is comparing the lists |
| `CampaignRun.NothingReported` | packages/campaign/src/index.mjs:171-196 | The block of checks pushes nothing exactly when the run repeats its slot's eleven sealed fields, every claim holds, and its identity is new |
| `Campaign.AcceptRuns` | packages/campaign/src/index.mjs:151-197 | The loop accepts the first run of every planned slot, and its failure list is empty exactly when all runs are expected, sound and pairwise apart |
| `Campaign.EnforceEvaluatorFairness` | packages/campaign/src/index.mjs:549-555 | No failure exactly when equal fairness keys have equal evaluators |
| `Campaign.EnforceSoakCoverage` | packages/campaign/src/index.mjs:557-566 | No failure exactly when every planned pair of host and harness has an attested soak run long enough |
| `Campaign.EnforceThresholds` | packages/campaign/src/index.mjs:207-212 | No failure exactly when the metrics meet all four thresholds |
| `Campaign.Measure` | packages/campaign/src/index.mjs:200-206 | The metrics are those of the accepted runs: counts, sums, and agreeing groups among all groups |
| `Campaign.Aggregate` | packages/campaign/src/index.mjs:148-236 | The result's status, metrics and missing slots are the ones the declarative predicates give; failures are empty exactly when it is not invalid |
| `CampaignProperties.CountsAddUp` | packages/campaign/src/index.mjs:199-223 | For every run list, recorded and missing runs add up to the expected ones if and only if no slot that a run names was planned twice |
| `CampaignProperties.RepeatedSlotMiscounts` | packages/campaign/src/index.mjs:154-223 | They do not add up for two slots with one identity and a run that names it |
| `CampaignProperties.CountsAddUpForDistinctSlots` | packages/campaign/src/index.mjs:199-223 | For plans with distinct slot identities recorded and missing runs always add up to the expected ones |
| `CampaignProperties.SeedAgreementExactly` | packages/campaign/src/index.mjs:202-204 | seedAgreement is 1 if and only if there is a run and every group is unanimous |
| `CampaignProperties.StatusPermuted` | packages/campaign/src/index.mjs:159-218 | The status does not depend on the order of the runs, whatever the runs are |
| `CampaignProperties.ResultPermuted` | packages/campaign/src/index.mjs:159-231 | Metrics and missing slots do not depend on the order of the runs either, when no slot has two runs |
| `CampaignProperties.PassExactly` | packages/campaign/src/index.mjs:148-236 | pass if and only if runs and slots are in bijection, all eleven fields agree, identities differ, one evaluator serves each task, host, seed and repetition, thresholds hold, and every planned pair has its attested soak |
| `CampaignProperties.FullRates` | packages/campaign/src/index.mjs:200-209 | With a pass-rate threshold of 1 a passing campaign has valid verdicts only |
| `Groups.GroupBy` | packages/campaign/src/index.mjs:283-292 | The grouping loop computes the groups that the partition lemmas are about |
| `Groups.GroupsPartition` | packages/campaign/src/index.mjs:283-292 | Under each key stand exactly the values with that key, in order |
| `Groups.GroupsKeyed` | packages/campaign/src/index.mjs:283-292 | Each key occurs once, and exactly the keys of the values occur |
| `Groups.GroupedOnce` | packages/campaign/src/index.mjs:283-292 | Every value is in one group only, as often as in the list |
| `Groups.CountAgreeing` | packages/campaign/src/index.mjs:202-204 | The counts of unanimous groups and of groups are those of the sets of keys |
| `HostSlots.SelectHostSlots` | packages/campaign-operator/src/index.mjs:12-23 | Selecting fails exactly for unknown hosts and for duplicate or foreign completed slots, and otherwise returns the host's open slots in plan order |
| `HostSlots.SelectionComplete` | packages/campaign-operator/src/index.mjs:12-23 | Completed and selected slots together are all the host has to run, none twice |
| `P2Plan.ConsumeSlots` | packages/release/src/p2-gate.mjs:274-292 | The consuming loop accepts exactly lists in which every slot fits, is expected, comes once, and each host has one environment hash |
| `P2Plan.ExpectedSlots` | packages/release/src/p2-gate.mjs:267-276 | The gate's own four nested loops over hosts, harnesses, seeds and repetitions collect the identities of the planner's product |
| `P2Plan.UnionIsProduct` | packages/release/src/p2-gate.mjs:267-276 | What the gate's loops add and what the planner's loops list have the same identities |
| `P2Plan.ValidPlan` | packages/release/src/p2-gate.mjs:255-296 | The whole check, with its loops, decides the acceptance predicate |
| `P2Plan.AcceptsExactly` | packages/release/src/p2-gate.mjs:255-296 | A plan's slots are acceptable exactly when they permute the planner's product, with one environment hash per host and one task and budget hash pair |
| `P2Plan.PlannedIsAccepted` | packages/release/src/p2-gate.mjs:255-296 | The planner's output for the target configuration, its lists in any order, is accepted |
| `P2Plan.SlotIdDetermines` | packages/release/src/p2-gate.mjs:278-279 | An identity with eight colons names its five parts, whatever texts the parts were |
| `P2Plan.P2Proper` | packages/release/src/p2-gate.mjs:7-16 | The gate's constants make a proper target with ninety runs |
| `Ordering.SortForgetsOrder` | packages/release/src/p2-gate.mjs:285 | Comparing sorted role lists is comparing them up to order |
| `Ordering.SortByPermuted` | packages/release/src/p2-gate.mjs:334-344 | Sorting records with different keys gives one list, whatever order they came in |
| `P2Gate.ReviewBlockers` | packages/release/src/p2-gate.mjs:91-109 | The review part blocks nothing exactly when an approved independent review with no severe finding is bound to report and target and signed |
| `P2Gate.EvaluateGate` | packages/release/src/p2-gate.mjs:19-157 | ready exactly when nothing blocks, exactly when every condition holds; the two hashes are those of the aggregate found |
| `P2GateProperties.ReadyPermuted` | packages/release/src/p2-gate.mjs:19-157 | Handing runs and host evidence over in another order changes neither a ready decision nor its review-target and subject hashes |
| `P2GateProperties.TargetPins` | packages/release/src/p2-gate.mjs:199-222 | Two inputs with one review-target hash agree on plan, run set, projected hosts, result and evaluator trust, or a digest collision is exhibited |
| `P2GateProperties.SubjectPins` | packages/release/src/p2-gate.mjs:159-197 | Two inputs with one subject hash agree on plan, run set, projected hosts, result, both trust maps, review, report and release fingerprint, or a digest collision is exhibited |
| `P2GateProperties.RecordsSuffice` | packages/release/src/p2-gate.mjs:334-336 | With the aggregator's own reader of run records, well-formed records are all that the two theorems above ask of an input |
| `P2GateProperties.ReadyMeansPassed` | packages/release/src/p2-gate.mjs:50-71 | A ready release has one sound, attested, valid run for every combination of the target |
| `P2GateProperties.ReadyP2` | packages/release/src/p2-gate.mjs:50-71 | For the P2 campaign that is ninety runs |
| `Manifests.ManifestPins` | packages/release/src/p2-gate.mjs:174-196 | Manifests with one digest have the same parts, hashed or not, or a collision is exhibited |
| `Manifests.RecordPinned` | packages/release/src/p2-gate.mjs:174-196 | Records over the same keys print alike exactly when their values are the same |
| `Redaction.RedactForEvidence` | packages/redaction/src/index.mjs:7-18 | The recursive method with its shared counter object computes the threaded function below |
| `Redaction.OutputSize` | packages/redaction/src/index.mjs:7-18 | The output has at most one node more than the square of the item limit |
| `Redaction.OutputFits` | packages/redaction/src/index.mjs:8-17 | Nothing lies deeper than one level below maxDepth, no string is longer than maxString or seventeen, no list longer than maxItems, and surviving secret and path keys hold their constants |
| `Redaction.RedactTwice` | packages/redaction/src/index.mjs:7-18 | A second pass counts exactly as the first, despite the shared counter |
| `Redaction.IdempotentExactly` | packages/redaction/src/index.mjs:10 | Redacting twice is redacting once if and only if, walking the input with the depth and counter of the rewrite, every string visited is free of escape sequences once cleaned |
| `Redaction.IdempotentWithoutEscapes` | packages/redaction/src/index.mjs:10 | Redacting again is the identity for every value without the escape character |
| `Redaction.NotIdempotent` | packages/redaction/src/index.mjs:10 | Redacting again is not the identity in general: removing one sequence can put another together |
| `Evidence.BuildCampaignEvidence` | packages/campaign-operator/src/index.mjs:47-85 | The builder returns exactly when its conditions hold, and then the chained, encoded bundle, its bytes and their hash |
| `Evidence.ChainEvents` | packages/campaign-operator/src/index.mjs:54-61 | The mapping loop builds the same chain as repeated appends, or stops at an event that is not publishable |
| `Evidence.VerifyEvidenceBundle` | packages/campaign/src/index.mjs:329-398 | The verifier reports no failure exactly when the acceptance predicate holds |
| `Evidence.CheckArtifacts` | packages/campaign/src/index.mjs:374-393 | The artifact loop accepts exactly lists of acceptable artifacts no two of which share a hash or a role |
| `EvidenceAgreement.BundleRoundTrip` | packages/campaign-operator/src/index.mjs:72-83 | A bundle is read back from its printed record |
| `EvidenceAgreement.SchemaExactly` | packages/campaign/src/index.mjs:345 | A built bundle fits the schema exactly when slot, roles and event objects do |
| `EvidenceAgreement.VerifiedExactly` | packages/campaign/src/index.mjs:329-398 | Every bundle the builder returns is verified with an empty failure list if and only if it is within 64 MiB, slot, roles and events fit the schema, contents fit their roles, and no two artifacts share a digest; the events are values a program can hold |
| `EvidenceAgreement.DifferentBytes` | packages/campaign/src/index.mjs:381 | Artifacts with different bytes share a digest only in a collision, which is exhibited |
| `EvidenceAgreement.LedgerArtifactPins` | packages/campaign/src/index.mjs:413 | Verified bundles whose event-ledger artifacts are one and the same hold the same events, or two entries collide |
| `EvidenceAgreement.ScannerIsBinary` | packages/campaign/src/index.mjs:406-408 | What the PNG scanner accepts cannot be mistaken for text by the privacy check |
| `PlayerBuild.ValidPlayerBuild` | packages/campaign/src/index.mjs:421-439 | The loop accepts exactly builds whose files are portable, intact, publishable and distinct up to case, under a matching artifact hash |
| `PlayerBuild.ArtifactHashPins` | packages/campaign/src/index.mjs:438 | Two valid builds under one artifact hash hold the same files in order, or a collision is exhibited |
| `Runtime.StringifyPortable` | packages/campaign-operator/src/index.mjs:83 | Every printed JSON text survives UTF-8: surrogates are paired or escaped and no byte order mark leads |
| `Runtime.JsonRoundTrip` | packages/campaign-operator/src/index.mjs:83 | A value that a program can hold (exact numbers, no key twice, keys in property order) is read back from its printed bytes by either decoder |
| `Runtime.JsonBytesInjective` | packages/campaign-operator/src/index.mjs:83 | No two values are printed to the same bytes |
| `Base64.DecodeEncode` | packages/campaign-operator/src/index.mjs:70 | Decoding undoes base 64 encoding (section 4 of RFC 4648) |
| `Base64.EncodeDecode` | packages/campaign/src/index.mjs:381 | What the strict decoder reads is exactly what the encoder writes, so re-encoding detects every other text |
| `Base64.EncodeIsBase64` | packages/campaign/src/index.mjs:376 | Encoded texts have the shape the verifier's pattern asks for |
| `Paths.SegmentsJoin` | packages/p3-submission/src/index.mjs:97 | The segments of a path hold no slash and join to it again |
| `Submission.BuildP3Submission` | packages/p3-submission/src/index.mjs:8-42 | The builder returns exactly when its conditions hold, and then the signed bundle, its bytes and their hash |
| `Submission.VerifyP3Submission` | packages/p3-submission/src/index.mjs:44-73 | The verifier returns exactly for acceptable bytes, with the manifest's submission id, the hash of the bytes and the number of artifacts |
| `Submission.CheckItems` | packages/p3-submission/src/index.mjs:53-63 | The artifact loop accepts exactly lists of acceptable artifacts with distinct portable paths |
| `SubmissionProperties.RoundTrip` | packages/p3-submission/src/index.mjs:8-73 | Everything the builder returns is verified under the matching key if and only if it is within 256 MiB, with the same manifest and artifact count, for manifests a program can hold |
| `SubmissionProperties.PayloadDetermines` | packages/p3-submission/src/index.mjs:65 | Equal payload texts come from the same manifest, authority and list of paths and hashes |
| `SubmissionProperties.PayloadHashPins` | packages/p3-submission/src/index.mjs:65-72 | Two accepted submissions with one payload hash carry the same manifest, authority and ordered artifacts, or a collision is exhibited |
| `SubmissionProperties.SameItems` | packages/p3-submission/src/index.mjs:58-59 | Equal artifact bytes are held in one encoding |
| `PackageClosure.DependenciesFor` | scripts/run-unity-package-tests.py:17-38 | The worklist terminates on cyclic graphs and returns the dictionaries of its breadth-first run, with the default framework |
| `PackageClosure.VisitedExactly` | scripts/run-unity-package-tests.py:24-36 | A name is visited exactly when a chain of local packages from the root declares it |
| `PackageClosure.ClosureExactly` | scripts/run-unity-package-tests.py:17-38 | The result holds exactly the root, the reachable local packages under their file entries, the reachable external names under their first versions, and the test framework when absent |
| `PackageClosure.NearestVersion` | scripts/run-unity-package-tests.py:25-29 | The version kept for an external name is one declared at the least distance from the root |
| `PolicyContract.FirstMatch` | scripts/policy-contract.mjs:7-14 | evaluatePolicy returns the first grant that matches, wherever it stands, and none when none matches |
| `Policy.RisksAgree` | packages/policy/src/policy-engine.mjs:1-8 | The engine's risk table and the contract's order risks alike |
| `Policy.FindGrant` | packages/policy/src/policy-engine.mjs:51-56 | The engine's own search stops at the first grant that matches in the contract's sense |
| `Policy.ApprovalsAgree` | scripts/policy-contract.mjs:16-21 | Engine and contract pass the same approvals although they look for faults in different orders |
| `Policy.Authorize` | packages/policy/src/policy-engine.mjs:48-75 | The engine allows exactly when the contract's evaluatePolicy allows under a valid lease and, for exact approvals, assertApproval passes; it hands out the contract's grant, and refuses everything else for the first reason that applies |
| `Policy.OpenBudget` | packages/policy/src/policy-engine.mjs:77-80 | A session is opened exactly for an allowed grant with a budget, over that budget |
| `Budget.BudgetSession.Consume` | packages/policy/src/policy-engine.mjs:24-37 | A call answers and leaves the session as the step function says |
| `Budget.ConsumeBudget` | scripts/policy-contract.mjs:23-31 | The contract's loop returns every dimension reduced, exactly when every dimension has enough |
| `Budget.CallRefines` | packages/policy/src/policy-engine.mjs:24-37 | consumeBudget succeeds on valid entries of a live session exactly when the call succeeds and no dimension left out of the usage is negative; a successful call leaves what it returns |
| `Budget.AgreeExactly` | packages/policy/src/policy-engine.mjs:24-37 | A live session agrees with consumeBudget on all valid usages if and only if no dimension of its remainder is negative |
| `Budget.NegativeBudgetsDiffer` | scripts/policy-contract.mjs:23-31 | With a negative dimension the empty usage separates them |
| `Budget.Conservation` | packages/policy/src/policy-engine.mjs:24-37 | Over any calls, what is left and what was consumed make up the grant in every dimension |
| `Budget.NeverNegative` | packages/policy/src/policy-engine.mjs:29-33 | No dimension of a grant falls below zero |
| `Budget.CallConserves` | packages/policy/src/policy-engine.mjs:24-37 | A failed call leaves the remainder unchanged |
| `Budget.ExhaustionPermanent` | packages/policy/src/policy-engine.mjs:25-31 | After an exhaustion nothing is ever consumed again |
| `SemanticWorld.SemanticWorld.Record` | Packages/org.mgds.unity.semantic/Runtime/SemanticWorld.cs:47-51 | The queue stays the last events of the full history, numbered consecutively, up to the capacity |
| `SemanticWorld.SemanticWorld.Upsert` | Packages/org.mgds.unity.semantic/Runtime/SemanticWorld.cs:28-33 | An upsert of an opaque identifier stores a copy and records one event; any other is refused and changes nothing |
| `SemanticWorld.SemanticWorld.EventsAfter` | Packages/org.mgds.unity.semantic/Runtime/SemanticWorld.cs:41-45 | A page is a slice of the full history, for limits from 1 to 1000 |
| `SemanticWorld.PageExactly` | Packages/org.mgds.unity.semantic/Runtime/SemanticWorld.cs:44 | Reading the bounded queue after a cursor is reading a slice of the unbounded history |
| `SemanticWorld.FollowExactly` | Packages/org.mgds.unity.semantic/Runtime/SemanticWorld.cs:41-51 | Following the cursor page by page with any limits returns every retained later event exactly once, in order, and stops |
| `SemanticWorld.ReadingWhileRecording` | Packages/org.mgds.unity.semantic/Runtime/SemanticWorld.cs:41-51 | While events are recorded, a reader who is not behind by more than the capacity continues without gap or repetition |
| `SemanticWorld.FallenBehind` | Packages/org.mgds.unity.semantic/Runtime/SemanticWorld.cs:41-51 | A reader further behind resumes at the oldest retained event |

## Left out

- Numbers that are not integers, and integers beyond 2^53: JSON numbers are unbounded integers, so `durationMinutes` is a whole number of minutes. Thresholds, rates and budget amounts are reals, without floating-point rounding.
- JavaScript's prototype keys, `undefined` inside printed values, NaN, -0, and the identity of arrays and objects used as set elements or map keys; a run property or evaluator field that is absent is `None`, and an absent `slotId` or `evidenceHash` prints as `null` in the gate's identity list.
- Numeric coercion in comparisons: a duration that is a string, boolean or array is reported as an invalid duration; the schema refuses it in any case.
- `JSON.parse` on texts the printers here do not produce: `Json.Parse` reads compact JSON with integers and keeps members as they stand, repeated keys included; where the verifiers parse, the parser is a parameter that undoes the printer on values a program can hold (`Runtime.Storable`).
- The runtime's own limits on the length of strings, and on arrays other than the list of events.
- The rules of AJV schemas beyond the evidence schema: plan and run schemas are predicates; in the evidence schema lengths count code units.
- SHA-256, Ed25519, inflate, UTF-8 decoding and the privacy patterns themselves: functions and predicates with the assumptions named above.
- Texts that `localeCompare` calls equal although they differ: it is a strict total order on texts.
- The manifest rules of P3 submissions (`validateManifest`) and the preview-version, submitter, capability, scope and evaluator patterns: predicates.
- Host evidence, review and signing records with absent or wrongly typed fields: their fields are typed, and a missing text is the empty text, which every pattern refuses.
- Plans that the schema refuses, in `validP2Plan`: the gate's other condition, the aggregate, already throws for them.
- The wording of error messages; failures carry their kind and the identity they name.
- The value of a blocked gate decision's aggregate beyond its status, metrics and missing slots.
- `sealCampaignInputs`, `loadCampaignEvidence`, `readBoundedEvidenceFile`, checkpoints on disk, key files: file access around the modelled checks. `loadCampaignEvidence` calls the modelled verifier once for each run.
- Two controllers interleaving load and save on one store: the store has no locking, so calls are sequential; saving is one atomic replacement, with crashes between saves in `ReferenceService`.
- Writing the artifact and the report of a run in `ReferenceService`, and the adapter's output: an execution is counted, its result is not kept.
- `EventLedger.append` racing with another writer of the same file.
- `long` overflow of the event sequence, and `AssertEquals`, in `SemanticWorld`.
- Directory listing and symbolic links in the package runner: the local packages and their declared dependencies are a map.
- File system, git, processes, sockets, host attestation, Unity editor code, the MCP and command-line projections: no hard property, or plumbing over libraries.
- `MultiplayerSession`, `PlayerProbeSession`, `GoldenArenaState`, `SecretBroker`, `RecoveryRegistry`, `SandboxPolicy`: they would only add easy members.
- JobController.ReachableConsistent: assumes that the identifier factory never repeats itself, which the code leaves to `crypto.randomUUID`; `ReferenceService` proves it away for its own derived identifiers.
- P2GateProperties.ReadyPermuted: speaks of ready decisions; of a blocked one the hashes may depend on the order, since runs with equal slot identities sort by position.
- EvidenceAgreement.VerifiedExactly: asks for events that a program can hold, in an array of at most 2^32 - 1, and takes the artifacts object as a list with distinct roles, as a JavaScript object has.
