# Replica Fabric, verified

A Dafny model of the parts of Replica Fabric that decide who may serve: the replica-set controller with
its sixteen-factor serving gate, the checkpoint codec with its CRC-64, recovery, failover selection and
placement.

The controller is one object guarded by one mutex, so every public operation is an atomic step.
`ControllerModel` gives each operation as a transition function from a state and arguments to a new state
and a status; `Controller` is the object itself, whose methods update maps, logs and epoch in place and are
each proved to do exactly what the transition function says. A run is a sequence of operations with
arbitrary arguments. The theorems are about all runs.

| file | what it holds |
|---|---|
| `Base`, `Identity`, `IdentityText`, `Enums`, `Records` | machine integers, 128-bit identities, enumerations, the records field for field |
| `Authority` | transition tables, compatibility check, the gate |
| `FailoverOrder` | the comparator that picks a replacement |
| `ControllerModel`, `Controller` | transition functions and the object |
| `Effects` | what each operation accepts and leaves behind, in record fields and constructors alone |
| `Moves`, `Invariants` | how a step can change one replica; what every reachable state keeps |
| `Runs`, `Laws`, `Primary`, `Evidence`, `Witness` | fencing, what follows from one operation over every later run, no resurrection, erasure, single primary, failover, the evidence behind a serving replica, concrete runs |
| `Crc`, `Wire`, `Layout`, `BodyLayout`, `Snapshot`, `FileFormat`, `Recovery` | checksum, Writer and Reader, the layout of every record, checkpoint files, their bytes, recovery |
| `Placement`, `PlacementLaws` | hard constraints, scores, choice; what they mean in the fields of the hosts |

`dafny verify dfyconfig.toml` checks everything.

## How to read it

- Identities come from a stream `source` of which only non-nullness is assumed; each draw advances a counter.
  Time stamps are arguments. Texts are sequences of bytes; wording that the source composes for people
  (reasons, details) is an unspecified constant. A `double` is its 64-bit pattern with a predicate `IsFinite`,
  except in placement, where scores are real numbers.
- A recovery is *lawful* when what it installs satisfied the invariant before its authority was cleared.
  `Recovery.SelfRecoveryIsLawful` shows this of every checkpoint that the controller wrote itself. All other
  operations are lawful with any arguments. The theorems on resurrection, fencing and erasure need no lawfulness.
- `Effects`, `PlacementLaws` and `FileFormat` say what the operations, the scores and the bytes are a second time,
  without the predicates and update functions of the model, and prove that the two agree.
- The codec separates the two sides on purpose. A `Val` is what a `write_*` routine emits, primitive by
  primitive; a `Shape` is what a `read_*` routine demands. `Layout` transcribes both for every record, and the
  two lemmas about a record say that they agree in both directions. `Wire` proves once, for all shapes, that
  reading undoes writing and writing undoes reading, and its `Writer` and `Reader` classes do the work in place.

## Where the code and its documents differ

- `docs/architecture.md:44` says that exactly one primary holds serving authority per set. Promotion demotes
  nobody: `Witness.TwoPrimaries` is a run from a fresh controller at whose end two replicas of one set pass the
  whole gate. `Primary.SinglePrimaryOverRuns` gives the calling discipline that is necessary and sufficient, and
  `Primary.CheckingCallersKeepOnePrimary` a check before each call that suffices.
- The header of the snapshot module promises to reject impossible lifecycle transitions and generations that
  do not fit. `Recovery.ValidationIgnoresGenerations` shows that neither is looked at, and
  `Witness.MismatchIsInstalled` that contents which disagree are installed.
- A REJECTED status does not always mean that nothing changed: `Runs.StrippingRejections` says exactly when it does.
- The writer accepts a NaN, an infinity or a null identity that the reader refuses: `Recovery.SelfRecovery`
  says exactly which checkpoints can be recovered from; `Witness.NamelessSetIsNotRecovered` reaches one that cannot.
- Placement scores are documented as normalised to [0, 1]; `Placement.ScoresAreNormalised` gives the exact condition.
  The accelerator requirement is cast to a signed integer; `Placement.AcceleratorCheckIsExact` says when that matters.
- `try_parse` is described as strict parsing of the canonical form and `from_string` as accepting hyphens in fixed
  positions; upper-case digits and hyphens anywhere are accepted (`IdentityText.TextRoundTrip`, `IdentityText.FromString`).
- `require_healthy` keeps UNKNOWN, STARTING and UNHEALTHY out of promotion and lets FAILED and QUARANTINED pass
  (`Effects.PromotionGates`); the gate then keeps such a replica from serving (`Effects.GateInFields`).
- `docs/architecture.md:24-29` says that a stale producer can neither complete a drain nor retire a replica. Both calls
  carry no worker or boot identity: `Effects.QuiesceEffect` and `Effects.RetirementEffect` state all that they look at.
- A promotion or a failover inside a DRAINING set may make it AVAILABLE again (`Laws.ShutSetServesNothing` lists what can).
- The transition guard in promotion and in draining can never fire; the controller class asserts it instead.

## Model

| member | source | states |
|---|---|---|
| `Runs.GateOverRuns` | src/replica_set_controller.cpp:725-754 | In every state of every lawful run the 16-factor gate holds if and only if the flag, epoch, boot, set lifecycle, health, readiness, warmth and placement are right |
| `Runs.GateRefinement` | include/replicafabric/authority/serving_authority.hpp:66-133 | The same for any state in which the invariant holds: lifecycle, promotion, generations and fingerprint never decide |
| `Runs.ServableNeeds` | include/replicafabric/authority/serving_authority.hpp:51-133 | Whatever the state, a servable replica has all eight conditions and is SERVING and promoted |
| `Effects.GateInFields` | include/replicafabric/authority/serving_authority.hpp:66-133 | In any state, servable means all sixteen conditions, written out |
| `Authority.ReportInFields` | include/replicafabric/authority/serving_authority.hpp:66-133 | The sixteen factors in their order, each with the comparison it stands for |
| `Evidence.EvidenceChain` | src/replica_set_controller.cpp:137-454 | Under a policy that requires health, a serving replica has, since its last provision or recovery, a full warm-up before its latest grant, a latest readiness report with every factor, a latest health report of HEALTHY or DEGRADED and an accepted placement |
| `Evidence.RunIsAccounted` | src/replica_set_controller.cpp:237-345 | At every point of a run the history of accepted events accounts for flag, warmth, health, readiness and placement of a replica |
| `Runs.NoResurrection` | src/snapshot.cpp:469-491 | A replica persisted in SERVING or later never serves after recovery, whatever follows, until it is provisioned again or another checkpoint is recovered |
| `Runs.BeyondWarmingForEver` | src/replica_set_controller.cpp:246-257 | A replica past warming that is not warm stays so over every run of its incarnation |
| `Runs.PhasesNeverGoBack` | src/replica_set_controller.cpp:204-556 | Within one incarnation the phase of the lifecycle never decreases |
| `Runs.StepFollowsTable` | include/replicafabric/authority/transition.hpp:49-97 | Every lifecycle change of a step is an edge of the transition table and does not go back |
| `Runs.DrainedNeverServes` | include/replicafabric/authority/transition.hpp:49-97 | A draining, quiesced, failed or retired replica never serves again in its incarnation, although the table has edges back to READY |
| `Runs.EpochFence` | include/replicafabric/core/replica_set_controller.hpp:211 | A replica of another epoch stays fenced off over every run in which no step sets that very epoch, whether by creating a set or by re-linking |
| `Runs.BootFence` | src/replica_set_controller.cpp:29-53 | A replica of a non-null boot stays fenced off until its worker registers with that very boot again or a re-linking finds the worker registered |
| `Runs.EndedSetNeverServes` | include/replicafabric/authority/transition.hpp:18-46 | Once a set is FAILED or RETIRED none of its replicas ever serves, until a checkpoint is recovered |
| `Laws.DrainingSetServesNothing` | include/replicafabric/authority/serving_authority.hpp:67-69 | Once a set is DRAINING none of its replicas serves over any run without a recovery, a transition of the set to AVAILABLE or DEGRADED, a promotion or a failover in it |
| `Laws.ShutSetServesNothing` | src/replica_set_controller.cpp:441-451 | The same for a set in any state but AVAILABLE and DEGRADED; these three operations are the only ones that open a set |
| `Laws.PromotedOnReadiness` | src/replica_set_controller.cpp:374-375 | At every accepted promotion, and for every replacement chosen in a failover, the latest accepted readiness report since the last provision or recovery had all eleven factors set |
| `Laws.NoServiceWithoutGrant` | src/replica_set_controller.cpp:404-424 | A replica without the flag does not serve, whatever messages, epochs, boots or re-linking follow, until an accepted promotion to PRIMARY or a failover that names it |
| `Laws.FailingReportEndsService` | src/replica_set_controller.cpp:291-303 | So after an accepted report of FAILED or UNHEALTHY, however healthy the later reports |
| `Laws.OtherPromotionEndsService` | src/replica_set_controller.cpp:419-424 | So after a promotion to anything but PRIMARY |
| `Laws.RestartIsFinal` | src/replica_set_controller.cpp:33-50 | What a worker was serving when it registered again under another boot never serves again in its incarnation |
| `Laws.DisconnectIsFinal` | src/replica_set_controller.cpp:60-76 | Nor does what was READY, SERVING or DRAINING on a worker that left |
| `Laws.RecoveredIsUnlinked` | README.md:114-118 | After a recovery and until re-linking, every message with a boot identity is refused without a trace and no replica of a registered worker serves |
| `Runs.ErasureKeepsTheRun` | src/replica_set_controller.cpp:243-245 | Deleting any chosen subset of the discarded operations from a run leaves maps, logs, epoch and the identity supply at its end identical |
| `Runs.StaleMessagesAreErasable` | src/replica_set_controller.cpp:354-356 | In particular all messages of another worker incarnation can be deleted from a run |
| `Runs.StaleBootIsDiscarded` | src/replica_set_controller.cpp:354-356 | Warm, health, readiness, promote, drain and fail messages of another worker incarnation are discarded |
| `Runs.DiscardedLeavesNoTrace` | src/replica_set_controller.cpp:267-269 | A discarded operation changes nothing |
| `Runs.StrippingRejections` | src/replica_set_controller.cpp:524-534 | The two rejections that do change the state: failover without a candidate always, a refused failure unless it repeats itself |
| `Primary.SinglePrimaryOverRuns` | src/replica_set_controller.cpp:405-424 | A run never has two eligible replicas in a set if and only if every promotion to PRIMARY and every failover kept the calling discipline |
| `Primary.CheckingCallersKeepOnePrimary` | src/replica_set_controller.cpp:347-453 | A caller that looks before each PRIMARY promotion and each failover whether another replica is eligible never brings about a second one |
| `Primary.SinglePrimaryStep` | src/replica_set_controller.cpp:570-646 | Exactly the disciplined steps keep at most one eligible replica per set |
| `Primary.GrantingStep` | src/replica_set_controller.cpp:405-424 | A promotion adds its replica to the eligible ones; a failover turns E into (E minus failed) plus the replacement |
| `Primary.OnlyGrantsEnlarge` | src/replica_set_controller.cpp:29-556 | No other operation enlarges the eligible replicas of a set |
| `Primary.SecondPrimaryIsAccepted` | docs/architecture.md:44 | An accepted promotion beside an eligible replica leaves two of them |
| `Witness.TwoPrimaries` | docs/architecture.md:44 | A run from a fresh controller, every promotion gate demanded, at whose end two replicas of one set pass the whole gate: the documented exactly-one does not hold by itself |
| `Witness.AReplicaServes` | src/replica_set_controller.cpp:347-453 | A run from a fresh controller that meets the hypotheses of `Evidence.EvidenceChain` |
| `Witness.FailoverHandsOver` | src/replica_set_controller.cpp:558-690 | A run in which failover makes the second replica serve and stops the first |
| `Witness.MismatchIsInstalled` | src/snapshot.cpp:454-491 | Contents whose replica carries another generation than its set are accepted and installed, and break the invariant |
| `Witness.NamelessSetIsNotRecovered` | src/replica_set_controller.cpp:90-103 | A set with the null identity is accepted, and the checkpoint that holds it is refused |
| `Primary.FailedCannotServe` | src/replica_set_controller.cpp:558-584 | After a failover, successful or not, the failed replica cannot serve |
| `Primary.FailoverSetsLifecycle` | src/replica_set_controller.cpp:676-690 | After success the set is DEGRADED exactly when its HEALTHY replicas are fewer than `min_healthy`, else AVAILABLE; success means a candidate existed |
| `Primary.ReplacementServes` | src/replica_set_controller.cpp:586-646 | The replacement serves if and only if it was of the current epoch, of the current boot and WARM |
| `Primary.FailoverChoice` | src/replica_set_controller.cpp:598-619 | A STANDBY is chosen whenever one qualifies and the policy prefers it, then another worker whenever the policy asks for diversity, then, among those that tie, the least identity, under every policy |
| `FailoverOrder.BeforeIsStrictTotalOrder` | src/replica_set_controller.cpp:598-619 | Under every policy the comparator is a strict total order on candidates with distinct identities |
| `FailoverOrder.FirstIsTheOnlyChoice` | src/replica_set_controller.cpp:637 | The head of any sorted arrangement is the unique minimum, whatever the enumeration order |
| `FailoverOrder.SortCandidates` | src/replica_set_controller.cpp:607-619 | Sorting keeps the candidates and orders them by the comparator |
| `Invariants.RunKeepsInv` | src/replica_set_controller.cpp:29-690 | The invariant (coherence, references, capacity, audit) holds in every state of every lawful run |
| `Invariants.StepKeepsInv` | src/replica_set_controller.cpp:29-690 | Every lawful operation keeps the invariant |
| `Invariants.MoveKeepsCoherence` | src/replica_set_controller.cpp:383-424 | Eligible flag, PRIMARY promotion and PRIMARY role stay equivalent and imply SERVING and, when demanded, compatibility |
| `Invariants.MoveFollowsTable` | include/replicafabric/authority/transition.hpp:49-97 | Each way a replica can change moves along the table |
| `Invariants.StepCapacity` | src/replica_set_controller.cpp:137-163 | No step lets a set exceed `max_replicas` |
| `Invariants.StepReplica` | src/replica_set_controller.cpp:164-202 | Replicas keep referring to an existing set with equal generations and fingerprint, under their own key |
| `Invariants.StepPromotionAudit` | src/replica_set_controller.cpp:426-438 | The last promotion record of an eligible replica is PRIMARY and carries its replica and set generation |
| `Invariants.StepDrainAudit` | src/replica_set_controller.cpp:474-511 | Every DRAINING replica has an open drain record |
| `Invariants.ClosingSparesOthers` | src/replica_set_controller.cpp:503-511 | Completing a drain closes no record of another replica |
| `Invariants.RecoveryKeepsInv` | src/snapshot.cpp:469-491 | Installing a checkpoint of a good state keeps the invariant |
| `Moves.StepMoves` | src/replica_set_controller.cpp:29-690 | Every operation changes each replica by one of the listed moves |
| `Moves.StepSets` | src/replica_set_controller.cpp:105-117 | Sets change only their lifecycle, along the table |
| `Moves.StepKeys` | src/replica_set_controller.cpp:137-202 | Only provisioning adds a replica and nothing removes one, recovery aside |
| `Controller.ReplicaSetController.RegisterWorker` | src/replica_set_controller.cpp:29-53 | Registers the worker; a new boot fails exactly the SERVING replicas of the old one; in place, as the transition function says |
| `Controller.ReplicaSetController.UnregisterWorker` | src/replica_set_controller.cpp:55-79 | Removes a known worker and strips exactly its replicas with any authority; an unknown one is rejected without a trace |
| `Controller.ReplicaSetController.CreateReplicaSet` | src/replica_set_controller.cpp:90-103 | Duplicates are rejected before bad counts; otherwise the set is stored and the epoch adopted |
| `Controller.ReplicaSetController.TransitionReplicaSet` | src/replica_set_controller.cpp:105-117 | Moves a set along its table: INVALID for an unknown edge, REJECTED for an unknown set |
| `Controller.ReplicaSetController.ProvisionReplica` | src/replica_set_controller.cpp:137-202 | Set, worker and capacity checks in the order of the code, two identities drawn, the replica declared (anew, if it existed) |
| `Controller.ReplicaSetController.SetAllocating` | src/replica_set_controller.cpp:204-219 | Assigns the placement, PENDING when its identity is null |
| `Controller.ReplicaSetController.SetStarting` | src/replica_set_controller.cpp:221-235 | Starts the replica with its time stamps |
| `Controller.ReplicaSetController.WarmReplica` | src/replica_set_controller.cpp:237-259 | A full warm-up makes the replica WARM, a partial one WARMING; a stale boot is refused |
| `Controller.ReplicaSetController.ReportHealth` | src/replica_set_controller.cpp:261-305 | Stale boot, ended replica, wrong epoch and wrong round are refused; a failing report takes authority away |
| `Controller.ReplicaSetController.ReportReadiness` | src/replica_set_controller.cpp:307-345 | Records the report and moves to READY or back |
| `Controller.ReplicaSetController.PromoteReplica` | src/replica_set_controller.cpp:347-453 | All promotion gates, the fresh health round, one record and the derived set lifecycle |
| `Controller.ReplicaSetController.DrainReplica` | src/replica_set_controller.cpp:455-483 | Takes authority away and opens one drain record |
| `Controller.ReplicaSetController.CompleteDrain` | src/replica_set_controller.cpp:485-513 | Quiesces the replica and closes the first open record |
| `Controller.ReplicaSetController.FailReplica` | src/replica_set_controller.cpp:515-537 | Strips the replica even when the transition to FAILED is then refused |
| `Controller.ReplicaSetController.RetireReplica` | src/replica_set_controller.cpp:539-556 | Retires and clears what the replica held |
| `Controller.ReplicaSetController.TriggerFailover` | src/replica_set_controller.cpp:558-690 | Marks the failed replica, gathers, sorts, hands over, writes both records and derives the set lifecycle; rejected without candidate after marking |
| `Controller.ReplicaSetController.constructor` | src/replica_set_controller.cpp:15-25 | A fresh controller has empty tables and logs and the null epoch |
| `Controller.ReplicaSetController.Servable` | src/replica_set_controller.cpp:725-754 | Evaluating all factors for the current state decides as the gate of the theorems about runs |
| `Controller.ReplicaSetController.ListReplicas` | src/replica_set_controller.cpp:698-706 | The members of the set, each once, in ascending order |
| `Controller.ReplicaSetController.SetEpoch` | include/replicafabric/core/replica_set_controller.hpp:211 | Sets the epoch and nothing else |
| `Effects.RegistrationEffect` | src/replica_set_controller.cpp:29-53 | The SERVING replicas of a worker that returns under another boot fail; every other replica stays as it was |
| `Effects.DisconnectionEffect` | src/replica_set_controller.cpp:55-79 | Replicas of the worker that were eligible, SERVING, READY or DRAINING fail; all others stay |
| `Effects.CreationEffect` | src/replica_set_controller.cpp:90-103 | Accepted exactly for a new identity with 0 < min <= max and 0 < desired <= max |
| `Effects.TransitionEffect` | include/replicafabric/authority/transition.hpp:18-46 | A set moves exactly along the fifteen listed edges |
| `Effects.ReplicaTable` | include/replicafabric/authority/transition.hpp:49-97 | The replica table row by row |
| `Effects.ProvisionEffect` | src/replica_set_controller.cpp:137-202 | Acceptance and every field of the new replica |
| `Effects.AllocationEffect` | src/replica_set_controller.cpp:204-219 | Only from DECLARED |
| `Effects.StartEffect` | src/replica_set_controller.cpp:221-235 | Only from DECLARED, ALLOCATING or WARMING |
| `Effects.WarmingEffect` | src/replica_set_controller.cpp:237-259 | Only from STARTING, WARMING or READY; WARM when the warm-up is done, needs no step or has completed none |
| `Effects.HealthEffect` | src/replica_set_controller.cpp:261-305 | FAILED and UNHEALTHY count as failures modulo 2^32 and turn a primary into a standby; other reports reset the count and leave authority alone |
| `Effects.ReadinessEffect` | src/replica_set_controller.cpp:307-345 | All eleven factors decide; a replica that starts or warms becomes READY by them and none leaves READY for lack of them |
| `Effects.PromotionGates` | src/replica_set_controller.cpp:347-402 | A promotion is accepted if and only if every gate passes, written out; otherwise nothing changes |
| `Effects.PromotionEffect` | src/replica_set_controller.cpp:404-453 | The promoted replica, its record, the identities drawn and the lifecycle derived from the count of HEALTHY replicas |
| `Effects.DrainEffect` | src/replica_set_controller.cpp:455-483 | Only from READY or SERVING; authority goes and one record opens |
| `Effects.QuiesceEffect` | src/replica_set_controller.cpp:485-513 | Only from DRAINING without requests or by force; the first open record of the replica closes, none other |
| `Effects.FailureEffect` | src/replica_set_controller.cpp:515-537 | The replica is stripped whether or not the call is then refused |
| `Effects.RetirementEffect` | src/replica_set_controller.cpp:539-556 | From every lifecycle but RETIRED |
| `Effects.FailoverGates` | src/replica_set_controller.cpp:558-596 | A failover succeeds if and only if some other replica of the set is READY or SERVING, ready, HEALTHY or DEGRADED, compatible, assigned and of the set generation |
| `Effects.FutileFailoverEffect` | src/replica_set_controller.cpp:570-634 | Without one the failed replica is marked, the attempt recorded, and nothing else |
| `Effects.FailoverEffect` | src/replica_set_controller.cpp:636-690 | Of all that qualify the preferred one takes over, both records say so and the set is derived again |
| `Effects.RanksInOrder` | src/replica_set_controller.cpp:598-606 | STANDBY, CANARY, REPLACEMENT, RECOVERED, then the rest |
| `Effects.RecoveryGates` | src/snapshot.cpp:454-467 | Validation looks at null identities, known sets and counts and at nothing else |
| `Effects.RecoveryEffect` | src/snapshot.cpp:469-491 | Every recovered replica without boot, authority, readiness, warmth or health, and otherwise as in the checkpoint |
| `Effects.RecoveredWorkers` | src/snapshot.cpp:487 | Of several registrations of one worker the first is kept |
| `Effects.RelinkEffect` | apps/cli/rf_cli.cpp:46-57 | Replicas of registered workers take their boot; the epoch is that of the least replica |
| `Controller.RelinkAuthority` | apps/cli/rf_cli.cpp:46-57 | Re-links boots and adopts the epoch of the first replica |
| `Controller.ChoiceIsUnique` | src/replica_set_controller.cpp:598-646 | Whatever order the candidates are gathered in, the sorted head is the specified choice |
| `Authority.EvaluateServingAuthority` | include/replicafabric/authority/serving_authority.hpp:51-136 | Factor by factor evaluation: the decision lists all sixteen, is eligible if and only if all hold, and names the first that fails |
| `Authority.ReportDecides` | include/replicafabric/authority/serving_authority.hpp:66-133 | The accumulated list decides exactly as the conjunction of the factors |
| `Authority.ExtendedIsFaithful` | include/replicafabric/authority/serving_authority.hpp:58-64 | Adding factors keeps eligibility equal to all-satisfied and the rejection equal to the first failure |
| `Compatibility.CheckCompatibility` | include/replicafabric/core/compatibility.hpp:118-180 | Compatible if and only if every requirement is met; one issue per unmet requirement |
| `Compatibility.NoIssuesMeansCompatible` | include/replicafabric/core/compatibility.hpp:118-180 | The issue list is empty exactly for compatible replicas |
| `Effects.CompatibilityInFields` | include/replicafabric/core/compatibility.hpp:118-180 | A compatible replica agrees with its set in every field but spare adapters and spare compute capability |
| `Compatibility.DeviationsByName` | include/replicafabric/core/compatibility.hpp:118-180 | A deviation in one field is reported under the name of that field |
| `Identity.IdBytesInverse` | include/replicafabric/core/identity.hpp:75-88 | `to_bytes` and `from_bytes` are inverse in both directions |
| `Identity.FromBytes` | include/replicafabric/core/identity.hpp:75-81 | The shifting loop computes the inverse of `to_bytes` |
| `Identity.IdTextOrder` | include/replicafabric/core/identity.hpp:91-154 | Canonical strings compare exactly as `operator<` does and are equal only for equal identities |
| `Identity.OrderedIsUnique` | src/snapshot.cpp:360-362 | A key set has one ascending enumeration |
| `Identity.SortedKeys` | src/snapshot.cpp:360-362 | Selecting least keys yields it |
| `IdentityText.ParsesIffLowerCaseMatches` | include/replicafabric/core/identity.hpp:127-135 | A text parses to an identity if and only if its lower-case form is that identity's string |
| `IdentityText.TextRoundTrip` | include/replicafabric/core/identity.hpp:91-135 | Writing then parsing is the identity; parsing then writing is so exactly for texts without upper-case letters |
| `IdentityText.IdentityInText` | include/replicafabric/core/identity.hpp:38-47 | The 32 digits of an identity, most significant first, in lower case |
| `IdentityText.FromString` | include/replicafabric/core/identity.hpp:102-124 | Hyphens are skipped wherever they stand; the rest must be 32 digits |
| `Crc.ComputeCrc64` | src/snapshot.cpp:29-34 | The table-driven loop computes the CRC |
| `Crc.MakeTable` | src/snapshot.cpp:14-24 | Each entry is eight shifts of its index |
| `Crc.TableStepIsFeed` | src/snapshot.cpp:32 | One table lookup equals eight turns of the shift register |
| `Crc.FeedIsBitSerial` | src/snapshot.cpp:18-20 | Feeding bits one by one, as bit-serial division does, equals adding them first and shifting |
| `Crc.ShiftsLinear` | src/snapshot.cpp:19 | Shifting is linear over exclusive-or |
| `Crc.ShiftsInjective` | src/snapshot.cpp:19 | Shifting loses nothing |
| `Crc.ResidueIsZero` | src/snapshot.cpp:392 | Eight bytes clear the register if and only if they are its content, least significant first |
| `Crc.BurstsAreDetected` | src/snapshot.cpp:29-34 | Messages that differ only within eight consecutive bytes have equal checksums if and only if they are equal |
| `FileFormat.PolynomialIsEcma` | README.md:111 | The generator polynomial is that of Annex B of ECMA-182, term by term |
| `FileFormat.KnownChecksums` | src/snapshot.cpp:29-34 | The checksums of the empty message and of three single bytes |
| `Wire.ReadAfterWrite` | src/snapshot.cpp:37-88 | Whatever the Writer emits the Reader reads back exactly, unless a double is NaN or infinite, which it refuses |
| `Wire.WriteAfterRead` | src/snapshot.cpp:53-88 | Whatever the Reader accepts is byte for byte what the Writer would emit |
| `Wire.ItemsTakeSpace` | src/snapshot.cpp:108 | A written count never exceeds the bytes after it, so the reader's `remaining` check passes |
| `Wire.PrefixFree` | src/snapshot.cpp:53-88 | Two values of one shape at one place are equal |
| `Wire.Writer.Put` | src/snapshot.cpp:37-51 | The buffer grows by exactly the encoding |
| `Wire.Reader.Get` | src/snapshot.cpp:53-88 | Accepts, returns and advances exactly as the decoding function says |
| `Layout.ComputeCapabilityReads` | src/snapshot.cpp:94-95 | What the writer emits fits the reader, field for field, reads back to the same record, and is refused only for a NaN or infinity |
| `Layout.ComputeCapabilityWrites` | src/snapshot.cpp:94-95 | What the reader reads is written back unchanged |
| `Layout.DeviceCapabilityReads` | src/snapshot.cpp:96-103 | What the writer emits fits the reader, field for field, reads back to the same record, and is refused only for a NaN or infinity |
| `Layout.DeviceCapabilityWrites` | src/snapshot.cpp:96-103 | What the reader reads is written back unchanged |
| `Layout.BackendCapabilityReads` | src/snapshot.cpp:97-104 | What the writer emits fits the reader, field for field, reads back to the same record, and is refused only for a NaN or infinity |
| `Layout.BackendCapabilityWrites` | src/snapshot.cpp:97-104 | What the reader reads is written back unchanged |
| `Layout.ResourceInventoryReads` | src/snapshot.cpp:98-113 | What the writer emits fits the reader, field for field, reads back to the same record, and is refused only for a NaN or infinity |
| `Layout.ResourceInventoryWrites` | src/snapshot.cpp:98-113 | What the reader reads is written back unchanged |
| `Layout.HealthPolicyReads` | src/snapshot.cpp:133-141 | What the writer emits fits the reader, field for field, reads back to the same record, and is refused only for a NaN or infinity |
| `Layout.HealthPolicyWrites` | src/snapshot.cpp:133-141 | What the reader reads is written back unchanged |
| `Layout.WarmingPolicyReads` | src/snapshot.cpp:142-152 | What the writer emits fits the reader, field for field, reads back to the same record, and is refused only for a NaN or infinity |
| `Layout.WarmingPolicyWrites` | src/snapshot.cpp:142-152 | What the reader reads is written back unchanged |
| `Layout.DrainingPolicyReads` | src/snapshot.cpp:153-159 | What the writer emits fits the reader, field for field, reads back to the same record, and is refused only for a NaN or infinity |
| `Layout.DrainingPolicyWrites` | src/snapshot.cpp:153-159 | What the reader reads is written back unchanged |
| `Layout.PromotionPolicyReads` | src/snapshot.cpp:160-168 | What the writer emits fits the reader, field for field, reads back to the same record, and is refused only for a NaN or infinity |
| `Layout.PromotionPolicyWrites` | src/snapshot.cpp:160-168 | What the reader reads is written back unchanged |
| `Layout.FailoverPolicyReads` | src/snapshot.cpp:169-170 | What the writer emits fits the reader, field for field, reads back to the same record, and is refused only for a NaN or infinity |
| `Layout.FailoverPolicyWrites` | src/snapshot.cpp:169-170 | What the reader reads is written back unchanged |
| `Layout.PolicyBundleReads` | src/snapshot.cpp:171-172 | What the writer emits fits the reader, field for field, reads back to the same record, and is refused only for a NaN or infinity |
| `Layout.PolicyBundleWrites` | src/snapshot.cpp:171-172 | What the reader reads is written back unchanged |
| `Layout.PlacementPolicyReads` | src/snapshot.cpp:174-185 | What the writer emits fits the reader, field for field, reads back to the same record, and is refused only for a NaN or infinity |
| `Layout.PlacementPolicyWrites` | src/snapshot.cpp:174-185 | What the reader reads is written back unchanged |
| `Layout.CompatibilityRequirementsReads` | src/snapshot.cpp:187-198 | What the writer emits fits the reader, field for field, reads back to the same record, and is refused only for a NaN or infinity |
| `Layout.CompatibilityRequirementsWrites` | src/snapshot.cpp:187-198 | What the reader reads is written back unchanged |
| `Layout.ReplicaCompatibilityReads` | src/snapshot.cpp:199-210 | What the writer emits fits the reader, field for field, reads back to the same record, and is refused only for a NaN or infinity |
| `Layout.ReplicaCompatibilityWrites` | src/snapshot.cpp:199-210 | What the reader reads is written back unchanged |
| `Layout.HealthRecordReads` | src/snapshot.cpp:212-220 | What the writer emits fits the reader, field for field, reads back to the same record, and is refused only for a NaN or infinity |
| `Layout.HealthRecordWrites` | src/snapshot.cpp:212-220 | What the reader reads is written back unchanged |
| `Layout.ReadinessRecordReads` | src/snapshot.cpp:221-234 | What the writer emits fits the reader, field for field, reads back to the same record, and is refused only for a NaN or infinity |
| `Layout.ReadinessRecordWrites` | src/snapshot.cpp:221-234 | What the reader reads is written back unchanged |
| `Layout.WarmingRecordReads` | src/snapshot.cpp:235-247 | What the writer emits fits the reader, field for field, reads back to the same record, and is refused only for a NaN or infinity |
| `Layout.WarmingRecordWrites` | src/snapshot.cpp:235-247 | What the reader reads is written back unchanged |
| `Layout.ReplicaSetStateReads` | src/snapshot.cpp:249-265 | What the writer emits fits the reader, field for field, reads back to the same record, and is refused only for a NaN or infinity |
| `Layout.ReplicaSetStateWrites` | src/snapshot.cpp:249-265 | What the reader reads is written back unchanged |
| `Layout.ReplicaStateReads` | src/snapshot.cpp:267-306 | What the writer emits fits the reader, field for field, reads back to the same record, and is refused only for a NaN or infinity |
| `Layout.ReplicaStateWrites` | src/snapshot.cpp:267-306 | What the reader reads is written back unchanged |
| `Layout.WorkerRegistrationReads` | src/snapshot.cpp:308-316 | What the writer emits fits the reader, field for field, reads back to the same record, and is refused only for a NaN or infinity |
| `Layout.WorkerRegistrationWrites` | src/snapshot.cpp:308-316 | What the reader reads is written back unchanged |
| `Layout.PromotionRecordReads` | src/snapshot.cpp:317-326 | What the writer emits fits the reader, field for field, reads back to the same record, and is refused only for a NaN or infinity |
| `Layout.PromotionRecordWrites` | src/snapshot.cpp:317-326 | What the reader reads is written back unchanged |
| `Layout.DrainRecordReads` | src/snapshot.cpp:327-335 | What the writer emits fits the reader, field for field, reads back to the same record, and is refused only for a NaN or infinity |
| `Layout.DrainRecordWrites` | src/snapshot.cpp:327-335 | What the reader reads is written back unchanged |
| `Layout.FailoverRecordReads` | src/snapshot.cpp:336-350 | What the writer emits fits the reader, field for field, reads back to the same record, and is refused only for a NaN or infinity |
| `Layout.FailoverRecordWrites` | src/snapshot.cpp:336-350 | What the reader reads is written back unchanged |
| `BodyLayout.BodyReads` | src/snapshot.cpp:358-388 | The six tables and the epoch read back to the same contents |
| `BodyLayout.BodyWrites` | src/snapshot.cpp:421-450 | A body that was read is written back unchanged |
| `Snapshot.MakeSnapshot` | src/snapshot.cpp:353-394 | The file of the controller's contents: tables in ascending order, logs as they are |
| `Snapshot.DecodeSnapshot` | src/snapshot.cpp:396-452 | Decodes exactly as specified, duplicates and left-over bytes refused |
| `Snapshot.ReadFrame` | src/snapshot.cpp:400-419 | The body if magic, versions, length and checksum are right |
| `Snapshot.LengthIsExact` | src/snapshot.cpp:414-416 | Despite the wrapping sum, a length is accepted if and only if the file is 32 bytes longer than its body |
| `Snapshot.UnframeOfFile` | src/snapshot.cpp:390-393 | A written file gives back its body |
| `Snapshot.FileOfUnframe` | src/snapshot.cpp:400-419 | An accepted file is what would be written for its body |
| `Snapshot.DamageIsDetected` | src/snapshot.cpp:419 | Damage within eight consecutive bytes of an accepted file, wherever they lie, is refused |
| `Snapshot.NoAcceptedPrefix` | src/snapshot.cpp:416 | No accepted file is a proper prefix of another |
| `Snapshot.ExactlyWrittenFilesDecode` | src/snapshot.cpp:396-452 | A file decodes if and only if it was written for contents with distinct identities and finite doubles, and decodes to them |
| `FileFormat.CheckpointInBytes` | src/snapshot.cpp:353-394 | The file is magic, versions, length, six counted tables, epoch and checksum, down to the bytes of every field of every record in order |
| `FileFormat.WrittenIsReadUnless` | src/snapshot.cpp:396-452 | What was written is read back unless two sets or two replicas share an identity or a threshold or confidence is not a number |
| `FileFormat.ReplicaStateInBytes` | src/snapshot.cpp:267-306 | The 37 fields of a replica in the order of the file |
| `FileFormat.ReplicaSetStateInBytes` | src/snapshot.cpp:249-265 | The 20 fields of a set in the order of the file |
| `FileFormat.LittleEndianDigits` | src/snapshot.cpp:40-41 | Numbers have their least significant byte first |
| `FileFormat.IdentityInBytes` | include/replicafabric/core/identity.hpp:83-88 | Identities have their most significant byte first |
| `FileFormat.FiniteDoubles` | src/snapshot.cpp:66-71 | Refused are the patterns at or above infinity, without their sign |
| `FileFormat.LifecycleCodes` | include/replicafabric/core/enums.hpp:55-176 | Enumerators are written as their place in the declaration |
| `FileFormat.AuthorityCodes` | include/replicafabric/core/enums.hpp:177-275 | The same for warmth, readiness, promotion and role |
| `FileFormat.RecordCodes` | include/replicafabric/core/enums.hpp:276-375 | For drain, failover, work outcome and residency |
| `FileFormat.ResourceCodes` | include/replicafabric/core/enums.hpp:376-480 | For placement, accelerator, backend and numeric mode |
| `Recovery.SelfRecovery` | src/snapshot.cpp:493-500 | Recovering from the checkpoint of a good state succeeds if and only if it has no null identity, NaN or infinity, and brings back its sets, workers, logs and replicas without authority |
| `Recovery.ReachableStatesSurvive` | src/snapshot.cpp:353-500 | The same for every state reachable by a lawful run |
| `Recovery.SecondRecoveryChangesNothing` | src/snapshot.cpp:469-491 | A second checkpoint and recovery changes nothing |
| `Recovery.SelfRecoveryIsLawful` | src/snapshot.cpp:469-491 | Recovering from one's own checkpoint is a lawful step |
| `Recovery.OwnDecodes` | src/snapshot.cpp:353-452 | A controller's checkpoint decodes to its own tables and logs, or is refused for a NaN or infinity |
| `Recovery.DamageIsNeverInstalled` | src/snapshot.cpp:493-500 | A damaged checkpoint leaves the controller untouched |
| `Recovery.TruncationIsNeverInstalled` | src/snapshot.cpp:493-500 | So does a truncated or extended one |
| `Recovery.ValidationIgnoresGenerations` | include/replicafabric/persistence/snapshot.hpp:57-60 | Validation gives the same verdict whatever lifecycle, set generation or non-null generation a replica carries, contrary to the header |
| `Recovery.RecoverInto` | src/snapshot.cpp:493-500 | Installs exactly the decoded and validated contents, or changes nothing; what installing does to every replica is `Effects.RecoveryEffect` |
| `Recovery.InstallRecoveredState` | src/snapshot.cpp:469-491 | Tables and logs replaced, authority cleared, epoch kept |
| `Recovery.ValidateRecoveredState` | src/snapshot.cpp:454-467 | True exactly for recovered states with identities, known sets and valid counts |
| `Placement.Place` | src/placement.cpp:28-168 | The decision is the specified one for these inputs |
| `Placement.DecisionIsUnordered` | src/placement.cpp:55-167 | With distinct keys the whole decision is the same for every arrangement of hosts and of placed replicas |
| `Placement.PlacedIffSomeHostMeets` | src/placement.cpp:67-86 | Placement succeeds if and only if some host meets every hard constraint |
| `Placement.ChosenIsBest` | src/placement.cpp:148-165 | The chosen host is worth at least as much as every eligible one; ties go to the least worker identity, then device name |
| `Placement.ChosenIsUndominated` | src/placement.cpp:87-142 | No eligible host is at least as good in every factor and better in one |
| `PlacementLaws.BetterHostWins` | src/placement.cpp:87-142 | A suitable host that is no worse in memory, compute capability, warmth, distance, separation from placed siblings and preferences, and better in one of them, keeps the other from being chosen |
| `PlacementLaws.FactorsInFields` | src/placement.cpp:87-142 | The six factors in order, with weights and scores in the fields of the host |
| `PlacementLaws.WorthInFields` | src/placement.cpp:142-146 | A host is worth the weighted sum of the six scores |
| `PlacementLaws.ApartIsDiverse` | src/placement.cpp:33-53 | Diversity means sharing no listed domain with any placed replica: host, NUMA node, device, rack by any label, or the label named |
| `PlacementLaws.SuitsIsMeets` | src/placement.cpp:67-78 | The hard constraints in the fields of the host |
| `PlacementLaws.ReasonsInOrder` | src/placement.cpp:67-86 | The reason given is the first constraint that fails |
| `Placement.KeyOrder` | src/placement.cpp:57-61 | The string order of keys is the order of worker identities, then of device names |
| `Placement.ScoresAreNormalised` | include/replicafabric/placement/placement.hpp:56-62 | All scores lie in [0, 1] exactly when free memory does not exceed total memory and the compute capability is not negative |
| `Placement.AcceleratorCheckIsExact` | src/placement.cpp:75-78 | The converted accelerator check is the intended one exactly below 2^31 or for hosts short of the converted number |
| `Placement.SelectBest` | src/placement.cpp:148-156 | The running best is a best candidate, if there is an eligible one |
| `Placement.SortHosts` | src/placement.cpp:55-61 | A permutation without inversions of the keys |
| `Placement.OneSortedArrangement` | src/placement.cpp:55-61 | With distinct keys there is one sorted arrangement |
| `Recovery.FreshCheckpoint` | src/snapshot.cpp:353-394 | The checkpoint of a fresh controller is 96 bytes long and accepted |

## Left out

- Transport, wire protocol messages, worker and coordinator processes, the command-line interface (except re-linking), CUDA, examples and benchmarks: sockets, threads and foreign calls around the operations modelled here.
- The protocol codec of `src/protocol.cpp`: a fixed layout, strictly easier than the checkpoint codec.
- Locking: each operation is one atomic step, as the single mutex makes it.
- The mutable accessors `sets()`, `replicas()` and the like as arbitrary writes: only recovery and re-linking go through them.
- Identity kinds: the tag types that keep replica, worker and set identities apart share one type here.
- Randomness: identities are drawn from an arbitrary stream of non-null values; that draws do not repeat is neither assumed nor needed.
- `active_requests`: no operation ever raises it, so properties of ambiguous work would be empty; the field is carried through.
- Policy fields without effect (`min_health`, `allow_canary`, staleness intervals, `max_attempts`, draining and warming policies, placement `require_diversity`): carried through the codec, no behaviour stated.
- Wording of reasons, messages and factor details, and the error strings of the decoder: opaque.
- Enumeration names, the hash of an identity, exception classes: nothing to prove beyond the definitions.
- Floating-point rounding in placement: scores are exact real numbers.
- Memory exhaustion: `reserve` on a count that passes its check may still fail to allocate.
- Wire.ReadAfterWrite: stated for buffers shorter than 2^64 bytes; no std::vector is longer.
- Snapshot.MakeSnapshot: tables are enumerated by key, as the key of every entry is its identity in every reachable state; the source sorts by the identity inside the entry.
- Snapshot.DecodeSnapshot: the body is read to its end before identities are compared; the source compares while reading. The same inputs are refused.
- Layout.ReplicaStateReads: records are written through one recursive routine over their fields instead of one method per record.
- Placement.SortHosts: with equal keys any sorted arrangement may result, as for std::sort; order independence is claimed for distinct keys only.
- Witness.NamelessSetIsNotRecovered: the contents of the checkpoint are refused outright; for its file this is stated under the assumption that it is shorter than 2^64 bytes.
