# csi-driver-spiffe in Dafny

csi-driver-spiffe has two halves. On each node a driver requests a SPIFFE certificate for every mounting
pod, writes the keypair and the trust bundle into the pod's volume, and keeps both fresh. In the cluster
an approver decides the driver's requests. This project models the parts in which the two halves, or
several goroutines of one half, have to agree, and proves that they do; where they agree only under a
condition, it proves which.

`dafny verify dfyconfig.toml` checks everything.

## What is proved

**Trust bundle rotation.** `Rotation` is the protocol between the bundle watcher, its blocked sends, the
CA manager's select loop with its one-slot channel, the retry goroutines, the pass over the volumes, and
the driver's keypair writes to the same volumes. One action is one step of one goroutine; only a single
storage call, a single read of the bundle or a single channel operation is atomic, so that turning an event
into a token takes two steps, a pass seven per volume, and a keypair write three.

- No rotation is lost in any run (`NoLostRotation`), except through one kind of step: a keypair write that
  read the bundle before a change and stores it after the last pass has looked at its volume. That step,
  and no other, breaks the invariant (`StepKeepsProtectionExactly`); it is reachable (`RotationCanBeLost`);
  and the volumes that are stale at rest are exactly those such a step has lost and nothing has rescued
  (`StaleAtRestExactly`).
- Signals are conserved (`SignalConservation`). The loop sends into a channel only it receives from;
  `DeadlockExact` says from exactly which states it can block on itself, and `BlockedForever` that nothing,
  not even cancellation, releases it.
- From any running state the pending work can be finished exactly when every registered volume still to be
  visited has its keypair files, or is the one at hand and can be written from what has been read
  (`SettlesExactly`). If all have them, every schedule without storage faults finishes, within a stated
  number of steps, unless the loop blocks on itself (`EveryScheduleSettles`).
- Passes keep certificates, keys and renewal times, except exactly a pass that writes back bytes it read
  before a renewal (`StepKeepsPairExactly`). A written keypair survives every interleaving exactly when the
  pass under way has read nothing else of the volume (`WriteSticksExactly`), and its renewal time follows
  it exactly when no certificate with another time has been read (`RenewalFollowsExactly`). Otherwise the
  old keypair can come back (`RenewalCanBeLost`), or its certificate beside the new key (`PairCanTear`).
- `CaManager` has the pass and the loop as a program, and shows it to be a run of the protocol. `Broadcast`
  shows that the protocol's signals are those of the two bundle providers: what any history of a provider
  shows the manager is what some run of the protocol shows, and conversely.

**Request validation.** `Der` has a decoder written after Go's encoding/asn1 and a printer written after
ITU-T X.690, and proves that the decoder accepts exactly the printer's image. On top of it the SAN walk,
the key usage mask loop, the extended key usage check, the identity check and `Evaluate` are each proved
equal to a grammar that does not mention how they work, and the driver's requests are proved to be
approved end to end (`DriverAndApproverAgree`).

**Approval.** `Approval` is the event filter and the reconciler, in its separate steps, over a work queue
with re-adds, an informer cache that lags behind and only moves forward, and optimistic writes.
`OneDecision` and `BothPossibleExactly` say when a request can carry both conditions. With auto-approval
off, `GateExact` says which sequences of requests under one key are left alone in every run: exactly those
without an annotated one. `UnannotatedDecision` says which way the others go.

**Configuration and renewal.** The watched issuer configuration is the effect of the last effective event
of its history; the renewal time is bounded and leaves no validity gap.

## Where the code and its documentation differ

- The comment on the SAN walk says that only URI names are permitted and cites a sequence of at least one
  name. The code compares tag numbers only and accepts an empty sequence (`TagNumberIsNotClass`). The model
  follows the code.
- The driver's option for the CA file name is documented as the name of the file in the pod's volume.
  `New` never copies it into the driver, and passes the three names to the CA manager without defaults. The
  model follows the code; `NamesAgreeExactly`, `RotationReachesPodExactly` and `EmptyNamesFailEveryPass`
  say what follows.
- A zero certificate duration means one hour to the driver and zero to the approver. `DriverAndApproverAgree`
  is stated on the durations after the driver's default.

## Assumptions about code that is not modelled

- Storage: `WriteFiles` atomically replaces a volume's file set and leaves its metadata alone; `ListVolumes`
  returns each registered volume once; at most one keypair write per volume is in progress; writing to a
  removed volume fails.
- encoding/asn1 reads tag numbers and lengths below 2^31, in minimal form. MarshalSANs writes one
  context-specific element with tag 6 per URI and refuses text that is not IA5. Creating a signing request
  and parsing it back preserves its extensions, and its URIs are those of the last SAN.
- A PEM chain's leaf is a function of its bytes; the rotation results hold for every such function. A chain
  without PEM makes the renewal computation dereference nil, which ends the process. Key generation, signing
  and marshalling are foreign; the signature check is a Boolean of the parsed request.
- url.Parse splits `scheme://host`, path, query and fragment, and refuses control characters before a
  fragment, broken escapes outside a query, and in a host other characters, escapes of ASCII and ports that
  are not numbers. crypto/x509 refuses a URI whose host has an empty label or an
  unprintable character. The token's claims are inputs.
- The API server refuses a status write to any version but the current one. A request's specification and
  annotations do not change after creation. The informer cache may skip changes but never goes back while
  the process lives; the work queue never hands out a key that is being processed.
- Select choices, timers, file reads, cache reads and storage failures are inputs, or actions that may
  happen at any time.

## Model

| member | source | states |
|---|---|---|
| `Rotation.RunWellFormed` | internal/csi/driver/camanager.go:90-119 | In every reachable state the channel holds at most one token, a blocked loop means a full channel, and a bundle about to be written is current unless an event for its successor waits |
| `RotationSteps.StepVolumes` | internal/csi/driver/camanager.go:137-141 | Volumes come and go by registration and removal only, and a new one is empty |
| `RotationSteps.StepFrame` | internal/csi/driver/camanager.go:143-176 | A volume's files change only when a pass or a keypair write writes it, and its renewal time only with its metadata |
| `RotationSteps.StepWrites` | internal/csi/driver/camanager.go:166-173 | A written volume holds exactly three files: the pass's reads, or the keypair issued, beside the bundle read for it |
| `RotationSteps.StepWriters` | internal/csi/driver/driver.go:370-396 | A keypair write starts with the current bundle and its chain's renewal time, goes on if its files are stored, and ends with its metadata |
| `RotationSteps.VisitFailsExactly` | internal/csi/driver/camanager.go:144-176 | The calls that end a pass, and when: metadata, certificate, key and write, for a failed call, a volume gone or a file missing |
| `RotationSteps.VisitReads` | internal/csi/driver/camanager.go:144-176 | What a visit holds is what the volume's files held when it read them; a CA file equal to the bundle ends it, any other leads to the write of the current bundle |
| `RotationSteps.StepCancels` | internal/csi/driver/camanager.go:93-96 | Cancellation is one step, the loop returns by one other, and exactly a chain without PEM ends the process |
| `RotationSafety.StepKeepsProtectionExactly` | internal/csi/driver/camanager.go:77-179 | Every step of every goroutine keeps "each stale volume is still owed a comparison or a write"; exactly a losing keypair store breaks it |
| `RotationSafety.RunKeepsProtection` | internal/csi/driver/camanager.go:77-179 | The same invariant over whole runs without losing stores and before cancellation |
| `RotationSafety.NoLostRotation` | internal/csi/driver/camanager.go:77-179 | After a broadcast by either provider that follows the subscription, in any continuation without a losing store, quiescence implies that every written volume holds the current bundle |
| `RotationSafety.StepLosesExactly` | internal/csi/driver/driver.go:381-389 | One step loses a volume exactly by a losing store, and a lost one stays lost until a provider broadcasts, a pass fails, or the volume is removed or written with the current bundle |
| `RotationSafety.StaleAtRestExactly` | internal/csi/driver/camanager.go:77-179 | At quiescence after a broadcast the stale volumes are exactly those with a losing store that no such event followed |
| `RotationSafety.AtomicWritersNeverLose` | internal/csi/driver/driver.go:381-389 | If no bundle change falls between a keypair write's bundle read and its store, no store is losing |
| `RotationSafety.NoLostRotationWithAtomicWriters` | internal/csi/driver/driver.go:381-389 | The rotation theorem for such schedules |
| `RotationWitness.RotationCanBeLost` | internal/csi/driver/driver.go:381-389 | For any two bundles and any readable keypair there is a run that ends quiescent with a stale volume |
| `RotationWitness.RenewalCanBeLost` | internal/csi/driver/camanager.go:149-173 | There is a run in which a pass writes an old keypair back under the new renewal time |
| `RotationWitness.PairCanTear` | internal/csi/driver/camanager.go:149-173 | There is a run in which a keypair write lands between the pass's reads of certificate and key, and the volume ends up with the old certificate, the new key and the new renewal time |
| `RotationKeypairs.StepKeepsPairExactly` | internal/csi/driver/camanager.go:149-173 | Apart from a volume's own keypair write, exactly a pass that commits a certificate or key read before a renewal changes the keypair, and nothing changes the renewal time |
| `RotationKeypairs.RunKeepsPair` | internal/csi/driver/camanager.go:143-176 | Any number of complete, failed and interrupted passes keep a volume's keypair and renewal time, if what the current one has read of it is of that keypair |
| `RotationKeypairs.SafeFromPassesExactly` | internal/csi/driver/camanager.go:149-173 | A keypair is safe in every continuation exactly when whatever the pass under way has read of the volume, file by file, is of that keypair |
| `RotationKeypairs.WriteSticksExactly` | internal/csi/driver/driver.go:386-396 | A keypair write's files stay in every interleaving with passes exactly under that condition at the moment it stores them |
| `RotationKeypairs.RenewalFollowsExactly` | internal/csi/driver/driver.go:370-396 | After a keypair write, however interleaved, the stored renewal time stays the one of the chain on the volume exactly when the pass had read no certificate with another renewal time |
| `RotationKeypairs.UnreadableChainChangesNothing` | internal/csi/driver/driver.go:370-375 | Computing the renewal time touches no file and no metadata; the write goes on exactly for a readable leaf, and the process crashes exactly for a chain without PEM |
| `RotationSignals.SignalConservation` | internal/csi/driver/camanager.go:90-124 | Receipts plus failed passes equal passes started plus token, retriers, an event held by the loop and retries given up; broadcasts equal receipts plus waiting sends; every pass fails, completes or is under way |
| `RotationSignals.BlocksExactly` | internal/csi/driver/camanager.go:98-99 | The loop blocks exactly when it sends with the channel full, whether or not it was full when the event was received |
| `RotationSignals.BlockedForever` | internal/csi/driver/camanager.go:92-101 | A blocked loop stays blocked in every run, cancellation included |
| `RotationSignals.DeadlockExact` | internal/csi/driver/camanager.go:92-119 | Without further news from the provider, Blocked is reachable exactly when an event waits or is held by the loop and is not the only outstanding signal, a pass that can still fail counting as one |
| `RotationSignals.OneAtATimeNeverBlocks` | internal/csi/driver/camanager.go:92-119 | Runs with at most one outstanding signal at a time never block |
| `RotationRecovery.JammedForever` | internal/csi/driver/camanager.go:98-99 | A loop that holds an event while the channel is full never gets free, in any run |
| `RotationRecovery.ReturnsExactly` | internal/csi/driver/camanager.go:92-101 | Cancellation can make the loop return from every state, except exactly one in which it is caught in its own send |
| `RotationRecovery.SettlesExactly` | internal/csi/driver/camanager.go:143-176 | From every running state, quiescence with every volume current can be reached exactly when the loop is not so caught and each registered volume still to be visited has certificate and key files under the manager's names, or is the one at hand and can be written from what has been read |
| `RotationRecovery.EveryScheduleSettles` | internal/csi/driver/camanager.go:90-124 | With every volume readable, every run of the manager without storage faults is bounded, and when it can go no further all volumes are current or the loop is blocked; it does not block if no send waits beside another signal |
| `CaManager.Manager.UpdateVolume` | internal/csi/driver/camanager.go:143-176 | One volume: the error and an unchanged store, or the handled volume; nothing is written for a current CA file |
| `CaManager.HandleError` | internal/csi/driver/camanager.go:144-175 | The error of a volume names the first call that failed it |
| `CaManager.Manager.UpdateRootCaFiles` | internal/csi/driver/camanager.go:129-179 | The store and verdict of a pass; no write at all if every CA file is current and readable |
| `CaManager.Manager.OnEvent` | internal/csi/driver/camanager.go:98 | The loop takes an event and holds it |
| `CaManager.Manager.SendToken` | internal/csi/driver/camanager.go:99 | The held event becomes a token or blocks the loop, exactly if the slot has been filled meanwhile |
| `CaManager.Manager.OnToken` | internal/csi/driver/camanager.go:101-122 | A token starts a pass; a failed pass leaves a retry goroutine |
| `CaManager.PassOutcome` | internal/csi/driver/camanager.go:101-122 | The update branch leaves a retry goroutine exactly if the listing or some volume fails; if not, every CA file is the bundle, and if so, those before the first failure |
| `CaManager.TurnIsStep` | internal/csi/driver/camanager.go:92-124 | Every turn of the loop and of a retry goroutine is the protocol's step of that name, or nothing if that is not enabled |
| `CaManager.OutsideIsStep` | internal/csi/driver/camanager.go:92-124 | So is every bundle change, cancellation, and volume added or removed between turns |
| `CaManager.IssueOutcome` | internal/csi/driver/driver.go:370-396 | A keypair write between turns changes its own volume only, to the issued pair, the bundle and the chain's renewal time |
| `CaManager.Manager.Take` | internal/csi/driver/camanager.go:92-124 | One turn of the select equals its specification; a channel that is not ready changes nothing |
| `CaManager.Manager.Run` | internal/csi/driver/camanager.go:77-125 | The whole loop, with cancellation and with volumes added, removed and written between its turns, equals the turns taken in order until it returns or blocks |
| `CaManager.LoopRefinesProtocol` | internal/csi/driver/camanager.go:77-125 | Whatever turns the program takes, its state is one a protocol run reaches |
| `CaManager.PassContract` | internal/csi/driver/camanager.go:143-178 | A pass stops exactly at the first volume whose keypair files or calls are missing, with its error; every volume before it is handled and has the bundle as CA file, nothing from there on is touched, and no renewal time changes |
| `CaManager.SecondPassChangesNothing` | internal/csi/driver/camanager.go:160-164 | After a successful pass a second one changes no volume |
| `CaManager.KeepsPairsExactly` | internal/csi/driver/camanager.go:149-170 | Passes keep every certificate and key, for every store, bundle and fault schedule, exactly when the CA file name differs from both |
| `CaManager.ProtocolPass` | internal/csi/driver/camanager.go:129-179 | The sequential pass is one of the protocol's runs: same store, same verdict, same retry |
| `RootCa.File.ReloadCertificatesPem` | internal/csi/rootca/file.go:121-142 | A failed or identical read changes nothing; a change stores the content and starts one goroutine per subscriber |
| `RootCa.File.SubscribeTo` | internal/csi/rootca/file.go:151-159 | A fresh channel is appended to the subscribers |
| `RootCa.BroadcastExact` | internal/csi/rootca/file.go:121-159 | In every history, sends delivered to subscriber i plus sends still waiting equal the broadcasts made since it subscribed |
| `RootCa.PositionsAreStable` | internal/csi/rootca/file.go:139-141 | Subscriber positions never change, so a goroutine that resolves its index late reaches the subscriber of its broadcast |
| `RootCa.StepAccounts` | internal/csi/rootca/memory.go:50-56 | One event changes what a subscriber is owed by exactly its broadcast and its delivery; the memory provider broadcasts every input |
| `Broadcast.HubRefinesProtocol` | internal/csi/rootca/file.go:121-159 | Whatever a provider with any subscribers does, some run of the rotation protocol shows the manager the same changes, subscription and deliveries in the same order, and ends with the same bundle and waiting sends |
| `Broadcast.ProtocolRefinesHub` | internal/csi/rootca/memory.go:47-56 | Conversely, every run of the protocol shows its provider as some history of a provider does |
| `KeypairWrite.Store.WriteKeypair` | internal/csi/driver/driver.go:357-397 | The resulting store for each outcome: nothing changes unless the renewal time was computed and the files were written, and a failed metadata write leaves new files under the old renewal time |
| `KeypairWrite.Data` | internal/csi/driver/driver.go:377-384 | The certificate file holds the chain and the key file the key; a CA file is written exactly with root CAs |
| `KeypairWrite.ProtocolWrite` | internal/csi/driver/driver.go:377-396 | The protocol's three writer steps, uninterrupted, are that write |
| `Renewal.RenewalBound` | internal/csi/driver/util.go:80-94 | The time computed for a leaf lies within its lifetime, never before two thirds of it, and is the ceiling of two thirds exactly when the lifetime does not saturate past one nanosecond; saturated, it is a third of the longest duration before expiry |
| `Renewal.SwappedDates` | internal/csi/driver/util.go:80-94 | With swapped dates, the time computed is a truncated third of the swap after expiry |
| `Renewal.NoGap` | internal/csi/driver/util.go:80-94 | A chain of renewals, each starting within a truncated third of the lifetime after its time, leaves no instant uncovered |
| `Renewal.LateRenewalGap` | internal/csi/driver/util.go:80-94 | For one renewal that bound is exact |
| `Der.Base128Exact` | internal/approver/evaluator/extensions.go:142-160 | A base-128 integer is read exactly from its minimal encoding, up to int32 |
| `Der.ElementExact` | internal/approver/evaluator/extensions.go:142-147 | An element is read from a byte string exactly when the string starts with its distinguished encoding |
| `Der.ElementsExact` | internal/approver/evaluator/extensions.go:154-169 | A byte string splits into given elements exactly when it is their encodings in order |
| `Der.ElementProgress` | internal/approver/evaluator/extensions.go:154-163 | Every successful read leaves strictly fewer bytes |
| `Der.LengthExamples` | internal/approver/evaluator/extensions.go:142-147 | The encodings of lengths in section 8.1.3 of ITU-T X.690 |
| `Der.TagExamples` | internal/approver/evaluator/extensions.go:142-147 | The encodings of identifiers in section 8.1.2 of ITU-T X.690, for the tags the approver meets and a high one |
| `SubjectAltName.SanVerdictExact` | internal/approver/evaluator/extensions.go:137-172 | The walk accepts a value exactly when it is one universal constructed SEQUENCE, without trailing bytes, of complete elements that all have tag number 6 |
| `SubjectAltName.ValidateSubjectAltName` | internal/approver/evaluator/extensions.go:137-172 | The loop over the remaining bytes computes that verdict, with the error it stops at |
| `SubjectAltName.TagNumberIsNotClass` | internal/approver/evaluator/extensions.go:165-168 | An empty sequence and a universal element with tag number 6 are accepted |
| `SubjectAltName.SanRoundTrip` | internal/csi/driver/util.go:51-62 | The SAN written for any encodable list of URIs is accepted by the walk and read back as the same texts in the same order |
| `KeyUsage.ClearMasks` | internal/approver/evaluator/extensions.go:97-102 | For any masks of equal length the nested loop clears their OR in place, and leaves zero iff every byte is a subset of it |
| `KeyUsage.ValidateKeyUsage` | internal/approver/evaluator/extensions.go:89-110 | Exactly the four-byte values within (3, 2, 7, 160) are accepted |
| `KeyUsage.OidExact` | internal/approver/evaluator/extensions.go:119-123 | An object identifier is read exactly from its one encoding |
| `KeyUsage.OidEncodings` | internal/approver/evaluator/extensions.go:43-50 | The five identifiers are the ones of the three extensions and two usages, octet by octet |
| `KeyUsage.ForbiddenConcat` | internal/approver/evaluator/extensions.go:125-130 | No forbidden usage is lost or moved in the list returned |
| `KeyUsage.ValidateExtendedKeyUsage` | internal/approver/evaluator/extensions.go:114-133 | The loop returns the forbidden usages in order |
| `KeyUsage.EkuVerdictExact` | internal/approver/evaluator/extensions.go:114-133 | Exactly a sequence of client and server authentication identifiers is accepted, whatever bytes follow it |
| `Identity.SplitJoin` | internal/approver/evaluator/identity.go:58-61 | Splitting undoes joining |
| `Identity.IdentityExact` | internal/approver/evaluator/identity.go:57-77 | Default mode accepts exactly a service account username together with the single ID built from its namespace and name |
| `Identity.IdSegments` | internal/approver/evaluator/identity.go:71 | The ID's segments: scheme, trust domain, ns, namespace, sa, account |
| `Identity.OneUsernamePerId` | internal/approver/evaluator/identity.go:71-74 | An ID of slashless names is accepted for one username only |
| `Identity.SoleOwnerExact` | internal/approver/evaluator/identity.go:71-74 | An account is the only one with its ID exactly when the separator occurs once in the ID's tail |
| `Identity.SlashesCollide` | internal/approver/evaluator/identity.go:71-74 | With slashes in the names two usernames are accepted for one ID |
| `Identity.IdParsesExactly` | internal/csi/driver/driver.go:325-329 | The ID parses exactly when the trust domain up to its first slash, question mark or hash is a host, and the rest has no control character before a hash and no broken escape outside a query |
| `Identity.ParseSpiffeId` | internal/csi/driver/driver.go:325-329 | An ID that parses yields scheme, trust domain and path exactly when no delimiter in a name breaks it up elsewhere |
| `Identity.ParseUriPrints` | internal/csi/driver/driver.go:325-329 | A parsed URI prints back as its text |
| `Identity.ValidDomainExactly` | internal/csi/driver/util.go:65 | The request parser refuses a host exactly for an invisible character, a dot at an end or two dots in a row |
| `Evaluator.ValidateExtension` | internal/approver/evaluator/extensions.go:69-81 | One extension passes exactly when it is of one of the three kinds and in its grammar |
| `Evaluator.ValidateCsrExtensions` | internal/approver/evaluator/extensions.go:61-85 | The aggregated errors, empty exactly when there are no extra extensions and every extension is allowed |
| `Evaluator.EvaluateExact` | internal/approver/evaluator/evaluator.go:96-141 | A request is approved exactly when it is acceptable, stated without the order of the checks |
| `Evaluator.DenialNamesCause` | internal/approver/evaluator/evaluator.go:96-141 | A denial names a cause that is there |
| `Evaluator.AggregateConcat` | internal/approver/evaluator/extensions.go:61-85 | No extension's error is lost or moved in the aggregate |
| `Evaluator.OrderIndependent` | internal/approver/evaluator/evaluator.go:118-128 | Permuting extensions and usages never changes the verdict |
| `Driver.SanitizeAnnotations` | internal/csi/driver/driver.go:399-414 | Exactly the keys with the reserved prefix are dropped, the rest kept with their values |
| `Driver.ReservedExactly` | internal/csi/driver/driver.go:405 | The dropped keys are all that start with the driver's name |
| `Driver.Driver.constructor` | internal/csi/driver/driver.go:151-199 | An empty certificate or key name becomes tls.crt or tls.key and a zero duration one hour, others are kept; a fixed CA name; the manager's names as configured |
| `Driver.NamesAgreeExactly` | internal/csi/driver/driver.go:158-199 | Driver and manager use the same names exactly with non-empty certificate and key names and CA name ca.crt |
| `Driver.Driver.GenerateRequest` | internal/csi/driver/driver.go:285-353 | Each error exactly under its condition: no issuer name, no token, missing claims, an ID that is no URI; otherwise a request for that one ID, with the active issuer, the four usages and no CA flag |
| `Driver.IdentityAnnotationKept` | internal/csi/driver/driver.go:331-335 | Custom annotations arrive and never replace the identity |
| `Driver.Request.Sign` | internal/csi/driver/util.go:45-76 | With an empty subject the URIs move into an extension of their own; otherwise the template stays as it is |
| `Driver.SignedSan` | internal/csi/driver/util.go:51-70 | A signed request parses exactly when the hosts have no empty label or unprintable character; it then has one extension, a SAN that is critical exactly with an empty subject, passes the walk and parses back to the same URIs |
| `Agreement.DriverAndApproverAgree` | internal/csi/driver/driver.go:285-353 | For every valid account, annotation map, issuer and pair of durations, the driver's request is approved exactly for matching durations, the right requester and a trust domain without empty labels, in both modes |
| `Agreement.RotationReachesPodExactly` | internal/csi/driver/driver.go:198-199 | A pass updates the CA file the pod reads exactly when the configured name is ca.crt, and otherwise removes it |
| `Agreement.EmptyNamesFailEveryPass` | internal/csi/driver/driver.go:172-199 | With an empty certificate or key name the manager fails on every volume the driver writes |
| `Agreement.RotationConfiguration` | internal/csi/driver/driver.go:158-199 | The naming conditions of the rotation results, as conditions on the options |
| `Approval.DecideRequest` | internal/approver/controller/controller.go:141-177 | With its loop over URIs: an annotated request is approved exactly if the evaluator accepts it, an unannotated one denied exactly for a SPIFFE URI or the configured issuer |
| `Approval.OneDecision` | internal/approver/controller/controller.go:96-178 | In every reachable state a request all configurations decide alike carries at most one decision, and an annotated request's decision is the evaluator's |
| `Approval.UnannotatedDecision` | internal/approver/controller/controller.go:154-177 | In every reachable state, an approved unannotated request has no SPIFFE URI and another issuer than some configuration; a denied one has such a URI or the issuer of some configuration |
| `Approval.StepDequeuesExactly` | internal/approver/controller/controller.go:131-177 | A queued key leaves the queue exactly when its request is gone, its decision is written or the process restarts; every error puts it back |
| `Approval.BothPossibleExactly` | internal/approver/controller/controller.go:154-177 | Both conditions on one request are reachable exactly for an unannotated request without SPIFFE URI whose issuer some but not all configurations name |
| `Approval.DecidedIsFinal` | internal/approver/controller/controller.go:113-116 | A decided request that the cache shows as stored, with its key off the queue, keeps its decision whatever happens short of deletion or restart |
| `Approval.GateExact` | internal/approver/controller/controller.go:118-125 | No run that creates the given requests under a key, one after the other, ends with the object there decided, exactly when auto-approval is off and none of them is annotated |
| `Approval.AutoApprovalGate` | internal/approver/controller/controller.go:118-125 | With auto-approval off, an unannotated request is never decided in a run whose requests under that key agree on the annotation, whatever happens under other keys |
| `Approval.ReusedKeyPassesGate` | internal/approver/controller/controller.go:131-178 | Without fixed presence a re-used key is decided although the flag is off |
| `RuntimeConfig.ConfigMapSource.HandleChange` | internal/csi/runtimeconfig/configmap.go:161-202 | The configuration changes exactly for a ConfigMap with all three values, each field to the value of its key; otherwise the error names the missing keys |
| `RuntimeConfig.ConfigMapSource.HandleDeletion` | internal/csi/runtimeconfig/configmap.go:205-216 | Deletion restores the static configuration |
| `RuntimeConfig.ConfigMapSource.Start` | internal/csi/runtimeconfig/configmap.go:94-157 | After any sequence of watch sessions the active configuration is the effect of the last effective event, or static |
| `RuntimeConfig.DeliveredStep` | internal/csi/runtimeconfig/configmap.go:94-122 | A history grows by one session at a time and ends with cancellation |
| `RuntimeConfig.LatestUnique` | internal/csi/runtimeconfig/configmap.go:94-216 | A history determines the configuration |
| `RuntimeConfig.LatestNames` | internal/csi/runtimeconfig/configmap.go:94-216 | The configuration of a history in terms of the ConfigMaps added and modified: the last to name a whole issuer is active, unless a deletion came later |
| `RuntimeConfig.LatestPopulated` | internal/csi/runtimeconfig/configmap.go:191-216 | The configuration is static or has every field set |

## Left out

- Claims about bundle changes before the subscription, file changes without a watch event, and deletions missed while a watch is down: the code does not promise them.
- A driver without root CAs: the manager's loop does not start and no CA file exists to rotate; only `KeypairWrite` covers it.
- CaManager.Manager.Run: passes run without interruption; interleavings with keypair writes, removals and bundle changes inside a pass are in the protocol.
- Driver.Request.Sign: text too long for the decoder counts as an encoding error, although the encoder itself would write it.
- Key generation, signing, PEM and PKCS8: foreign calls.
- Identity.IdParsesExactly: a trust domain with `@`, `[` or `]` is taken as plain host text, where url.Parse looks for user information and IPv6 literals.
- Driver.Driver.GenerateRequest: the same holds for its refusal of an ID that is no URI.
- What well-formed URL escapes and queries mean, and their normalisation in printing; JWT decoding.
- The in-memory runtime configuration, command line options, application wiring, leader election, informers, Helm chart and scripts: no hard property.
- Log messages and error texts: errors are values that name their cause.
