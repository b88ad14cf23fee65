# secboot in Dafny

A model of secboot, the library that seals disk encryption keys to a TPM, and proofs about it. secboot answers one question:
in which states of a device may a sealed key be unsealed? The answer passes through many hands: a PCR profile is evaluated to
PCR values, these become policy digests and a tree of PolicyOR assertions, the tree is signed together with a counter, the
result is stored in key files, and at boot a TPM session replays all of it. The project proves that the answer that comes out
is the one that went in, for every profile, every metadata and every run of operations, with power lost anywhere.

`dafny verify dfyconfig.toml` checks everything.

## How it is modelled

Digests are free terms: a hash is equal to another only if the algorithm and the whole input stream are. Concatenation stays
concatenation, so an ambiguous message layout is visible (`SnapModel.KeyLengthMatters` shows one). Signatures are free terms
as well. Code that changes things in place is a class with methods; each method is proved against a function of its inputs or
of the old state, and the properties are proved about that function.

| module | subject |
|---|---|
| `Digests`, `Tpm` | digest terms, PCRs, the policy commands of the TPM |
| `PcrProfile`, `PcrEvaluator`, `PcrDigests` | what a PCR profile means, its in-place evaluation, the approved digests |
| `PolicyOrTree`, `PolicySessions`, `KeyFiles` | the PolicyOR tree, policy computation and policy sessions, key files |
| `Sealing`, `Protocol`, `Revocation`, `Device` | sealing, updating and PIN changes as interruptible plans; what all runs keep; the programs |
| `EndToEnd`, `Outcomes` | sealing, updating and PIN changes, seen from the unsealing side; how each of them ends |
| `PcrFence` | fencing off PCR values |
| `Authenticode`, `LoadEvents`, `ProfileArena`, `BootManager` | image digests and the PCR 4 profile |
| `SignatureDb`, `SecureBoot`, `SecureBootProfile`, `SecureBootGenerator`, `SecureBootPolicy` | signature databases and the PCR 7 profile |
| `SnapModel`, `RecoveryKey` | model measurements, recovery keys as text |

The chain of the main results: `PcrEvaluator.ComputePcrValues` and `PcrProfile.EvaluateIsPaths` say which PCR values a profile
approves. `PolicyOrTree.ExecutionIsExact` and `PolicyOrTree.ExecutionIsSound` are about the tree alone.
`Sealing.ProfileToSession` is completeness from the profile to the session, exactly; `PolicySessions.SessionIsSound` and
`KeyFiles.UnsealingIsSound` are soundness for arbitrary metadata. `Protocol.CrashSafety` and the lemmas of `Revocation` are
about whole runs, which may start from an empty device (`EndToEnd.FreshDevice`). `EndToEnd.SealedKeysUnseal` and
`EndToEnd.UpdatedKeysUnseal` put the chain together: after sealing or an update, each key file unseals exactly in the PCR
states that the profile allows. `Outcomes.UpdateEnds` and `Outcomes.SealEnds` say when they complete, and with which error they
fail otherwise. `BootManager.Generator.AddEFIBootManagerProfile` and `SecureBootGenerator.Generator.Run` say that the
profile generators produce one value for each way to boot. Which values these are is said without the functions that compute
them: `BootManager.AllowsExactlyRoutes` and `BootManager.ReplayedExactly` for PCR 4, and for PCR 7
`SecureBootPolicy.PreOsMeasures` for the log before the OS and `SecureBoot.RouteBootsExactly`, `SecureBoot.AuthorityOnRoute` and
`SecureBoot.MeasuredOnce` for the images. `SecureBootPolicy.EveryLevelBoots` says that database updates never lose a way to boot.

Where the code and its documentation disagree: the comment on `BlockPCRProtectionPolicies` says that it invalidates every
policy that depends on a fenced PCR and is satisfied by the current values. `PcrFence.FenceIsNotABarrierForItself` shows a
policy that survives, because its profile also allows the fenced value, and `PcrFence.FenceLeavesExactly` says exactly which
policies can still open a session after the fence. The comment on `AddSnapModelProfile` relies on separate extends to keep variable-length fields apart;
`SnapModel.DigestExactly` shows that key identifier and brand still run together, which is harmless while key identifiers have
one length. An update that names only some of the related files revokes the others: `Revocation.UnnamedFilesRevoked` says
exactly which, and `EndToEnd.PartialUpdateRevokes` shows it for two keys that were sealed together. Sealing promises that it
creates no keys when it fails; `EndToEnd.FailedSealLeaves` adds that it also removes a requested file that was there before.

## Model

| member | source | states |
|---|---|---|
| `Digests.PcrDigestInjective` | pcr_profile.go:364-372 | The digest over a PCR selection determines the value of every selected PCR |
| `Digests.AscendingIsSorted` | pcr_profile.go:364-372 | The values of a PCR selection are hashed bank by bank, and in a bank by index |
| `PcrProfile.DenoteConcat` | pcr_profile.go:318-349 | Instructions of a profile compose: running a list is running its parts one after the other |
| `PcrProfile.DenoteLength` | pcr_profile.go:269-290 | The number of results is the sum-product branch count of the profile, which is never zero |
| `PcrProfile.EvaluateIsPaths` | pcr_profile.go:111-147 | A combination is in the result exactly if some straight path through the choices computes it, and evaluation fails exactly if some path fails |
| `PcrProfile.OnlyExtended` | pcr_profile.go:43-56 | On a straight path that does not set a PCR, the PCR is extended from the value it had, or from zero, with the values of its extends in order, and is there exactly if it was there or is extended |
| `PcrProfile.SetThenExtended` | pcr_profile.go:36-56 | On a straight path, a PCR ends with the value that was set last, or that the TPM had, extended with what follows |
| `PcrEvaluator.FinishBranches` | pcr_profile.go:261-317 | Splitting a context into branches and finishing them delivers the concatenation of the branch results to the parent |
| `PcrEvaluator.EnterChoice` | pcr_profile.go:297-317 | Entering a non-empty choice keeps the meaning of the whole stack of contexts |
| `PcrEvaluator.StepEnd` | pcr_profile.go:306-317 | Finishing a branch delivers its combinations to the branch it came from, and keeps the meaning of the whole stack of contexts |
| `PcrEvaluator.SkippedChoicesMeanNothing` | pcr_profile.go:168-195 | Skipping empty choices does not change what the rest of a profile means |
| `PcrEvaluator.ProfileIterator.Next` | pcr_profile.go:168-195 | Returns the next instruction after empty choices, pushes the bodies of a choice, and reports the end of a branch exactly when the top is used up |
| `PcrEvaluator.ProfileIterator.DescendInto` | pcr_profile.go:155-164 | Puts the instructions of all sub-profiles on the stack, in their order |
| `PcrEvaluator.SetTop` | pcr_profile.go:36-41 | Sets the PCR in every map of the current branch and in no other map |
| `PcrEvaluator.ExtendTop` | pcr_profile.go:43-56 | Extends the PCR in every map of the current branch and in no other map |
| `PcrEvaluator.OpenBranches` | pcr_profile.go:297-304 | Every new branch holds its own copies of the incoming values; no map is shared between contexts |
| `PcrEvaluator.CloseBranch` | pcr_profile.go:281-311 | The values of a finished branch move to its parent, after those of earlier branches, and stay unshared |
| `PcrEvaluator.Step` | pcr_profile.go:318-349 | One round of the loop keeps the meaning of the stacks, which stay equally deep; there is always an instruction to take |
| `PcrEvaluator.ComputePcrValues` | pcr_profile.go:318-349 | The loop over both stacks returns exactly the denotation of the profile, in fresh maps that nothing else holds, or the PCR that could not be read |
| `PcrDigests.UniqueIsFirstOccurrences` | pcr_profile.go:374-386 | De-duplication keeps every digest, each exactly once, in the order of first occurrence |
| `PcrDigests.Deduplicate` | pcr_profile.go:374-386 | The nested loops compute the de-duplication |
| `PcrDigests.ComputePcrDigests` | pcr_profile.go:353-389 | Returns the selection and the de-duplicated digests of the profile, or the error if branches select different PCRs or a PCR cannot be read |
| `PcrDigests.ApprovedMeansAllowed` | pcr_profile.go:353-389 | A digest over the selection is approved exactly if the profile allows the values; there is at least one |
| `PolicyOrTree.ComputePolicyOrData` | policy.go:476-521 | The loop builds the tree of the digests, and leaves the root digest in the trial policy |
| `PolicyOrTree.LeavesAreConditions` | policy.go:476-521 | The leaf nodes concatenate to the input, and the first link is the number of leaf nodes |
| `PolicyOrTree.ConditionAt` | policy.go:476-521 | Condition j is digest j % 8 of node j / 8, which is a leaf |
| `PolicyOrTree.FlattenLinked` | policy.go:500-515 | The OR digest of each node is among the digests of the node its link points at |
| `PolicyOrTree.NodesFit` | policy.go:485-515 | Every node holds one to eight digests, and every link is at most the number of leaves, so it fits into 32 bits whenever that does |
| `PolicyOrTree.ExecutePolicyOrAssertions` | policy.go:637-679 | Searches the leaves, climbs along the links with PolicyOR, and reports the three kinds of failure |
| `PolicyOrTree.ExecutionIsExact` | policy.go:637-679 | From every input digest the climb ends at the root digest, and from any other digest it fails without changing the session |
| `PolicyOrTree.ExecutionIsSound` | policy.go:637-679 | No tree whatsoever leads from a digest outside the conditions to their root digest |
| `PolicySessions.ComputeStaticPolicy` | policy.go:439-462 | The static policy digest of the signing key and the counter, and the metadata to reach it |
| `PolicySessions.StaticPolicyInjective` | policy.go:439-462 | Equal policy digests mean the same signing key and the same counter |
| `PolicySessions.ComputeDynamicPolicy` | policy.go:532-599 | The PCR conditions, their tree, the policy digest with the counter check, and the signature; fails without PCR digests |
| `PolicySessions.ExecutePolicySession` | policy.go:683-839 | The session digest or the error of the whole session, for arbitrary metadata |
| `PolicySessions.ConditionIffApproved` | policy.go:537-543 | A PCR assertion produces one of the conditions exactly if the current PCR digest is approved |
| `PolicySessions.FreshMetadataIsExact` | policy.go:683-839 | Fresh metadata succeeds exactly if the PCRs are approved and the counter has not passed the count, and then reaches the static policy digest; otherwise the error says which |
| `PolicySessions.ChangedMetadataFails` | policy.go:683-839 | Fresh metadata in which the signature, the signed policy or the count was changed, or whose counter is gone: the error of the session |
| `PolicySessions.SessionIsSound` | policy.go:683-839 | For arbitrary metadata: a session that ends at the policy digest of a key is backed by an authorization that was signed with that key for that counter, approves the current PCRs, and is not revoked |
| `KeyFiles.CounterBelongsToKey` | policy.go:156-181 | A new counter can be initialised without a signature; once written it can be incremented with the key it was created for and with no other, and not be initialised again |
| `KeyFiles.OnlyOwnerIncrements` | policy.go:156-284 | Whatever sequence of policy commands authorizes an increment of a written counter, it contains an assertion signed with the key of the counter |
| `KeyFiles.Validate` | keydata.go:377-552 | Accepts a key file exactly if it can be loaded, its counter is there, its signing key is an ECC key for signing, its policy is that of this key and this counter, and the given key is the signing key; returns the counter, or the error of the first check that fails |
| `KeyFiles.RelatedFiles` | keydata.go:442-493 | Two accepted files with the same policy digest have the same signing key and the same counter |
| `KeyFiles.UnsealFromTpm` | unseal.go:71-165 | The key and the signing key that was sealed with it, or the error of unsealing a file with a PIN |
| `KeyFiles.UnsealingIsSound` | unseal.go:71-165 | The payload of a file is released only to its PIN, and only while an authorization of its policy is in force |
| `Sealing.ComputeSealedKeyDynamicAuthPolicy` | seal.go:47-116 | The signed policy for a profile, with the count after the current counter value; the errors of the profile and of unsupported PCRs |
| `Sealing.ProfileToSession` | seal.go:47-116 | From a profile to an open session: it opens exactly in the PCR states that the profile allows, as long as the counter has not passed the count |
| `Protocol.AllowedKeeps` | seal.go:446-461 | Every single change that an operation makes keeps all key files valid and backed by a signed policy |
| `Protocol.UpdateSafe` | seal.go:382-464 | Every prefix of an update is safe; an update of the whole related set never leaves a file behind the counter |
| `Protocol.SealSafe` | seal.go:177-344 | Every prefix of sealing is safe, with and without a counter, and also when it fails and rolls back |
| `Protocol.ChangePinSafe` | pin.go:152-215 | Changing the PIN keeps files valid and their policies |
| `Protocol.OpKeeps` | seal.go:382-464 | One operation, interrupted anywhere, keeps the invariant |
| `Protocol.CrashSafety` | seal.go:446-461 | In every run, with power lost anywhere, every key file validates and carries a policy signed for its key and counter; if updates name the whole related set, its count is the counter or the counter plus one |
| `Revocation.NoInterruptionRevokes` | seal.go:446-461 | In every such run, every key file unseals with its PIN in every PCR state that its policy approves |
| `Revocation.UpdateIncrements` | policy.go:189-284 | A completed update leaves the counter one higher, and no other counter changed |
| `Revocation.RunKeepsAtLeast` | policy.go:333-391 | No run ever lowers a counter, not even by deleting it and creating it again |
| `Revocation.OldMetadataFails` | policy.go:749-761 | After a completed update that read c, metadata with a count of at most c fails in all later states |
| `Revocation.OldPoliciesRevoked` | seal.go:52-59 | After a completed update that read c, whatever metadata opens a session in a later state, it was authorized with a count above c |
| `Revocation.OnlyNewestUsable` | seal.go:52-59 | In a run without interruptions only the newest policy for a counter opens a session |
| `Revocation.InterruptedSharesCount` | seal.go:52-59 | An interrupted update leaves the TPM unchanged, and its policy has the same count as the next one |
| `Revocation.UnnamedFilesRevoked` | seal.go:382-464 | After a completed update, a file on its counter unseals in the PCR states that its policy approves exactly if the update named it or the file had a later count already; otherwise unsealing reports that the policy is revoked |
| `Device.Machine.Do` | keydata.go:563-579 | One persistent change, made in place exactly if there is power left |
| `Device.Machine.OpenFiles` | seal.go:385-425 | Opens the primary file with the key and the related files, and reports the first that cannot be used; which that is says `Outcomes.ReadsExactly` |
| `Device.Machine.UpdateKeyPcrProtectionPolicy` | seal.go:382-464 | Reads, signs, replaces the files one by one and increments the counter in a session that authorizes it: the store and the outcome are those of the plan, for every point of power loss |
| `Device.Machine.SealKeyToTpmMultiple` | seal.go:177-344 | Creates and initialises the counter in a session that authorizes it, signs, writes the files and increments, or rolls everything back: the store and the outcome are those of the plan, for every point of power loss |
| `Device.Machine.ChangePin` | pin.go:152-215 | Replaces the file with one for the new PIN, or fails without a change |
| `Outcomes.ReadsExactly` | seal.go:385-425 | The files of an update can be read exactly if there are some, each is a complete key file, the key is the signing key of the first, and the others have its policy; otherwise the error is that of the first file at fault |
| `Outcomes.UpdateEnds` | seal.go:382-464 | An update of a consistent device ends with the error of the first file at fault, with the error of the profile, without power exactly if it is lost before one change per file and one for the counter, and otherwise it completes; it reports unrelated files exactly if the first file at fault has another policy |
| `Outcomes.RefusedSealEnds` | seal.go:177-253 | Sealing without requests, with a counter handle in use, or with a handle that is none, ends with the error of each |
| `Outcomes.SealEnds` | seal.go:177-344 | Otherwise sealing ends with the error of the profile, with a file that exists, or completed, and without power exactly if it is lost before that many changes |
| `Outcomes.ChangePinEnds` | pin.go:152-215 | A PIN change completes exactly if the file is a complete key file, the old PIN is right and there is power for one change; otherwise each error has its cause |
| `EndToEnd.SealedKeysUnseal` | seal.go:177-344 | After completed sealing each new file holds its key and the signing key and asks for no PIN, and in any later PCR state, with the counters as they were left, it unseals with the empty PIN exactly if the profile allows the PCR values; with any other PIN it reports a wrong PIN there |
| `EndToEnd.FailedSealLeaves` | seal.go:236-292 | Sealing that fails leaves the TPM as it was, without the new counter, and no file that it created; if it failed because a requested file existed, that file is removed too, and all other files stay |
| `EndToEnd.UpdatedKeysUnseal` | seal.go:382-464 | After a completed update each named file keeps its key, its PIN and whether it asks for one, and unseals exactly in the PCR states that the new profile allows |
| `EndToEnd.PartialUpdateRevokes` | seal.go:382-464 | Sealing two keys together and then updating only the first file: both operations complete, the first file unseals where the profile allows it, and the second is revoked there |
| `EndToEnd.ChangedPinUnseals` | pin.go:152-215 | After a completed PIN change the file asks for a PIN exactly if the new one is not empty and is otherwise as before; it does with the new PIN, in every state of the TPM, what it did with the old one, and where that unseals, any other PIN is reported as wrong |
| `PcrFence.PcrBanks.BlockPCRProtectionPolicies` | policy.go:849-867 | Fences the listed PCRs in all banks, one after the other, up to the first that the TPM does not have |
| `PcrFence.FenceAt` | policy.go:849-867 | A PCR is extended with the hash of four zero octets as often as its index is listed |
| `PcrFence.NeverBack` | policy.go:840-848 | After the fence, no extends bring back the value that a fenced PCR had |
| `PcrFence.ReachableExactly` | policy.go:849-867 | Extends lead to a set of PCR values exactly if the history of each passes through the present value |
| `PcrFence.PresentIsCut` | policy.go:840-848 | The values before the fence are cut off |
| `PcrFence.SessionsPassTheFence` | policy.go:840-848 | If any metadata opens a session after the fence and any extends, a policy was signed that approves values which passed through the fence |
| `PcrFence.FenceBlocksProfile` | policy.go:840-848 | If the fence cuts off every branch of a profile, sessions with its policy fail from then on |
| `PcrFence.FenceLeavesExactly` | policy.go:840-848 | With the policy of a profile, and the counter not past it: after the fence some extends open a session exactly if some branch of the profile has passed through the fence |
| `PcrFence.FenceIsNotABarrierForItself` | policy.go:840-848 | On every device with an unused PCR, the policy of the profile that allows this PCR to be unused or fenced opens a session before the fence, and again after it although the PCR has changed |
| `Authenticode.ChunkedHashAll` | efibootmanager_policy.go:128-141 | Hashing in chunks covers the range up to its end or the end of the file |
| `Authenticode.HashHeaders` | efibootmanager_policy.go:86-145 | The headers without the checksum and the certificate table entry; a header that ends early is padded or rejected as the reads do |
| `Authenticode.ComputePeImageDigest` | efibootmanager_policy.go:42-201 | The digest over headers, sorted sections and trailing data, or the error |
| `Authenticode.SortSorts` | efibootmanager_policy.go:150-162 | Sorting the section table orders it by offset and keeps its sections |
| `Authenticode.DigestCovers` | efibootmanager_policy.go:86-198 | For an image whose non-empty sections tile the file in any order and leave room for the certificate table, the digest covers the file without the checksum, the certificate table entry, and as many octets at the end as the table has, wherever the table is; for PE32 and PE32+ |
| `Authenticode.CoveredExactly` | efibootmanager_policy.go:86-198 | Octet by octet: what is covered is all but the four octets of the checksum, the eight of the fifth data directory, and as many at the end as that directory says |
| `Authenticode.FailsExactly` | efibootmanager_policy.go:42-201 | A decoded image cannot be hashed exactly if its headers end before the fields to skip, or the file has something after its sections but less than the certificate table |
| `Authenticode.SameDigestExactly` | efibootmanager_policy.go:86-198 | Two such images have the same digest exactly if they agree outside of the excluded parts |
| `Authenticode.SectionOrderIsIrrelevant` | efibootmanager_policy.go:160-162 | For sections at different offsets the order of the section table does not matter |
| `ProfileArena.FinishedMeans` | efibootmanager_policy.go:327-336 | A finished branch denotes exactly the values of its paths, in order |
| `BootManager.Generator.Replay` | efibootmanager_policy.go:272-284 | Extends the branch with the replayed part of the log |
| `BootManager.ReplayedExactly` | efibootmanager_policy.go:272-284 | The replayed part of a log are the digests of its PCR 4 events at ascending positions, all of them up to and including the first separator |
| `LoadEvents.RoutesExactly` | efibootmanager_policy.go:302-326 | The enumerated routes are exactly the sequences that start with one of the events, go on to one of the next, and stop where nothing follows |
| `BootManager.MeasureEvent` | efibootmanager_policy.go:302-310 | Extending a branch with an image keeps the paths through every branch |
| `BootManager.Split` | efibootmanager_policy.go:312-320 | Splitting a branch for several load events keeps the paths through every branch |
| `BootManager.OrPassInAnyOrder` | efibootmanager_policy.go:327-336 | The choices can be added to the branches in any order |
| `BootManager.Generator.ProcessAll` | efibootmanager_policy.go:302-326 | The worklist terminates with complete branches, and fails exactly if some image cannot be hashed |
| `BootManager.Generator.AddEFIBootManagerProfile` | efibootmanager_policy.go:255-339 | Succeeds exactly if the algorithm is logged and all images can be hashed, and then the profile means the caller's instructions, the replayed log, and one path for each way through the images |
| `BootManager.EvaluatesToRoutes` | efibootmanager_policy.go:255-339 | Evaluation gives the combinations of the caller, each with one PCR 4 value per root-to-leaf route: the replayed log extended with the digests of its images |
| `BootManager.AllowsExactlyRoutes` | efibootmanager_policy.go:255-339 | A combination is allowed by the profile exactly if it is one of the caller's with PCR 4 folded from zero over the replayed log and the images of some way through them |
| `SignatureDb.Reader.NextSignatureList` | secureboot_policy.go:199-260 | Reads the next signature list; only the very end of the input is a proper end |
| `SignatureDb.ReadIsEncodable` | secureboot_policy.go:199-260 | A list that was read has signatures of its stated size, and its sizes fit into 32 bits |
| `SignatureDb.ReadIsWritten` | secureboot_policy.go:199-260 | A list that was read and holds signatures was read from exactly its encoding |
| `SignatureDb.DecodeSecureBootDb` | secureboot_policy.go:282-314 | All entries of all lists in order, or an error |
| `SignatureDb.DecodeEncoded` | secureboot_policy.go:408-441 | Decoding an encoded list gives the list |
| `SignatureDb.DecodeAppend` | secureboot_policy.go:444-453 | Decoding an appended database decodes both parts |
| `SignatureDb.LookupIsRight` | secureboot_policy.go:361-396 | In a database that decodes, the search finds a signature exactly if the database holds it |
| `SignatureDb.RewrittenListFits` | secureboot_policy.go:408-441 | A rewritten list is never larger than the list it comes from, so its 32-bit size does not wrap |
| `SignatureDb.ComputeDbUpdate` | secureboot_policy.go:328-454 | The database with the filtered update appended, or an error |
| `SignatureDb.AuthInfoSkipped` | secureboot_policy.go:328-360 | The signature lists of an update with a time stamp, a PKCS7 certificate of any length and these lists are the lists |
| `SignatureDb.AuthInfoFound` | secureboot_policy.go:328-360 | Whatever update is accepted has this form |
| `SignatureDb.UpdateAppends` | secureboot_policy.go:328-454 | For a database that decodes, an update succeeds exactly if it is well-formed, and the result decodes to the old entries followed by those the database lacked |
| `SignatureDb.HoldsAfter` | secureboot_policy.go:361-441 | With the lacking signatures added, a database holds what it held and what the update brings, and nothing else |
| `SignatureDb.UpdateIsIdempotent` | secureboot_policy.go:328-454 | Applying the same update again changes nothing |
| `SignatureDb.IgnoringOwnersAddsLess` | secureboot_policy.go:316-326 | Ignoring owners adds a subsequence of what the strict comparison adds |
| `SecureBoot.SearchAuthority` | secureboot_policy.go:893-942 | The nested loops find the first authority, by signature, then database, then entry |
| `SecureBoot.AuthorityIsFirst` | secureboot_policy.go:893-942 | The authority is the least trusting certificate in the order of signatures, databases and entries, and there is none exactly if no certificate trusts a signature |
| `SecureBoot.VariableLayout` | secureboot_policy.go:964-973 | The data of a variable event octet by octet: the GUID, the lengths of name and contents as 64-bit numbers, the name in 16-bit units, the contents |
| `SecureBoot.VariableDigestInjective` | secureboot_policy.go:964-973 | The digest of a variable event determines the owner, the name and the contents of the variable |
| `SecureBoot.AuthorityDigestExactly` | secureboot_policy.go:949-973 | Authorities are measured alike exactly if database and certificate agree, and for firmware also the recorded owner |
| `SecureBoot.MeasuredOnce` | secureboot_policy.go:862-980 | A route boots exactly if every image on it has an authority; then it measures the authorities in order, without those that the same source has measured already, where a new shim forgets what the shim before it has measured |
| `SecureBoot.RouteBootsExactly` | secureboot_policy.go:853-980 | A route boots exactly if every image on it has a signer that the database trusts, or the certificate of the last shim started before it; images that shim loads need such a shim |
| `SecureBoot.AuthorityOnRoute` | secureboot_policy.go:853-980 | What is measured for an image: its first trusted signer, and for that the first certificate of the database, with the owner if firmware measures, or else the certificate of the active shim as the variable `Shim` |
| `SecureBoot.LacksShimExactly` | secureboot_policy.go:893-900 | A route fails for a missing shim exactly if an image that shim should load comes before any shim, and all images before it are trusted |
| `SecureBoot.BootPathsLed` | secureboot_policy.go:887-980 | The bootable paths through an image are those after it, with what its verification measures in front |
| `SecureBoot.WalkInMore` | secureboot_policy.go:893-947 | A route that boots still boots when the database has grown |
| `SecureBoot.BootPathsInMore` | secureboot_policy.go:1200-1241 | Bootability is monotone in the signature database |
| `SecureBootProfile.VerifyStep` | secureboot_policy.go:887-984 | Verifying an image in a branch keeps the bootable paths through every branch |
| `SecureBootProfile.ForkStep` | secureboot_policy.go:675-691 | Creating a sub-branch keeps the bootable paths through every branch |
| `SecureBootProfile.SettleStep` | secureboot_policy.go:1182-1192 | A branch without further load events is complete |
| `SecureBootProfile.SurvivesExactly` | secureboot_policy.go:1200-1224 | Pruning keeps exactly the branches with a bootable path |
| `SecureBootProfile.SurvivorsMean` | secureboot_policy.go:1200-1224 | The profiles of surviving branches denote exactly their bootable paths, depth first |
| `SecureBootGenerator.Generator.VerifyBranch` | secureboot_policy.go:887-984 | Verifies an image in one branch in place; fails only if a live branch needs a shim that is not there; a branch that has sub-branches is never extended |
| `SecureBootGenerator.Generator.ProcessOSLoadEvent` | secureboot_policy.go:1117-1143 | Verifies an image in all branches that wait for it, and starts it if it is shim; each error has its cause |
| `SecureBootGenerator.Generator.SplitBranches` | secureboot_policy.go:988-998 | Every live branch gets a sub-branch for each load event, in order; unbootable ones get none |
| `SecureBootGenerator.Generator.ProcessAll` | secureboot_policy.go:1176-1198 | The worklist terminates with complete branches, and fails exactly if an image cannot be read or a shim is missing |
| `SecureBootGenerator.Generator.PruneBranch` | secureboot_policy.go:1200-1224 | A branch offers its live sub-branches or is given up; its profile is there whenever it is used |
| `SecureBootGenerator.Generator.Prune` | secureboot_policy.go:1200-1224 | The backward pass prunes all branches |
| `SecureBootGenerator.Generator.Run` | secureboot_policy.go:1145-1244 | Succeeds exactly if all images can be read, no live branch lacks a shim, and the current database boots something; then the choice denotes, level by level and depth first, exactly the bootable paths; each error has its cause |
| `SecureBootGenerator.UnreadableExactly` | secureboot_policy.go:1117-1143 | Loading fails for an unreadable image exactly if some chain of load events leads to one |
| `SecureBootGenerator.RunsExactly` | secureboot_policy.go:1145-1244 | A run succeeds exactly if no chain leads to an unreadable image, no way needs a missing shim with any number of updates, and with the current database some way boots |
| `SecureBootPolicy.ApplyUpdates` | secureboot_policy.go:735-766 | The database of a variable with the updates meant for it applied in order |
| `SecureBootPolicy.AppliedHolds` | secureboot_policy.go:735-766 | Applying the updates fails exactly if one that is meant for the variable is malformed; otherwise the database holds what it held and what those updates bring |
| `SecureBootPolicy.ProcessPreOSEvents` | secureboot_policy.go:806-849 | The PCR 7 measurements before the OS, with databases recomputed, and the context they leave |
| `SecureBootPolicy.PreOsMeasures` | secureboot_policy.go:806-849 | Before the OS one digest is measured for each PCR 7 event in order, the logged one except for the three databases, which have their future contents; the verifications are remembered, and that of the launch is added if it was there before |
| `SecureBootPolicy.CurrentBootIsMeasured` | secureboot_policy.go:806-849 | With the databases as logged, what is measured before the OS are the logged digests of PCR 7 |
| `SecureBootPolicy.LevelGrows` | secureboot_policy.go:735-796 | With one more update applied the authorized signature database has grown |
| `SecureBootPolicy.EveryLevelBoots` | secureboot_policy.go:1200-1241 | If the current database boots anything, every level of updates contributes to the profile |
| `SecureBootPolicy.IdentifyInitialOSLaunchVerificationEvent` | secureboot_policy.go:527-560 | Returns a launch exactly if it is the last verification before the first image load after the transition, with whether it was before the transition; each error exactly if its cause holds |
| `SecureBootPolicy.UsableExactly` | secureboot_policy.go:1327-1367 | A log is a basis for the profile exactly if it has the algorithm, nothing returned to the boot manager, secure boot was on and measured first, and validation in shim was not disabled |
| `SecureBootPolicy.AddEFISecureBootPolicyProfile` | secureboot_policy.go:1316-1402 | Each outcome exactly under its condition: algorithm, disturbed boot, launch, replay at every level, and what the two runs need; on success the profile means PCR 7 set to zero and then the paths of both update quirks over all levels, replayed up to the launch |
| `SecureBootPolicy.EvaluatesToBoots` | secureboot_policy.go:1316-1402 | A combination of PCR values is allowed by the profile exactly if it is one of the caller's with the PCR 7 value that booting along some route leads to, with some number of updates and either quirk |
| `SnapModel.DigestExactly` | snapmodel_policy.go:50-73 | Model digests are equal exactly if model, series, grade, and key and brand together are equal |
| `SnapModel.DigestLayers` | snapmodel_policy.go:35-73 | The three hashes of a model and what each of them covers, and the hash of the epoch |
| `SnapModel.DigestBindsModel` | snapmodel_policy.go:50-73 | For key identifiers of one length the digest determines every field |
| `SnapModel.KeyLengthMatters` | snapmodel_policy.go:50-73 | For key identifiers of different lengths it does not |
| `SnapModel.AddSnapModelProfile` | snapmodel_policy.go:115-140 | The epoch and one choice per model, or the error; on a bad model the epoch stays in the profile |
| `SnapModel.MeasureSnapPropertyToTPM` | snapmodel_policy.go:142-182 | Extends all banks with the epoch or the model digest, or none if a digest cannot be computed or the TPM does not have the PCR |
| `SnapModel.BranchPerModel` | snapmodel_policy.go:115-140 | One branch per model, with the value that measuring the epoch and that model leads to |
| `SnapModel.ApprovedExactlyIfListed` | snapmodel_policy.go:115-182 | Measuring the epoch and a model leads to a branch of the profile exactly if the model is listed |
| `SnapModel.MeasuringApprovedExactly` | snapmodel_policy.go:115-182 | A TPM to which the epoch and a model are measured ends in a branch of the profile exactly if the model is listed |
| `RecoveryKey.ToString` | crypt.go:62-68 | The loop produces the text of the key |
| `RecoveryKey.ParseRecoveryKey` | crypt.go:77-101 | The loop that consumes the text fills the key as specified; a text that is not accepted gives an error and a key of zeroes |
| `RecoveryKey.ParseText` | crypt.go:62-101 | Parsing the text of a key gives the key |
| `RecoveryKey.AcceptsExactly` | crypt.go:70-101 | Accepts exactly eight groups of five digits of at most 65535, with at most one dash between two and none around them |
| `RecoveryKey.AcceptedIsText` | crypt.go:70-101 | Apart from dashes an accepted text is the text of its key |

## Left out

- Version 0 metadata: its PIN and lock indices and its policy paths add branches, but no new kind of argument.
- The marshalling of key files and of the sealed data, the anti-forensic split of private data, X.509 and PKCS7 decoding, PE decoding and log parsing: their results are inputs of the model. A PE image comes with its decoded headers, its signers, and the certificates that issued them.
- Process, keyring, LUKS and FIFO code, TPM connection and provisioning, and the output of the key synchronisation tool: the list of pending updates is an input.
- Concurrent updates of the same files: the code takes no lock and promises nothing.
- TPM lockout, transient TPM failures, and failing file system calls other than losing power: they would only add early returns without effects.
- Hash algorithms that the library does not support, and errors from loading an invalid signing key into the TPM.
- PCR banks are one map keyed by algorithm and index, and a PCR selection is a set; the order inside a selection list is fixed by the TPM.
- Counters and counts are unbounded; the 64-bit counter of a TPM does not overflow in practice.
- The text form of profiles for debugging.
- Device.Machine.SealKeyToTpmMultiple: the record of signed policies contains the new policy already while the counter is being created, so the results about it cover more policies than were really signed.
- PcrEvaluator.ComputePcrValues: a profile is a value in the evaluator, so that it is never modified holds by construction; in the generators, branches refer to each other by their position in the list of all branches.
- Authenticode.ComputePeImageDigest: sections with the same offset are sorted stably, although the sorting routine of the library leaves their order open.
- SignatureDb.ComputeDbUpdate: an authentication header whose length is too small for its own fields stops the program in the source, and is an error here.
- BootManager.Generator.AddEFIBootManagerProfile: the image errors are reported in breadth-first order by the source; the contract only says that the error belongs to one of the images.
- SecureBootPolicy.AddEFISecureBootPolicyProfile: the profile is a result here; in the source the initial PCR value stays in the caller's profile when a later step fails.
- SecureBootGenerator.Generator.Run: if an image cannot be read and a shim is missing as well, the contract leaves open which of the two errors is reported; machine owner keys are not supported by the source either, and are left out; the number of applied updates of a branch is its position among the roots.
