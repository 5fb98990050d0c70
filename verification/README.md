# Concordium base: identity issuance, wallet tools, chain parameters, secret sharing and Wasm metering

A Dafny model of the parts of the repository in which a small change of a line would break a promise
that no single line makes. `dafny verify dfyconfig.toml` checks everything.

- **Identity issuance** (`IdentityStore`, `IdentityProtocol`, `IdentityProofs`, `IdentityOnce`,
  `IdentityTheorems`, `IdentitySubmissions`, `IdentityVerifier`, `IdentityHandlers`). The database of the identity provider is a
  class whose methods are the atomic steps under its lock. The service is a state machine in which the
  handlers interleave between any two of these steps, the wallet proxy may answer anything, renames may fail
  and the server may restart at any time. Two invariants are proved for every run, one of them for runs in
  which no key is created twice, and from them: what a wallet that polls is told, that a finalized identity is
  not moved away, that a restart changes nothing a poll can see, that every identity object can be revoked, and
  that every object and attribute list goes back to a validated request.
- **BIP-39 sentences** (`Bip39`, `Rerandomize`). The verifier accepts exactly the outputs of the encoder, for
  every list of 2048 different words and every hash function with 32 bytes of output. The HKDF input of the
  rerandomization is characterised up to equality.
- **Chain parameters** (`Decimals`, `ChainParameters`, `Codecs`, `CodecStreams`). Decimal normal forms,
  reduced fractions, and binary codecs that are inverse to each other in both directions and self-delimiting.
- **Anonymity revocation** (`Fields`, `SecretSharing`, `ShareCombination`). Shamir sharing over an arbitrary
  field: threshold-many shares give the secret back, one less never does, fewer say nothing about it at all,
  an altered share changes the result, and the tool reaches interpolation only with files for which this holds.
- **Wasm metering** (`Wasm`, `Metering`, `MeteringProofs`, `MeteringSimulation`, `MeteringTheorems`). The
  transformation that inserts energy charges into all functions of a module preserves the outcome of every
  invocation, through all the calls it makes, charges before the work is done, and in the end exactly for it.
- **Smaller tools** (`AccountTrace`, `SigningLayouts`, `KeyGeneration`, `AttributeSelection`). Paging,
  byte layouts of what is signed, key derivation chains, and attribute selection.

`Bytes` holds what they share.

No proof uses automatic induction: a lemma for which Dafny would try it carries `{:induction false}`. In Dafny
4.11 the automatic hypothesis for a natural number is not confined to natural numbers, and can prove too much.

Where the code and its comments differ, the model follows the code:

- `rust-bins/src/lib.rs:480-482` says the separator keeps word lists apart. That holds for words without
  spaces; `Rerandomize.SpacesCollide` gives two lists for which it fails and `Rerandomize.KeyMaterialCollides`
  says when it holds.
- `rust-src/concordium_base/src/id/secret_sharing.rs:99-102` and `:155-156` say that points are moved by one.
  The code uses them as they are; revoker identities are never zero (`rust-src/concordium_base/src/id/types.rs:182-196`),
  and `SecretSharing.OneShareShort` shows why they must not be.
- `delete_all` renames into two backup directories that opening the database does not create
  (`identity-provider-service/src/bin/main.rs:284-287`, `main.rs:511-517`). Whether a rename succeeds is part of
  the step, and `IdentityTheorems.FailedRenameIsToldDone` shows what follows when it does not.

## Model

| member | source | states |
|---|---|---|
| `IdentityStore.DB.constructor` | identity-provider-service/src/bin/main.rs:281-306 | opening rebuilds the pending table from the pending files and keeps every directory |
| `IdentityStore.DB.WriteRequestRecord` | identity-provider-service/src/bin/main.rs:311-345 | only the request record of the key changes |
| `IdentityStore.DB.ReadRequestRecord` | identity-provider-service/src/bin/main.rs:347-374 | gives the record exactly for a safe key, in the flow it was made for |
| `IdentityStore.DB.WriteRevocationRecord` | identity-provider-service/src/bin/main.rs:376-395 | only the revocation record of the key changes |
| `IdentityStore.DB.WriteIdentityObject` | identity-provider-service/src/bin/main.rs:399-439 | only the identity object of the key changes |
| `IdentityStore.DB.ReadIdentityObject` | identity-provider-service/src/bin/main.rs:441-454 | gives the object exactly for a safe key that has one |
| `IdentityStore.DB.IsDuplicateKey` | identity-provider-service/src/bin/main.rs:456-465 | for a safe key, whether it has an object or a revocation record |
| `IdentityStore.DB.WritePendingEntry` | identity-provider-service/src/bin/main.rs:469-485 | the entry goes to the file and to the table in memory |
| `IdentityStore.DB.UpdateStatus` | identity-provider-service/src/bin/main.rs:586-601 | the entry of a pending key takes the new status and keeps its submission, in the table in memory only; nothing changes for any other key |
| `IdentityStore.DB.MarkFinalizedEntry` | identity-provider-service/src/bin/main.rs:488-501 | removes entry and file of a pending key and nothing else; does nothing for any other key |
| `IdentityStore.DB.DeleteEntry` | identity-provider-service/src/bin/main.rs:504-529 | for a pending key, removes entry and file and moves record and object as far as the renames succeed; does nothing for any other key |
| `IdentityProofs.PendingMirroredStep` | identity-provider-service/src/bin/main.rs:469-529 | every step keeps the pending table and the pending files at the same keys and submissions |
| `IdentityProofs.RevocationKeptStep` | identity-provider-service/src/bin/main.rs:504-529 | every step keeps a revocation record, live or in backup, for every object stored or about to be |
| `IdentityProofs.TasksSoundStep` | identity-provider-service/src/bin/main.rs:1214-1361 | every step keeps each handler in flight at a request validated for its key and attributes held under it |
| `IdentityProofs.ObjectsSoundStep` | identity-provider-service/src/bin/main.rs:1305-1361 | every step keeps each stored object paired with the request and attributes of its own key |
| `IdentityProofs.InvariantRun` | identity-provider-service/src/bin/main.rs:281-529 | the invariant holds in every state of every run, whatever the interleaving, the answers and the renames |
| `IdentityOnce.UntouchedKey` | identity-provider-service/src/bin/main.rs:488-529 | no step touches the record or object of a key that is neither pending nor being created by the acting handler |
| `IdentityOnce.CreatorsOkStep` | identity-provider-service/src/bin/main.rs:1214-1403 | every step keeps one creation handler per key at most, whose progress shows in the store |
| `IdentityOnce.LifecycleStep` | identity-provider-service/src/bin/main.rs:488-529 | every step keeps a recorded key pending until it is settled, by finalization or rejection and never both |
| `IdentityOnce.StatusOkStep` | identity-provider-service/src/bin/main.rs:586-601 | every step keeps the status on file equal to the one in memory or at could-not-submit |
| `IdentityOnce.PollsOkStep` | identity-provider-service/src/bin/main.rs:653-705 | every step keeps all answers given so far, and those about to be given, correct |
| `IdentityOnce.OnceInvariantRun` | identity-provider-service/src/bin/main.rs:281-705 | the stronger invariant holds in every state of every run that creates no key twice |
| `IdentityTheorems.PollAnswers` | identity-provider-service/src/bin/main.rs:575-705 | after a key is recorded a poll is told Pending exactly while it is unsettled, Error exactly if its object was moved away, and Done otherwise, which takes a finalization or a failed rename of that key |
| `IdentityTheorems.PollAnswersWithBackup` | identity-provider-service/src/bin/main.rs:575-705 | if no rename for the key failed, such a poll is told Done exactly if the key was finalized and Error exactly if a resubmission was rejected |
| `IdentityTheorems.DoneMeansFinalized` | identity-provider-service/src/bin/main.rs:575-705 | of all answers Done, early or late, those are due to a finalization that came after the recording for a key that was not rejected, and no others |
| `IdentityTheorems.EarlyPollAnswers` | identity-provider-service/src/bin/main.rs:653-705 | a poll before the recording is never told Pending, and Done only for a key whose creation has begun |
| `IdentityTheorems.EarlyPollIsToldDone` | identity-provider-service/src/bin/main.rs:1353-1380 | a run in which a poll before the recording is told Done although nothing was finalized |
| `IdentityTheorems.FailedRenameIsToldDone` | identity-provider-service/src/bin/main.rs:504-529 | a run in which a failed rename makes a rejected account look done |
| `IdentityTheorems.RecreatedIsToldDone` | identity-provider-service/src/bin/main.rs:1214-1380 | a run with successful renames in which a rejected key is created again and looks done before it is submitted |
| `IdentityTheorems.FirstRemovalWins` | identity-provider-service/src/bin/main.rs:488-529 | of finalizing and deleting the same key, the second is a no-op, and the order matters |
| `IdentityTheorems.SettledStays` | identity-provider-service/src/bin/main.rs:488-529 | over any run, a key that is not pending has its object and record left in place until it is recorded as pending again |
| `IdentityTheorems.SettledIsKept` | identity-provider-service/src/bin/main.rs:488-529 | over any run that creates no key twice, a settled key keeps the very same object and record |
| `IdentityTheorems.RestartIsFaithful` | identity-provider-service/src/bin/main.rs:281-306 | a restart after any run changes no key's classification and loses no submission; without repeated creation a restored status is the old one or could-not-submit |
| `IdentityTheorems.ObjectsAreRevocable` | identity-provider-service/src/bin/main.rs:1891-1926 | after any run an object on disk has a revocation record under its key; without repeated creation a live record agrees with the live object, also in the number of accounts |
| `IdentityTheorems.AttributesAreAuthorized` | identity-provider-service/src/bin/main.rs:948-1019 | after any run the verifier holds attributes only under hashes that the provider signed for a validated request |
| `IdentityTheorems.ObjectsAreAuthorized` | identity-provider-service/src/bin/main.rs:1221-1361 | after any run a stored object pairs a version 0 request whose proofs were valid and whose hash is the key with attributes held under that key, for at most 200 accounts |
| `IdentitySubmissions.SubmissionsAreAuthorized` | identity-provider-service/src/bin/main.rs:1305-1380 | after any run an account is pending only for a version 0 request validated for its key, with attributes held under that key |
| `IdentitySubmissions.FirstSubmissionRecords` | identity-provider-service/src/bin/main.rs:1363-1383 | an accepted account is recorded as received under the identifier given, in memory and on file; a rejected one is not recorded; any other is recorded as not submitted |
| `IdentitySubmissions.AcceptedResubmission` | identity-provider-service/src/bin/main.rs:586-595 | an accepted resubmission makes the status in memory that of the identifier given, and keeps the submission, the file, the object and all other entries |
| `IdentitySubmissions.AcceptedThenFinalized` | identity-provider-service/src/bin/main.rs:575-614 | after an accepted resubmission the next poll asks under the identifier given; once it is finalized the key is settled, and done exactly if its object is there |
| `IdentitySubmissions.AcceptedThenForgotten` | identity-provider-service/src/bin/main.rs:281-306 | a restart after an accepted resubmission makes the next poll submit the same account again |
| `IdentitySubmissions.DeletedIsMoved` | identity-provider-service/src/bin/main.rs:504-529 | a deleted object or record is in the backup unchanged, or still in place if its rename failed; those of other keys stay |
| `IdentitySubmissions.MovedIsInBackup` | identity-provider-service/src/bin/main.rs:504-529 | over any run, an object that was moved away stays in the backup |
| `IdentityVerifier.Verifier.Submit` | identity-provider-service/src/bin/identity_verifier.rs:118-262 | attributes are stored exactly for a form with a valid signature on the decoded key, and are the fields of the form that are not empty and not one of its own five; each redirect carries the fields of the form |
| `IdentityVerifier.WithoutDashesAppend` | identity-provider-service/src/bin/identity_verifier.rs:218-221 | of the expiry date nothing but the dashes is dropped, and the order stays |
| `IdentityVerifier.StoringIsAStep` | identity-provider-service/src/bin/identity_verifier.rs:189-251 | if only what the provider signed verifies, storing a form is a step of the protocol |
| `IdentityHandlers.Followup` | identity-provider-service/src/bin/main.rs:575-650 | run without interruption, the followup is the two steps of the protocol; an account not submitted takes the answer of the wallet proxy in memory or is removed, a submitted one is removed when finalized, and nothing else changes |
| `IdentityHandlers.GetIdentityToken` | identity-provider-service/src/bin/main.rs:653-705 | the answer is the classification of the key in the state the followup leaves |
| `IdentityHandlers.RequestIdentityObject` | identity-provider-service/src/bin/main.rs:948-1019 | the user is sent to the verifier exactly for a version 0 request with valid proofs whose key is safe and has neither object nor record; only then is the record written and the hash signed, as two steps of the protocol |
| `IdentityHandlers.CreateSignedIdentityObject` | identity-provider-service/src/bin/main.rs:1214-1534 | run without interruption, creation is a run of the protocol; a refusal before signing writes nothing, otherwise record and object are those of the request and the attributes, and in version 0 the entry is pending unless the account was rejected |
| `Base16.DecodeEncode` | identity-provider-service/src/bin/main.rs:267-273 | decoding printed bytes gives them back, and what is printed is a safe file name exactly for fewer than 100 bytes, as a hash is |
| `Base16.EncodeIsLowerCase` | identity-provider-service/src/bin/main.rs:267-273 | printed bytes consist of decimal digits and the letters a to f |
| `Bip39.WordMapInverts` | rust-bins/src/lib.rs:36-41 | the word map is the inverse of the word list |
| `Bip39.VerifyBip39` | rust-bins/src/lib.rs:376-416 | the result is whether the number of words is allowed, all are known, and the last bits are the hash of the others |
| `Bip39.BytesToBip39` | rust-bins/src/lib.rs:421-461 | the result is the sentence of the bytes, or an error exactly for a length that is not allowed |
| `Bip39.AcceptedIsSentence` | rust-bins/src/lib.rs:376-416 | an accepted sentence is the encoding of the entropy read from it |
| `Bip39.SentenceIsAccepted` | rust-bins/src/lib.rs:421-461 | the encoding of any bytes of an allowed length is accepted and gives the bytes back |
| `Bip39.AcceptsExactlySentences` | rust-bins/src/lib.rs:376-461 | a sentence is accepted if and only if it encodes some bytes of an allowed length, which are then unique |
| `Bip39.SentenceLayout` | rust-bins/src/lib.rs:435-458 | bit by bit, the words spell the bytes from the most significant bit on, then the most significant bits of the first byte of the hash, one for every four bytes |
| `Rerandomize.KeyMaterialCollides` | rust-bins/src/lib.rs:476-492 | two inputs give the same key material if and only if the random bytes are equal and the words are equal once cut at spaces |
| `Rerandomize.KeyMaterialDetermines` | rust-bins/src/lib.rs:476-492 | for words without spaces the key material determines words and random bytes |
| `Rerandomize.SpacesCollide` | rust-bins/src/lib.rs:480-482 | two different lists, one with a space inside a word, give the same key material |
| `Rerandomize.RerandomizeBip39` | rust-bins/src/lib.rs:466-498 | the result has 24 words, is accepted, and encodes the extracted key material |
| `Decimals.NormalizeIsLeast` | rust-src/concordium_base/src/base.rs:1415-1419 | normalizing keeps the value and leaves no trailing zero |
| `Decimals.NormalForm` | rust-src/concordium_base/src/base.rs:1353-1429 | every way to write a value is its normal form with zeros appended |
| `Decimals.PartsFromDecimal` | rust-src/concordium_base/src/base.rs:1353-1373 | the result is p exactly if the value is p/100000 with p in range, and each error exactly for its own class of values |
| `Decimals.PartsRoundTrip` | rust-src/concordium_base/src/base.rs:988-990 | converting parts to a decimal and back gives the parts |
| `Decimals.RateFromDecimal` | rust-src/concordium_base/src/base.rs:1412-1429 | succeeds exactly for values with some 32-bit mantissa, keeps the value, and has the least exponent and mantissa |
| `Decimals.RateRoundTrip` | rust-src/concordium_base/src/base.rs:1393-1429 | printing and parsing a rate gives a rate of the same value with no larger exponent, and doing it again changes nothing |
| `Decimals.ReducedIsCanonical` | rust-src/concordium_base/src/base.rs:1393-1429 | two rates parse to the same rate if and only if they are equal in value |
| `ChainParameters.LeverageIsReduced` | rust-src/concordium_base/src/base.rs:1087-1100 | a factor is accepted if and only if it is at least one and its parts have no common factor |
| `ChainParameters.LeverageIsUnique` | rust-src/concordium_base/src/base.rs:1087-1129 | two accepted factors of equal value have equal parts |
| `Codecs.DecodeEncode` | rust-src/concordium_base/src/base.rs:186-282 | decoding an encoding followed by any bytes gives the value and those bytes, for every parameter type |
| `Codecs.EncodeDecode` | rust-src/concordium_base/src/base.rs:992-1183 | an accepted input is well formed and encodes to exactly the bytes consumed |
| `Codecs.EncodingsAreSelfDelimiting` | rust-src/concordium_base/src/base.rs:483-496 | encodings of one type followed by anything are equal only for equal values |
| `Codecs.EncodeLaysOut` | rust-src/concordium_base/src/base.rs:1027-1150 | where each field of every parameter type stands in its encoding, and that numbers are big-endian of the width of their type |
| `CodecStreams.Serial` | rust-src/concordium_base/src/base.rs:258-268 | appends exactly the encoding to the buffer |
| `CodecStreams.Deserial` | rust-src/concordium_base/src/base.rs:1045-1183 | reads what the parser gives and leaves the bytes it leaves, failing where it fails |
| `CodecStreams.SerialThenDeserial` | rust-src/concordium_base/src/base.rs:1123-1183 | what is written is read back, and the bytes after it stay unread |
| `SecretSharing.Horner` | rust-src/concordium_base/src/id/secret_sharing.rs:132-147 | the loop from the highest coefficient computes the value of the polynomial |
| `SecretSharing.Share` | rust-src/concordium_base/src/id/secret_sharing.rs:96-153 | one coefficient less than the threshold, each a draw of its own and the highest the nonzero draw, and shares that are the values at the points of the polynomial with these coefficients and the secret |
| `SecretSharing.EveryPolynomialIsDrawn` | rust-src/concordium_base/src/id/secret_sharing.rs:104-129 | some draws give any coefficients whose highest is not zero |
| `SecretSharing.WeightsAddUp` | rust-src/concordium_base/src/id/secret_sharing.rs:157-172 | the Lagrange weights of distinct points add up to one |
| `SecretSharing.RevealMisses` | rust-src/concordium_base/src/id/secret_sharing.rs:177-185 | by how much interpolation misses the value at zero, for any polynomial and any number of distinct points |
| `SecretSharing.ThresholdReveals` | rust-src/concordium_base/src/id/secret_sharing.rs:174-185 | interpolating at least threshold-many shares at distinct points gives the secret |
| `SecretSharing.OneShareShort` | rust-src/concordium_base/src/id/secret_sharing.rs:114-129 | one share less gives the secret if and only if the highest coefficient or a point is zero |
| `SecretSharing.TooFewSharesHide` | rust-src/concordium_base/src/id/secret_sharing.rs:104-129 | fewer shares than the threshold, at distinct nonzero points, are consistent with every secret, except that one share less excludes the value that interpolating gives |
| `SecretSharing.TooFewDealtSharesHide` | rust-src/concordium_base/src/id/secret_sharing.rs:96-153 | fewer shares than the threshold are dealt for a secret with some draws if and only if it is not the one value that interpolating one share less gives |
| `SecretSharing.AlteredShare` | rust-src/concordium_base/src/id/secret_sharing.rs:177-185 | altering one share alters the result if and only if no other share is at the point zero |
| `SecretSharing.RevealInExponent` | rust-src/concordium_base/src/id/secret_sharing.rs:189-196 | interpolating group elements is interpolating their exponents |
| `SecretSharing.SharesReveal` | rust-src/concordium_base/src/id/secret_sharing.rs:96-185 | for distinct nonzero 64-bit points, dealt shares reveal the secret from the threshold on, and never at one below it |
| `ShareCombination.Sort` | rust-bins/src/bin/anonymity_revocation.rs:403-403 | an ordered permutation of the identities |
| `ShareCombination.Dedup` | rust-bins/src/bin/anonymity_revocation.rs:404-404 | of an ordered list, the distinct elements; shorter exactly if two neighbours are equal |
| `ShareCombination.Gather` | rust-bins/src/bin/anonymity_revocation.rs:371-410 | succeeds if and only if there are threshold-many and at most 255 files, all readable, with distinct nonzero 32-bit identities; each failure has its own condition |
| `ShareCombination.CombineId` | rust-bins/src/bin/anonymity_revocation.rs:355-423 | interpolates in the group exactly for a version 0 credential of an account that is not initial and files that may be combined |
| `ShareCombination.CombinePrf` | rust-bins/src/bin/anonymity_revocation.rs:425-489 | interpolates in the field exactly for a version 0 record and files that may be combined |
| `ShareCombination.CombinedPrfKey` | rust-src/concordium_base/src/id/anonymity_revoker.rs:19-24 | files that may be combined and hold what was dealt give the shared key |
| `ShareCombination.OneFileShort` | rust-bins/src/bin/anonymity_revocation.rs:371-410 | files that are accepted under a smaller threshold, one less than the key was dealt for, never give the key |
| `ShareCombination.CombinedIdCredPub` | rust-src/concordium_base/src/id/anonymity_revoker.rs:5-17 | the same in the exponent, for the public identifier |
| `Wasm.BranchLeaves` | smart-contracts/wasm-transform/src/metering_transformation.rs:24-34 | a branch keeps the operands below its block, and one more exactly if the block has a result |
| `Wasm.ReturnResumes` | smart-contracts/wasm-transform/src/machine.rs:720-745 | a return from inside any blocks resumes the caller with its own operands and the result, if there is one |
| `Metering.Transformer.AccountEnergyPushPending` | smart-contracts/wasm-transform/src/metering_transformation.rs:687-701 | the pending energy is charged, then the pending instructions follow; fails exactly for a charge of more than 32 bits |
| `Metering.Transformer.Transform` | smart-contracts/wasm-transform/src/metering_transformation.rs:727-901 | what one instruction adds to the output or to the pending instructions, calls moved by one, how the labels change, and when it fails |
| `Metering.Transformer.Run` | smart-contracts/wasm-transform/src/metering_transformation.rs:721-907 | the single pass with accumulators produces the code in which every segment is paid for at its start, and fails exactly if something is missing or a charge is too large |
| `Metering.InjectAccounting` | smart-contracts/wasm-transform/src/metering_transformation.rs:947-978 | the same for a whole function, with its entry cost in the first charge |
| `Metering.InjectMetering` | smart-contracts/wasm-transform/src/metering_transformation.rs:1023-1068 | the function that charges for memory is put in front, every defined function is replaced by its metered form, and the table is moved by one; or nothing if one cannot be metered |
| `MeteringProofs.EndsCorrespond` | smart-contracts/wasm-transform/src/metering_transformation.rs:739-884 | a block of the metered code ends where the metered form of what follows the original block begins |
| `MeteringProofs.ElsesCorrespond` | smart-contracts/wasm-transform/src/metering_transformation.rs:753-789 | the same for the alternatives of conditionals |
| `MeteringSimulation.ShortTaken` | smart-contracts/wasm-transform/src/metering_transformation.rs:847-863 | the block that replaces a taken branch without result charges for it and arrives where the branch does |
| `MeteringSimulation.LongTaken` | smart-contracts/wasm-transform/src/metering_transformation.rs:864-875 | the same for a branch with a result |
| `MeteringSimulation.LongNotTaken` | smart-contracts/wasm-transform/src/metering_transformation.rs:864-875 | a branch with a result that is not taken leaves operands and labels as they were and charges nothing |
| `MeteringSimulation.SimulateGrow` | smart-contracts/wasm-transform/src/metering_transformation.rs:790-795 | growing the memory is preceded by a call that charges for it and changes nothing else |
| `MeteringTheorems.Catch` | smart-contracts/wasm-transform/src/metering_transformation.rs:721-907 | every step of the original inside a function is matched by at least one of the metered code, with the charges balanced |
| `MeteringTheorems.SameFunction` | smart-contracts/wasm-transform/src/metering_transformation.rs:1042-1068 | one place further, the metered module has the metered form of every function of the original, imported or defined |
| `MeteringTheorems.CalleesAgree` | smart-contracts/wasm-transform/src/metering_transformation.rs:885-895 | the metered code calls, directly or by way of the table, the metered form of the function that the original calls, with the same operands |
| `MeteringTheorems.Match` | smart-contracts/wasm-transform/src/metering_transformation.rs:943-978 | every step of a program, also into and out of functions, is matched by at least one of the metered program, with the charges balanced |
| `MeteringTheorems.RunsAlike` | smart-contracts/wasm-transform/src/metering_transformation.rs:943-978 | at every step of an invocation the metered program has the same operands and state and has charged for all the work so far, in all functions called, and for the next instruction |
| `MeteringTheorems.SameOutcome` | smart-contracts/wasm-transform/src/metering_transformation.rs:943-978 | an invocation of the metered program finishes with given operands and state, or traps, if and only if the original does |
| `MeteringTheorems.ExactCharge` | smart-contracts/wasm-transform/src/metering_transformation.rs:37-57 | an invocation that finishes has been charged exactly the price of its steps and of entering every function called |
| `MeteringTheorems.WithinLimit` | smart-contracts/wasm-transform/src/metering_transformation.rs:37-57 | an invocation that finishes stays within a limit at all times if and only if its total price does |
| `AccountTrace.TraceIsExact` | rust-bins/src/bin/trace_account.rs:414-669 | exactly the transactions with a line are in the trace, numbered by the transactions before them that were not rejected |
| `AccountTrace.TraceIsOrdered` | rust-bins/src/bin/trace_account.rs:414-669 | the lines are in the order of the transactions, none twice |
| `AccountTrace.RenderIsExact` | rust-bins/src/bin/trace_account.rs:431-650 | a transaction that was not rejected has a line exactly if it is of interest and states all that its line needs, and stops the program exactly if it is of interest and does not |
| `AccountTrace.TraceAccount` | rust-bins/src/bin/trace_account.rs:414-669 | the paging loop writes the trace of the transactions handled, all of them in floor(N/limit)+1 requests if and only if none of these requests fails and no transaction is malformed |
| `SigningLayouts.MessageDigest` | mobile_wallet/src/lib.rs:74-87 | the digest is the hash of address, eight zero bytes and message |
| `SigningLayouts.MessagesAreNotTransactions` | mobile_wallet/src/lib.rs:74-87 | the hashed bytes of a message and of a transaction with a valid nonce are never equal, nor a prefix of each other |
| `SigningLayouts.NonceZeroIsAMessage` | rust-src/concordium_base/src/constants.rs:9-11 | the bytes of a transaction are those of some message of the sender if and only if the nonce is zero |
| `SigningLayouts.BodiesAreUnambiguous` | rust-src/concordium_base/src/transactions.rs:182-194 | the signed bytes determine header and payload |
| `SigningLayouts.BodyLayout` | rust-src/concordium_base/src/transactions.rs:182-194 | sender, nonce, energy, payload size, expiry and payload stand in the signed bytes at their own offsets, the numbers big-endian |
| `SigningLayouts.TransfersAreUnambiguous` | rust-bins/wallet-notes/drop.py:48-52 | the signed bytes of a transfer determine header, receiver and amount |
| `SigningLayouts.TransferLayout` | rust-bins/wallet-notes/drop.py:48-48 | the payload of a transfer is 3, 0, the receiver and the amount big-endian, in 42 bytes |
| `KeyGeneration.GeneratePublicKey` | rust-bins/src/bin/keygen-genesis.rs:186-209 | the components are the odd and even links of one alternating hash chain, and the last is the next even link hashed again into the second group |
| `KeyGeneration.PublicKeysAreNested` | rust-bins/src/bin/keygen-genesis.rs:186-209 | on the same seed a smaller bound gives prefixes of what a larger bound gives |
| `KeyGeneration.GenerateSecretKey` | rust-bins/src/bin/keygen.rs:635-660 | each scalar is derived from its own information; fails exactly if one derivation does |
| `KeyGeneration.KeyInfoReads` | rust-bins/src/bin/keygen.rs:635-660 | the information of a scalar is its index in four bytes, that of the last none |
| `KeyGeneration.KeyInfosDiffer` | rust-bins/src/bin/keygen.rs:635-660 | no two scalars of a key are derived from the same information |
| `KeyGeneration.SecretKeysAreNested` | rust-bins/src/bin/keygen.rs:635-660 | on the same seed a smaller bound gives a prefix and the same first scalar |
| `AttributeSelection.PolicyFromTags` | mobile_wallet/src/lib.rs:813-822 | succeeds if and only if the tags are distinct and present, and is then the attribute list restricted to them |
| `AttributeSelection.PolicyFromIndices` | rust-bins/src/bin/user_cli.rs:944-957 | succeeds if and only if the positions are in range and distinct, with the policy of the tags at them; otherwise stops at the first position out of range or repeated |

## Left out

- Curve arithmetic, pairings, ElGamal, Pointcheval-Sanders signatures, sigma proofs, bulletproofs, SHA-256 and HKDF: parameters with the size of their output, or the laws of a field and of scalar multiplication.
- File writes and deletions are atomic and succeed; only the renames into the backup directories may fail.
- Signatures between provider and verifier are a set of signed hashes; that nobody else can sign is the hypothesis of `IdentityVerifier.StoringIsAStep`.
- HTTP routing, replies, URLs and JSON: what is parsed and answered is a parameter of the step. The version 1 poll and identity recovery only read, and the failure-simulation endpoints have one branch each.
- `rust_decimal` is a library: removing trailing zeros and rescaling up to a 96-bit mantissa are modelled as its documentation describes them; reading and printing decimal text is not modelled.
- The JSON decoder of a leverage factor goes through the same constructor as the binary one, so `ChainParameters.LeverageIsReduced` is about both; JSON itself is not modelled.
- Whether bytes are UTF-8 is a predicate in the codecs; the rest of a reader after a failed read is not described.
- AccountTrace.TraceAccount: the 64-bit counter of lines does not overflow in the model, and the text of the lines is not modelled.
- SecretSharing.Share: the random draws are parameters, so nothing is said about their distribution, only which shares some draws give; the threshold is at least one, as its type demands.
- SecretSharing.OneShareShort: with two or more shares missing the result of interpolation depends on the other coefficients; `SecretSharing.RevealMisses` gives the difference.
- Metering.Transformer.Run: the energy of a segment is not bounded by 64 bits before it is compared with 32 bits.
- MeteringTheorems.RunsAlike: functions of the host are one step that may trap, the same for both programs, and their own charges are not counted; operand types and the validation of modules are not modelled, and an ill-formed body traps where it would have been rejected.
- The two price lists, the export section (an exported index is moved by one; invocations are by index), the type section, the limit on nested calls, and the interpreter of the transformed code: they would add tables and a counter.
- `cis3_types.rs`, `cis4_types.rs`, `default_wallet_config.rs`, command line prompts, foreign function wrappers and the other transaction types.
