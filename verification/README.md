# HDM keychain, modelled in Dafny

A model of bitherj's `HDMKeychain`, the hot side of Bither's HDM
(hierarchical-deterministic multisig) wallet. The keychain keeps three
pieces of state:

- a transient plaintext seed buffer;
- a storage of *pending* records (hot and cold public keys at one derivation
  index) and *completed* records (which also carry the remote key);
- an in-memory list of finalized `HDMAddress` objects.

The model covers the operations of the class:

- the random, from-storage and import constructors;
- `prepareAddresses` (derive hot/cold key pairs from the next free index);
- `completeAddresses` (have the remote side fill in its key, then finalize);
- `externalChainRoot` (the node `m/44'/0'/0'/0` of BIP 44, section "Path
  levels") and `masterKey`;
- `getExternalKey`, `getCurrentMaxAddressIndex`, `decryptSeed`,
  `getSeedWords` and `wipeSeed`.

Cryptography is not modelled. Encryption, BIP 39 mnemonic conversion,
BIP 32 master-key creation and child derivation (BIP 32, section "Child key
derivation (CKD) functions") form a `Suite` of deterministic, uninterpreted
functions. A few lemmas assume more of it, and each one says so in its
`requires`:

- `EncryptionRoundTrips`: decryption inverts encryption;
- `PublicDerivationAgrees`: public derivation gives the same public keys as
  private derivation;
- `DerivationTotal`: every derivation succeeds;
- `MnemonicRoundTrips`: the words of a byte string decode back to it
  (BIP 39, section "Generating the mnemonic").

The design decisions behind the model:

- **Wiping.** The keychain records its wipe discipline explicitly. `seed`
  is all zeros once wiped. `unwiped` is a multiset of derivation paths: it
  gains one occurrence per private key node an operation derives and loses
  one per node it wipes. A node left unwiped therefore stays on record even
  when a later call derives and wipes a node at the same path.
- **Failures.** Exceptions are `Result` values. An operation that changes
  state even when it fails returns that state next to its result: `Out` for
  the keychain, `OutDb` for the keychain and storage.
- **Storage.** Storage is an abstract map from seed identifier to record
  (ciphertext, XRandom flag, pending list, completed list).
- **Remote side.** The remote fetch delegates are parameters. So is whether
  the persist call succeeds.
- **Loop bound.** The prepare loop is bounded by a `fuel` parameter. When
  the loop has not collected its records within `fuel` iterations, the
  model reports the `OutOfFuel` error. The source keeps iterating instead;
  it loops forever only when derivations keep failing.

Modules:

| module | file | contents |
|---|---|---|
| Wrappers, Errors | wrappers.dfy | `Option`, `Result`, the error kinds |
| Crypto | crypto.dfy | keys, derivation paths, the `Suite`, the reference derivation `DerivePath` / `KeyAt` |
| Address | address.dfy | `Pubs`, `HDMAddress`, building the addresses of a batch |
| Storage | storage.dfy | the persistence provider as a map |
| HDMKeychain | keychain.dfy | the keychain state, seed handling, the random and from-storage constructors |
| Reconcile | reconcile.dfy | prepare, complete and the import constructor |
| Properties | properties.dfy | lemmas relating several operations |
| Findings | findings.dfy | source behaviour that departs from its evident intent |

Two points of the source shape the model of `prepareAddresses`:

- **Prepare's answer.** The loop at HDMKeychain.java:95-106 runs until
  `count` records exist, skipping indices whose derivation throws. So once
  the hot external chain root is derived, `prepareAddresses` never answers
  fewer than `count` (or 0 for `count <= 0`); it answers that or keeps
  looping. Before that point a mnemonic-length failure answers 0
  (HDMKeychain.java:91-92), whatever `count` is.
- **Record indices.** The source never sets `Pubs.index`. The model stamps
  each pending record with the index it was derived at, which is what makes
  the ordering properties statable.

## Model

| member | source | states |
|---|---|---|
| Crypto.ClearPrivateKey | bitherj/src/main/java/net/bither/bitherj/core/HDMKeychain.java:90 | the cleared node has no private part and keeps its public key and chain code |
| Crypto.DerivePathAppend | bitherj/src/main/java/net/bither/bitherj/core/HDMKeychain.java:146-157 | walking a path `p + q` is walking `p` and then `q` from the node reached |
| Crypto.RootFromSeed | bitherj/src/main/java/net/bither/bitherj/core/HDMKeychain.java:160-164 | the master key fails, with the mnemonic-length error, exactly when the seed has no mnemonic |
| Crypto.KeyAt | bitherj/src/main/java/net/bither/bitherj/core/HDMKeychain.java:146-157 | the key at a path exists exactly when the master key exists and every step of the path derives; it is then the derived node, and otherwise the error is mnemonic length or derivation |
| Crypto.KeyAtSoftChild | bitherj/src/main/java/net/bither/bitherj/core/HDMKeychain.java:169-178 | the key at `path + [Soft(i)]` is child `i` of the key at `path`, with that key's error when it fails |
| Crypto.Zeros | bitherj/src/main/java/net/bither/bitherj/core/HDMKeychain.java:233-235 | a wiped buffer keeps its length and holds only zeros |
| Address.NewAddress | bitherj/src/main/java/net/bither/bitherj/core/HDMKeychain.java:128 | an address can be built exactly when the record has its remote key; it wraps that record, not yet synced |
| Address.BuildAddresses | bitherj/src/main/java/net/bither/bitherj/core/HDMKeychain.java:127-129 | one address per record, in order, up to the first record without a remote key; the batch is complete exactly when every record has one |
| Storage.AddHDKey | bitherj/src/main/java/net/bither/bitherj/core/HDMKeychain.java:79 | the ciphertext is stored under a fresh identifier, with an empty record, and no other seed changes |
| Storage.MaxHDMAddressPubIndex | bitherj/src/main/java/net/bither/bitherj/core/HDMKeychain.java:95 | an upper bound of every pending and completed index of the seed that is either one of them or the no-record value -1 |
| Storage.GetUncompletedHDMAddressPubs | bitherj/src/main/java/net/bither/bitherj/core/HDMKeychain.java:124 | the oldest `count` pending records: a prefix of the pending list, clamped to its length |
| Storage.PrepareHDMAddresses | bitherj/src/main/java/net/bither/bitherj/core/HDMKeychain.java:107 | the records are appended to the seed's pending list and nothing else in storage changes |
| Storage.CompleteHDMAddresses | bitherj/src/main/java/net/bither/bitherj/core/HDMKeychain.java:130 | the addresses are appended to the completed list; a pending record stays exactly when its index is not among theirs; no other seed changes |
| HDMKeychain.WipeSeed | bitherj/src/main/java/net/bither/bitherj/core/HDMKeychain.java:233-235 | the seed buffer keeps its length and becomes all zeros; nothing else changes |
| HDMKeychain.DecryptSeed | bitherj/src/main/java/net/bither/bitherj/core/HDMKeychain.java:216-224 | no effect for `hdSeedId <= 0` or an empty stored ciphertext; otherwise a success holds exactly the decryption of the stored ciphertext as the seed, and the decryption error is raised exactly when that fails; nothing but the seed changes |
| HDMKeychain.MasterKey | bitherj/src/main/java/net/bither/bitherj/core/HDMKeychain.java:159-167 | the result is the reference master key of the decrypted seed; the seed buffer is zero afterwards; a success adds exactly one occurrence of the master path to the unwiped nodes, a failure none |
| HDMKeychain.ExternalChainRoot | bitherj/src/main/java/net/bither/bitherj/core/HDMKeychain.java:146-157 | the result is the reference key at m/44'/0'/0'/0 and the seed is zero afterwards; a success adds exactly the returned node to the unwiped nodes, master, purpose, coin-type and account having been wiped; a throwing derivation leaves master plus one of the four prefixes of purpose, coin type and account unwiped (which one is pinned by `HDMKeychain.ExternalChainRootFailureLedger`); every other failure leaves the unwiped nodes unchanged |
| HDMKeychain.ReachedByWalk | bitherj/src/main/java/net/bither/bitherj/core/HDMKeychain.java:148-151 | the nodes between master and the chain root that derive are exactly the prefix of purpose, coin type and account the walk from master reaches before its first throwing step |
| HDMKeychain.ExternalChainRootFailureLedger | bitherj/src/main/java/net/bither/bitherj/core/HDMKeychain.java:146-157 | when externalChainRoot fails with a throwing derivation, the decryption succeeded and the unwiped nodes gain exactly master and those of purpose, coin type and account that derive from the seed, that is, the nodes derived before the throw |
| HDMKeychain.GetExternalKey | bitherj/src/main/java/net/bither/bitherj/core/HDMKeychain.java:169-178 | the result is the reference key at m/44'/0'/0'/0/index and the seed is zero afterwards; a success adds exactly the returned key to the unwiped nodes, the chain root having been wiped; a decryption or mnemonic-length failure leaves the unwiped nodes unchanged; a throw at the child step leaves the chain root unwiped, and a throw before it leaves master plus a prefix of the walk (pinned by `HDMKeychain.GetExternalKeyFailureLedger`) |
| HDMKeychain.GetExternalKeyFailureLedger | bitherj/src/main/java/net/bither/bitherj/core/HDMKeychain.java:169-178 | when getExternalKey fails with a throwing derivation on the way to the chain root, the unwiped nodes gain exactly master and the nodes derived before the throw |
| HDMKeychain.GetSeedWords | bitherj/src/main/java/net/bither/bitherj/core/HDMKeychain.java:226-231 | the words are the mnemonic of the decrypted seed, failing with mnemonic length exactly when it has none; the seed is zero afterwards |
| HDMKeychain.GetCurrentMaxAddressIndex | bitherj/src/main/java/net/bither/bitherj/core/HDMKeychain.java:180-190 | Integer.MIN_VALUE for no addresses; otherwise an upper bound of every address index that is one of them, whenever the indices fit in 32 bits |
| HDMKeychain.CreateRandom | bitherj/src/main/java/net/bither/bitherj/core/HDMKeychain.java:36-45 | the 64 random bytes are stored encrypted under a fresh identifier with the provenance flag; the buffer is zero; there are no addresses |
| HDMKeychain.LoadFromDb | bitherj/src/main/java/net/bither/bitherj/core/HDMKeychain.java:192-202 | the keychain reads back the stored provenance flag and the seed's completed addresses |
| HDMKeychain.CreateThenDecrypt | bitherj/src/main/java/net/bither/bitherj/core/HDMKeychain.java:41-43 | a created keychain decrypts back to exactly the random bytes it was created from |
| HDMKeychain.SeedWordsRoundTrip | bitherj/src/main/java/net/bither/bitherj/core/HDMKeychain.java:226-231 | the words getSeedWords answers decode back to the seed that was decrypted |
| HDMKeychain.CreatedSeedWordsRoundTrip | bitherj/src/main/java/net/bither/bitherj/core/HDMKeychain.java:36-45 | the words of a newly created keychain decode back to the 64 random bytes it was created from, and the seed is zero afterwards |
| Reconcile.CollectPubs | bitherj/src/main/java/net/bither/bitherj/core/HDMKeychain.java:95-106 | a terminating loop yields exactly the requested number of records, and fewer iterations than records cannot terminate |
| Reconcile.CollectPubsMoreFuel | bitherj/src/main/java/net/bither/bitherj/core/HDMKeychain.java:95-106 | the iteration bound is only a bound: a loop that finishes within `fuel` iterations yields the same records under any larger bound |
| Reconcile.CollectPubsRun | bitherj/src/main/java/net/bither/bitherj/core/HDMKeychain.java:95-106 | the loop's records start at the first index, strictly increase, pair the hot and cold child at the record's own index, and skip an index only when a derivation failed there |
| Reconcile.CollectContiguous | bitherj/src/main/java/net/bither/bitherj/core/HDMKeychain.java:95-106 | when every index derives, the records use exactly the consecutive indices from the start |
| Reconcile.PrepareAddresses | bitherj/src/main/java/net/bither/bitherj/core/HDMKeychain.java:84-115 | a bad cold root fails first with nothing changed; a mnemonic-length failure answers 0 and persists nothing; every exit after a successful decryption leaves the seed zero; only a throwing derivation leaves private nodes unwiped, namely master plus one of the four prefixes of the walk (which one is pinned by `Reconcile.PrepareFailureLedger`); that the decryption and derivation failures are raised rather than caught is stated by `Reconcile.PrepareRaises`; a success answers `count` (0 for `count <= 0`), grows the pending list by a prepared run starting at max + 1 and changes no other record |
| Reconcile.PrepareCollects | bitherj/src/main/java/net/bither/bitherj/core/HDMKeychain.java:88-107 | with a valid cold root and a derivable hot root, a loop that finishes makes the prepare succeed, and the appended records are exactly what the loop collects from the cleared hot root and the cold root |
| Reconcile.PrepareFailureLedger | bitherj/src/main/java/net/bither/bitherj/core/HDMKeychain.java:84-93 | when prepareAddresses fails with a throwing derivation, the unwiped nodes gain exactly master and the nodes below it derived before the throw |
| Reconcile.PrepareRaises | bitherj/src/main/java/net/bither/bitherj/core/HDMKeychain.java:86-93 | with a valid cold root, a password that does not decrypt fails the prepare with the decryption error, and a derivation that throws on the way to the external chain root fails it with the derivation error: only the mnemonic-length failure is caught |
| Reconcile.PrepareOutOfFuel | bitherj/src/main/java/net/bither/bitherj/core/HDMKeychain.java:95-107 | with a valid cold root and a derivable hot root, a loop that does not finish within its bound makes the prepare fail with storage unchanged |
| Reconcile.CompleteAddresses | bitherj/src/main/java/net/bither/bitherj/core/HDMKeychain.java:117-138 | asking for more than the pending count fails with nothing changed; a failed fetch returns no addresses; otherwise the answer holds one address per fetched record, in order, up to the first record without a remote key, and all of them when every record has one; a failed build or persist leaves keychain and storage unchanged; otherwise the batch is persisted and appended to the addresses |
| Reconcile.VerifyBitherId | bitherj/src/main/java/net/bither/bitherj/core/HDMKeychain.java:59-72 | succeeds exactly when child 0 of the reference chain root has the fetched hot key, fails with the not-match error otherwise, and rethrows the decryption, mnemonic-length and derivation errors; the seed is zero afterwards; the unwiped nodes are unchanged except after a throwing derivation, which leaves the chain root itself when child 0 throws, and otherwise master plus a prefix of the walk to the chain root (pinned by `Reconcile.VerifyBitherIdFailureLedger`) |
| Reconcile.VerifyBitherIdFailureLedger | bitherj/src/main/java/net/bither/bitherj/core/HDMKeychain.java:59-72 | when the identity check fails with a throwing derivation before the chain root is reached, the unwiped nodes gain exactly master and the nodes below it derived before the throw |
| Reconcile.ImportVerdict | bitherj/src/main/java/net/bither/bitherj/core/HDMKeychain.java:54-82 | an import is accepted exactly when the ciphertext decrypts, the fetch answers, every remote record carries its remote key, and the remote list is empty or starts with the hot key of the reference child 0 of the external chain |
| Reconcile.Import | bitherj/src/main/java/net/bither/bitherj/core/HDMKeychain.java:54-82 | the answer is `ImportVerdict`, so the import succeeds exactly in the cases listed there; on failure nothing is stored, no identifier is taken and there are no addresses; on success there is one address per remote record in order, stored with the ciphertext and flag under a fresh identifier; the seed is always zero afterwards |
| Reconcile.FinishImport | bitherj/src/main/java/net/bither/bitherj/core/HDMKeychain.java:74-81 | after the identity check: its error is the answer; otherwise a record without a remote key fails the address build and leaves storage unchanged, and when every record has one, the ciphertext, flag and one address per record in order are stored under a fresh identifier, no other seed changes, and the seed is zero |
| Properties.DecryptSeedIgnoresStorageWithoutId | bitherj/src/main/java/net/bither/bitherj/core/HDMKeychain.java:217-219 | without a seed identifier the seed used is the one in memory, whatever storage holds |
| Properties.ImportIdentityCheck | bitherj/src/main/java/net/bither/bitherj/core/HDMKeychain.java:58-68 | import fails with the not-match error if and only if there are remote records and the reference child-0 key of the seed differs from the first one's hot key |
| Properties.ImportMismatchPersistsNothing | bitherj/src/main/java/net/bither/bitherj/core/HDMKeychain.java:65-68 | a mismatch leaves the seed zeroed, storage unchanged, no identifier, no addresses and no private node |
| Properties.ImportOutcomeIgnoresStorage | bitherj/src/main/java/net/bither/bitherj/core/HDMKeychain.java:54-73 | whether an import succeeds does not depend on the storage contents |
| Properties.ImportThenReload | bitherj/src/main/java/net/bither/bitherj/core/HDMKeychain.java:79-81 | a keychain reloaded from storage after an import equals the imported one, apart from the seed buffer |
| Properties.CompleteKeepsSync | bitherj/src/main/java/net/bither/bitherj/core/HDMKeychain.java:130-135 | completing keeps the in-memory addresses equal to the stored completed records |
| Properties.PrepareKeepsSync | bitherj/src/main/java/net/bither/bitherj/core/HDMKeychain.java:107 | preparing keeps the in-memory addresses equal to the stored completed records |
| Properties.PrepareAboveMax | bitherj/src/main/java/net/bither/bitherj/core/HDMKeychain.java:95 | every prepared record lies above the seed's previous largest index |
| Properties.PrepareBelowNewMax | bitherj/src/main/java/net/bither/bitherj/core/HDMKeychain.java:95-107 | every prepared record lies at or below the seed's new largest index |
| Properties.PrepareTwiceIncreasing | bitherj/src/main/java/net/bither/bitherj/core/HDMKeychain.java:94-107 | after two successful prepares, every index of the second batch is above every index of the first |
| Properties.PrepareContiguous | bitherj/src/main/java/net/bither/bitherj/core/HDMKeychain.java:94-114 | when every child derives, a prepare of `count` answers `count` and uses exactly the indices max + 1, ..., max + count |
| Properties.PreparedHotIsExternalKey | bitherj/src/main/java/net/bither/bitherj/core/HDMKeychain.java:98-102 | the hot key prepared at index i is the public key of the external key at index i |
| Properties.CompleteWithFillingRemote | bitherj/src/main/java/net/bither/bitherj/core/HDMKeychain.java:122-137 | with a remote side that fills every record, the oldest `count` records become `count` addresses, in order, appended to the keychain |
| Properties.CreatedKeychainReady | bitherj/src/main/java/net/bither/bitherj/core/HDMKeychain.java:36-45 | a new keychain derives its external chain root and has no records, with largest index -1 |
| Properties.FreshKeychainPrepares | bitherj/src/main/java/net/bither/bitherj/core/HDMKeychain.java:84-115 | preparing 3 on a new keychain answers 3 and stores pending indices 0, 1, 2 |
| Properties.CompleteFirstThree | bitherj/src/main/java/net/bither/bitherj/core/HDMKeychain.java:117-138 | completing 3 pending records with indices 0, 1, 2 yields 3 addresses with those indices, which become the address list |
| Properties.MaxOfFirstThree | bitherj/src/main/java/net/bither/bitherj/core/HDMKeychain.java:95 | the largest index of pending records 0, 1, 2 is 2 |
| Properties.FreshKeychainScenario | bitherj/src/main/java/net/bither/bitherj/core/HDMKeychain.java:84-138 | create, prepare 3 (answer 3, largest index 2), complete 3: three addresses with indices 0, 1, 2 form the address list |
| Findings.MasterKeyAsWritten | bitherj/src/main/java/net/bither/bitherj/core/HDMKeychain.java:159-167 | as written: a mnemonic failure leaves the decrypted seed in the buffer |
| Findings.GetSeedWordsAsWritten | bitherj/src/main/java/net/bither/bitherj/core/HDMKeychain.java:226-231 | as written: a mnemonic failure leaves the decrypted seed in the buffer |
| Findings.ShortSeedStaysInMemory | bitherj/src/main/java/net/bither/bitherj/core/HDMKeychain.java:159-167 | a 3-byte stored seed stays in memory as written and is zeroed by the corrected operations |
| Findings.VerifyBitherIdAsWritten | bitherj/src/main/java/net/bither/bitherj/core/HDMKeychain.java:61-64 | as written: same verdict as the corrected check, but the child-0 private node stays unwiped |
| Findings.ImportAsWritten | bitherj/src/main/java/net/bither/bitherj/core/HDMKeychain.java:54-82 | as written: same result and storage as the corrected import, but the flag is always false, the seed survives a failed fetch, and child 0 stays unwiped |
| Findings.ImportedXRandomFlagLost | bitherj/src/main/java/net/bither/bitherj/core/HDMKeychain.java:55 | an XRandom import reports false as written but true after reload; the corrected import reports true |
| Findings.ImportChildZeroLeft | bitherj/src/main/java/net/bither/bitherj/core/HDMKeychain.java:61-64 | after an identity check, child 0 stays unwiped as written; the corrected import leaves no private node |
| Findings.ImportFetchFailureKeepsSeed | bitherj/src/main/java/net/bither/bitherj/core/HDMKeychain.java:56-58 | a throwing fetch leaves the plaintext seed as written; the corrected import zeroes it |

## Left out

- Cryptography (AES encryption, EC arithmetic, BIP 39, BIP 32): the `Suite` parameter stands for the library calls.
- `SecureRandom` and the class-name check for XRandom (HDMKeychain.java:38-40): the 64 bytes and the flag are inputs.
- The persistence provider's SQL: storage is a map. Its calls in the constructors never fail in the model. A failing persist in `completeAddresses` is the `persisted` input.
- Provider failures outside that persist: every other provider call is total in the model, so none of their exceptions is modelled. In `prepareAddresses` this covers `maxHDMAddressPubIndex` (HDMKeychain.java:95) and `prepareHDMAddresses` (HDMKeychain.java:107), whose exception would leave the method. In `completeAddresses` it covers `uncompletedAddressCount` (HDMKeychain.java:118) and `getUncompletedHDMAddressPubs` (HDMKeychain.java:124), which run outside its try block.
- `synchronized (addresses)` and multi-threaded access: operations are sequential.
- `e.printStackTrace()` and the text of exception messages: errors are kinds.
- `getAddresses`, `getHdSeedId`, `isFromXRandom` and `uncompletedAddressCount`: plain accessors, read as fields or as `UncompletedHDMAddressCount`.
- The `HDMAddress` back-reference to its keychain: it only resolves the seed for signing.
- IHDAccountProvider: an interface of another account type, with no behaviour here.
- Reconcile.CollectPubs: `int i` wrap-around past Integer.MAX_VALUE is not modelled, because indices are unbounded. `fuel` bounds the iterations: `None` means the loop did not finish within `fuel` iterations. The source keeps iterating there, and loops forever only when derivations keep failing.
- Reconcile.PrepareAddresses: the source never sets `Pubs.index`. The model stamps each record with its derivation index.
- Reconcile.PrepareAddresses: the zero seed on the mnemonic-length path is inherited from the corrected `HDMKeychain.MasterKey`. As written, prepareAddresses answers 0 at HDMKeychain.java:91-92 with the decrypted seed still in the buffer; `Findings.MasterKeyAsWritten` models that behaviour.
- Storage.MaxHDMAddressPubIndex: the provider's value for a seed without records is not visible here. The model uses -1, so the first index is 0.
- Storage.GetUncompletedHDMAddressPubs: a negative `count` yields no records; the provider's behaviour for it is not visible here.
- Address.NewAddress: the only construction failure modelled is a missing remote key; the multisig script itself is not built.
- HDMKeychain.ExternalChainRoot: the zero seed on the mnemonic-length path is inherited from the corrected `HDMKeychain.MasterKey`. As written, the exception from masterKey passes through with the decrypted seed still in the buffer; `Findings.MasterKeyAsWritten` models that behaviour.
- HDMKeychain.GetExternalKey: the zero seed on the mnemonic-length path is inherited from the corrected `HDMKeychain.MasterKey`. As written, getExternalKey rethrows at HDMKeychain.java:175-176 with the decrypted seed still in the buffer.
- HDMKeychain.GetExternalKey: the source wraps every failure in a `RuntimeException` (HDMKeychain.java:175-176), so a caller never sees the decryption or mnemonic-length exception itself. The model answers the inner kind (`KeyCrypter`, `MnemonicLength`, `Derivation`) and does not model the wrapper.
- HDMKeychain.LoadFromDb: the null seed of a loaded keychain is the empty buffer.
- HDMKeychain.GetCurrentMaxAddressIndex: 32-bit index bounds are a hypothesis of the last clause, since indices are unbounded in the model.

## Findings

| source | as written | input that shows it | evidently intended | confidence | as-written member | corrected member |
|---|---|---|---|---|---|---|
| bitherj/src/main/java/net/bither/bitherj/core/HDMKeychain.java:159-167 | `wipeSeed()` runs only after `toMnemonic` returns, so a mnemonic-length exception leaves the decrypted seed in `seed` (and `prepareAddresses` then answers 0 with it still there) | a stored seed that decrypts to the 3 bytes [7, 7, 7] | the seed is zeroed on every exit after decryption | medium, not executed | Findings.MasterKeyAsWritten, Findings.ShortSeedStaysInMemory | HDMKeychain.MasterKey |
| bitherj/src/main/java/net/bither/bitherj/core/HDMKeychain.java:226-231 | same ordering in `getSeedWords` | a stored seed that decrypts to [7, 7, 7] | the seed is zeroed on every exit after decryption | medium, not executed | Findings.GetSeedWordsAsWritten, Findings.ShortSeedStaysInMemory | HDMKeychain.GetSeedWords |
| bitherj/src/main/java/net/bither/bitherj/core/HDMKeychain.java:55 | the parameter `isFromXRandom` shadows the field, which is never assigned and stays false | an import with `isFromXRandom` true that succeeds | the field takes the parameter, as storage does at line 79 | high, not executed | Findings.ImportAsWritten, Findings.ImportedXRandomFlagLost | Reconcile.Import |
| bitherj/src/main/java/net/bither/bitherj/core/HDMKeychain.java:61-64 | `root.deriveSoftened(0)` is derived from the private root and never wiped; only `root` is | an import with at least one remote record that passes the check | the child node is wiped too | medium, not executed | Findings.VerifyBitherIdAsWritten, Findings.ImportChildZeroLeft | Reconcile.VerifyBitherId |
| bitherj/src/main/java/net/bither/bitherj/core/HDMKeychain.java:56-58 | the seed is decrypted before `getRemoteExistsPublicKeys` runs, and a throw there skips every `wipeSeed()` | an import whose fetch delegate throws | the seed is zeroed before the exception leaves the constructor | medium, not executed | Findings.ImportAsWritten, Findings.ImportFetchFailureKeepsSeed | Reconcile.Import |
