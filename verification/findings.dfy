/** Operations as the source writes them where that departs from its own
    wipe discipline or from its evident intent, each with a lemma exhibiting
    the departure. The rest of the model uses the corrected definitions in
    HDMKeychain and Reconcile. */
module Findings {
  import opened Wrappers
  import opened Errors
  import opened Crypto
  import opened Address
  import opened Storage
  import opened HDMKeychain
  import opened Reconcile

  /** masterKey as written: the seed is wiped only after the mnemonic
      conversion returns, so a conversion that throws leaves the decrypted
      seed in the keychain. */
  function MasterKeyAsWritten(c: Suite, kc: Keychain, db: Db, pw: Password): (r: Out<Key>)
    ensures SeedFor(c, kc, db, pw).Ok? ==> r.result == RootFromSeed(c, SeedFor(c, kc, db, pw).value)
    ensures SeedFor(c, kc, db, pw).Ok? && r.result.Err? ==> r.kc.seed == SeedFor(c, kc, db, pw).value
    ensures r.result.Ok? ==> Zeroed(r.kc.seed)
  {
    match DecryptSeed(c, kc, db, pw)
    case Err(e) => Out(Err(e), kc)
    case Ok(kc1) =>
      match c.toMnemonic(kc1.seed)
      case None => Out(Err(MnemonicLength), kc1)
      case Some(words) =>
        var s := c.toSeed(words, "");
        var kc2 := WipeSeed(kc1);
        Out(Ok(c.masterFromSeed(s)), kc2.(unwiped := kc2.unwiped + multiset{MasterPath}))
  }

  /** getSeedWords as written: same gap as masterKey. */
  function GetSeedWordsAsWritten(c: Suite, kc: Keychain, db: Db, pw: Password): (r: Out<Words>)
    ensures SeedFor(c, kc, db, pw).Ok? && r.result.Err? ==> r.kc.seed == SeedFor(c, kc, db, pw).value
    ensures r.result.Ok? ==> Zeroed(r.kc.seed) && SeedFor(c, kc, db, pw).Ok? && c.toMnemonic(SeedFor(c, kc, db, pw).value) == Some(r.result.value)
  {
    match DecryptSeed(c, kc, db, pw)
    case Err(e) => Out(Err(e), kc)
    case Ok(kc1) =>
      match c.toMnemonic(kc1.seed)
      case None => Out(Err(MnemonicLength), kc1)
      case Some(words) => Out(Ok(words), WipeSeed(kc1))
  }

  /** A suite whose mnemonic conversion follows the BIP 39 length rule
      (entropy a non-empty multiple of 4 bytes) and whose decryption always
      yields the 3-byte seed [7, 7, 7]. */
  function ShortSeedSuite(): Suite {
    Suite(
      (ct: Ciphertext, pw: Password) => Some([7, 7, 7]),
      (s: Bytes, pw: Password) => "ct",
      (s: Bytes) => if |s| > 0 && |s| % 4 == 0 then Some(["abandon"]) else None,
      (w: Words) => None,
      (w: Words, pass: string) => [1],
      (s: Bytes) => Key([2], Some([3]), [4]),
      (k: Key, i: int) => Some(k),
      (k: Key, i: int) => Some(k),
      (b: Bytes) => Some(Key(b, None, [])))
  }

  /** A stored seed whose length has no mnemonic (a malformed imported seed):
      as written, masterKey and getSeedWords fail and leave [7, 7, 7] in the
      seed buffer; the corrected ones leave it zeroed. */
  lemma ShortSeedStaysInMemory()
    ensures var c := ShortSeedSuite();
      var kc := Keychain([], [], 1, false, multiset{});
      var db := Db(map[1 := SeedRecord("ct", false, [], [])], 2);
      && MasterKeyAsWritten(c, kc, db, "pw") == Out(Err(MnemonicLength), kc.(seed := [7, 7, 7]))
      && GetSeedWordsAsWritten(c, kc, db, "pw") == Out(Err(MnemonicLength), kc.(seed := [7, 7, 7]))
      && MasterKey(c, kc, db, "pw") == Out(Err(MnemonicLength), kc.(seed := [0, 0, 0]))
      && GetSeedWords(c, kc, db, "pw").kc.seed == [0, 0, 0]
  {
    var c := ShortSeedSuite();
    var kc := Keychain([], [], 1, false, multiset{});
    var db := Db(map[1 := SeedRecord("ct", false, [], [])], 2);
    assert GetEncryptSeed(db, 1) == "ct";
    assert c.toMnemonic([7, 7, 7]) == None;
    assert Zeros(3) == [0, 0, 0];
  }

  /** The identity check as written: the child-0 node, derived from the
      private root, keeps its private key and is never wiped. */
  function VerifyBitherIdAsWritten(c: Suite, kc: Keychain, db: Db, pw: Password, fetchedHot: Bytes): (r: Out<()>)
    ensures r.result == VerifyBitherId(c, kc, db, pw, fetchedHot).result
    ensures SecretsOnlyChanged(kc, r.kc)
    ensures r.result.Ok? ==> ExternalPath + [Soft(0)] in r.kc.unwiped
  {
    var root := ExternalChainRoot(c, kc, db, pw);
    match root.result
    case Err(e) => Out(Err(e), if e == MnemonicLength then WipeSeed(root.kc) else root.kc)
    case Ok(rootKey) =>
      match c.deriveSoftened(rootKey, 0)
      case None => Out(Err(Derivation), root.kc)
      case Some(child) =>
        var kc1 := root.kc.(unwiped := root.kc.unwiped + multiset{ExternalPath + [Soft(0)]} - multiset{ExternalPath});
        if child.pub != fetchedHot then Out(Err(BitherIdNotMatch), WipeSeed(kc1))
        else Out(Ok(()), kc1)
  }

  /** The import constructor as written. Its `isFromXRandom` parameter
      shadows the field, which therefore keeps its default false; the seed
      stays decrypted when the fetch delegate throws; the child-0 node of the
      identity check is left unwiped. */
  function ImportAsWritten(c: Suite, db: Db, encryptedSeed: Ciphertext, isFromXRandom: bool, pw: Password,
                           fetch: Password -> Option<seq<Pubs>>): (r: OutDb<()>)
    ensures !r.kc.isFromXRandom
    ensures r.result == Import(c, db, encryptedSeed, isFromXRandom, pw, fetch).result
    ensures r.db == Import(c, db, encryptedSeed, isFromXRandom, pw, fetch).db
    ensures c.decrypt(encryptedSeed, pw).Some? && fetch(pw).None? ==> r.kc.seed == c.decrypt(encryptedSeed, pw).value
    ensures r.result.Ok? && |fetch(pw).value| > 0 ==> ExternalPath + [Soft(0)] in r.kc.unwiped
  {
    match c.decrypt(encryptedSeed, pw)
    case None => OutDb(Err(KeyCrypter), Unassigned([], false), db)
    case Some(s) =>
      var kc0 := Unassigned(s, false);
      match fetch(pw)
      case None => OutDb(Err(RemoteFetch), kc0, db)
      case Some(pubs) =>
        if |pubs| == 0 then FinishImport(db, encryptedSeed, isFromXRandom, pubs, Out(Ok(()), kc0))
        else
          var checked := VerifyBitherIdAsWritten(c, kc0, db, pw, pubs[0].hot);
          VerifyBitherIdBySeed(c, kc0, Unassigned(s, isFromXRandom), db, pw, pubs[0].hot);
          FinishImportByAnswer(db, encryptedSeed, isFromXRandom, pubs, checked,
                               VerifyBitherId(c, Unassigned(s, isFromXRandom), db, pw, pubs[0].hot));
          FinishImport(db, encryptedSeed, isFromXRandom, pubs, checked)
  }

  /** An import flagged XRandom: storage records the flag, so a keychain
      reloaded from storage reports it, but the imported keychain itself
      does not. The corrected import agrees with the reload. */
  lemma ImportedXRandomFlagLost(c: Suite, db: Db, encryptedSeed: Ciphertext, pw: Password,
                                fetch: Password -> Option<seq<Pubs>>)
    requires Import(c, db, encryptedSeed, true, pw, fetch).result.Ok?
    ensures var r := ImportAsWritten(c, db, encryptedSeed, true, pw, fetch);
      !r.kc.isFromXRandom && LoadFromDb(r.db, r.kc.hdSeedId).isFromXRandom
    ensures var r := Import(c, db, encryptedSeed, true, pw, fetch);
      r.kc.isFromXRandom && LoadFromDb(r.db, r.kc.hdSeedId).isFromXRandom
  {
    var r := ImportAsWritten(c, db, encryptedSeed, true, pw, fetch);
    var r' := Import(c, db, encryptedSeed, true, pw, fetch);
    assert r.kc.hdSeedId == r'.kc.hdSeedId == db.nextSeedId by {
      assert c.decrypt(encryptedSeed, pw).Some? && fetch(pw).Some?;
    }
  }

  /** An import that verified its seed against remote records: as written
      the child-0 private node stays unwiped; the corrected import leaves no
      private node behind. */
  lemma ImportChildZeroLeft(c: Suite, db: Db, encryptedSeed: Ciphertext, isFromXRandom: bool, pw: Password,
                            fetch: Password -> Option<seq<Pubs>>)
    requires Import(c, db, encryptedSeed, isFromXRandom, pw, fetch).result.Ok?
    requires |fetch(pw).value| > 0
    ensures ExternalPath + [Soft(0)] in ImportAsWritten(c, db, encryptedSeed, isFromXRandom, pw, fetch).kc.unwiped
    ensures Import(c, db, encryptedSeed, isFromXRandom, pw, fetch).kc.unwiped == multiset{}
  {
  }

  /** A fetch delegate that throws: as written the decrypted seed stays in
      the keychain object; the corrected import zeroes it. */
  lemma ImportFetchFailureKeepsSeed(c: Suite, db: Db, encryptedSeed: Ciphertext, isFromXRandom: bool, pw: Password,
                                    fetch: Password -> Option<seq<Pubs>>)
    requires c.decrypt(encryptedSeed, pw).Some? && fetch(pw).None?
    ensures ImportAsWritten(c, db, encryptedSeed, isFromXRandom, pw, fetch).kc.seed == c.decrypt(encryptedSeed, pw).value
    ensures Zeroed(Import(c, db, encryptedSeed, isFromXRandom, pw, fetch).kc.seed)
  {
  }
}
