/** Properties relating several keychain operations to each other and to
    the reference derivation. */
module Properties {
  import opened Wrappers
  import opened Errors
  import opened Crypto
  import opened Address
  import opened Storage
  import opened HDMKeychain
  import opened Reconcile

  /** The seed an import works from is the one it decrypted itself: with
      hdSeedId still 0, decryptSeed does not read storage at all. */
  lemma DecryptSeedIgnoresStorageWithoutId(c: Suite, kc: Keychain, db1: Db, db2: Db, pw: Password)
    requires kc.hdSeedId <= 0
    ensures SeedFor(c, kc, db1, pw) == SeedFor(c, kc, db2, pw) == Ok(kc.seed)
  {
  }

  /** Import fails with the not-match error exactly when the remote side
      reports records and the child 0 of the external chain root of the
      supplied seed has a public key other than the first record's hot key. */
  lemma ImportIdentityCheck(c: Suite, db: Db, encryptedSeed: Ciphertext, isFromXRandom: bool,
                            pw: Password, fetch: Password -> Option<seq<Pubs>>)
    requires c.decrypt(encryptedSeed, pw).Some? && fetch(pw).Some?
    ensures var expected := KeyAt(c, c.decrypt(encryptedSeed, pw).value, ExternalPath + [Soft(0)]);
      Import(c, db, encryptedSeed, isFromXRandom, pw, fetch).result == Err(BitherIdNotMatch) <==>
        |fetch(pw).value| > 0 && expected.Ok? && expected.value.pub != fetch(pw).value[0].hot
  {
    var s := c.decrypt(encryptedSeed, pw).value;
    var kc0 := Unassigned(s, isFromXRandom);
    assert SeedFor(c, kc0, db, pw) == Ok(s);
  }

  /** A rejected import leaves no trace: the seed is zeroed, no seed
      identifier is taken, storage is as before and there are no addresses. */
  lemma ImportMismatchPersistsNothing(c: Suite, db: Db, encryptedSeed: Ciphertext, isFromXRandom: bool,
                                      pw: Password, fetch: Password -> Option<seq<Pubs>>)
    requires Import(c, db, encryptedSeed, isFromXRandom, pw, fetch).result == Err(BitherIdNotMatch)
    ensures var r := Import(c, db, encryptedSeed, isFromXRandom, pw, fetch);
      Zeroed(r.kc.seed) && r.kc.hdSeedId == 0 && r.db == db && r.kc.addresses == [] && r.kc.unwiped == multiset{}
  {
  }

  /** Whether an import is accepted does not depend on what storage holds. */
  lemma ImportOutcomeIgnoresStorage(c: Suite, db1: Db, db2: Db, encryptedSeed: Ciphertext,
                                     isFromXRandom: bool, pw: Password,
                                     fetch: Password -> Option<seq<Pubs>>)
    ensures Import(c, db1, encryptedSeed, isFromXRandom, pw, fetch).result ==
            Import(c, db2, encryptedSeed, isFromXRandom, pw, fetch).result
  {
  }

  /** A keychain reloaded from storage after an import sees what the import
      left in memory. */
  lemma ImportThenReload(c: Suite, db: Db, encryptedSeed: Ciphertext, isFromXRandom: bool,
                         pw: Password, fetch: Password -> Option<seq<Pubs>>)
    requires Import(c, db, encryptedSeed, isFromXRandom, pw, fetch).result.Ok?
    ensures var r := Import(c, db, encryptedSeed, isFromXRandom, pw, fetch);
      LoadFromDb(r.db, r.kc.hdSeedId) == r.kc.(seed := [])
  {
  }

  /** The in-memory addresses mirror the seed's completed records. */
  predicate InSync(kc: Keychain, db: Db) {
    kc.addresses == HDMAddressInUse(db, kc.hdSeedId)
  }

  /** completeAddresses keeps the address cache in step with storage. */
  lemma CompleteKeepsSync(kc: Keychain, db: Db, count: int, pw: Password,
                          fetch: (Password, seq<Pubs>) -> Option<seq<Pubs>>, persisted: bool)
    requires InSync(kc, db)
    ensures var r := CompleteAddresses(kc, db, count, pw, fetch, persisted); InSync(r.kc, r.db)
  {
  }

  /** prepareAddresses never touches the completed records or the cache. */
  lemma PrepareKeepsSync(c: Suite, kc: Keychain, db: Db, count: int, pw: Password, coldPub: Bytes, fuel: nat)
    requires InSync(kc, db)
    ensures var r := PrepareAddresses(c, kc, db, count, pw, coldPub, fuel); InSync(r.kc, r.db)
  {
    var r := PrepareAddresses(c, kc, db, count, pw, coldPub, fuel);
    if r.db != db {
      assert r.result.Ok? && HotRootFor(c, kc, db, pw).Some?;
    }
  }

  /** Every record a prepare appends lies above the seed's previous largest index. */
  lemma PrepareAboveMax(c: Suite, kc: Keychain, db: Db, n: int, pw: Password, coldPub: Bytes, fuel: nat)
    requires PrepareAddresses(c, kc, db, n, pw, coldPub, fuel).result.Ok?
    requires HotRootFor(c, kc, db, pw).Some?
    ensures var r := PrepareAddresses(c, kc, db, n, pw, coldPub, fuel);
      forall b :: 0 <= b < |NewPending(db, r.db, kc.hdSeedId)| ==>
        MaxHDMAddressPubIndex(db, kc.hdSeedId) < NewPending(db, r.db, kc.hdSeedId)[b].index
  {
  }

  /** Every record a prepare appends lies at or below the seed's new largest index. */
  lemma PrepareBelowNewMax(c: Suite, kc: Keychain, db: Db, n: int, pw: Password, coldPub: Bytes, fuel: nat)
    requires PrepareAddresses(c, kc, db, n, pw, coldPub, fuel).result.Ok?
    requires HotRootFor(c, kc, db, pw).Some?
    ensures var r := PrepareAddresses(c, kc, db, n, pw, coldPub, fuel);
      forall a :: 0 <= a < |NewPending(db, r.db, kc.hdSeedId)| ==>
        NewPending(db, r.db, kc.hdSeedId)[a].index <= MaxHDMAddressPubIndex(r.db, kc.hdSeedId)
  {
    var r := PrepareAddresses(c, kc, db, n, pw, coldPub, fuel);
    var before := Get(db, kc.hdSeedId).pending;
    var after := Get(r.db, kc.hdSeedId).pending;
    var first := NewPending(db, r.db, kc.hdSeedId);
    forall a | 0 <= a < |first| ensures first[a].index <= MaxHDMAddressPubIndex(r.db, kc.hdSeedId) {
      assert first[a] == after[|before| + a];
    }
  }

  /** Two successive prepares that both succeed: every index of the second
      batch lies above every index of the first. */
  lemma PrepareTwiceIncreasing(c: Suite, kc: Keychain, db: Db, n1: int, n2: int, pw: Password,
                               coldPub: Bytes, fuel1: nat, fuel2: nat)
    requires HotRootFor(c, kc, db, pw).Some?
    ensures var r1 := PrepareAddresses(c, kc, db, n1, pw, coldPub, fuel1);
      var r2 := PrepareAddresses(c, r1.kc, r1.db, n2, pw, coldPub, fuel2);
      r1.result.Ok? && r2.result.Ok? && HotRootFor(c, r1.kc, r1.db, pw).Some? ==>
        var first := NewPending(db, r1.db, kc.hdSeedId);
        var second := NewPending(r1.db, r2.db, kc.hdSeedId);
        forall a, b :: 0 <= a < |first| && 0 <= b < |second| ==> first[a].index < second[b].index
  {
    var r1 := PrepareAddresses(c, kc, db, n1, pw, coldPub, fuel1);
    var r2 := PrepareAddresses(c, r1.kc, r1.db, n2, pw, coldPub, fuel2);
    if r1.result.Ok? && r2.result.Ok? && HotRootFor(c, r1.kc, r1.db, pw).Some? {
      PrepareBelowNewMax(c, kc, db, n1, pw, coldPub, fuel1);
      PrepareAboveMax(c, r1.kc, r1.db, n2, pw, coldPub, fuel2);
    }
  }

  /** When every child derives and the fuel suffices, a prepare of `count`
      records uses exactly the indices max + 1, ..., max + count. */
  lemma PrepareContiguous(c: Suite, kc: Keychain, db: Db, count: int, pw: Password, coldPub: Bytes, fuel: nat)
    requires count > 0 && fuel >= count
    requires c.pubFromExtended(coldPub).Some?
    requires HotRootFor(c, kc, db, pw).Some?
    requires forall k, i :: c.deriveSoftened(k, i).Some?
    ensures var r := PrepareAddresses(c, kc, db, count, pw, coldPub, fuel);
      && r.result == Ok(count)
      && |NewPending(db, r.db, kc.hdSeedId)| == count
      && forall k :: 0 <= k < count ==>
           NewPending(db, r.db, kc.hdSeedId)[k].index == MaxHDMAddressPubIndex(db, kc.hdSeedId) + 1 + k
  {
    var hot := HotRootFor(c, kc, db, pw).value;
    var cold := c.pubFromExtended(coldPub).value;
    var start := MaxHDMAddressPubIndex(db, kc.hdSeedId) + 1;
    assert forall j :: start <= j < start + count ==> BothDerive(c, hot, cold, j) by {
      forall j | start <= j < start + count ensures BothDerive(c, hot, cold, j) {
        assert c.deriveSoftened(hot, j).Some? && c.deriveSoftened(cold, j).Some?;
      }
    }
    CollectContiguous(c, hot, cold, start, count, fuel);
    var run := CollectPubs(c, hot, cold, start, count, fuel);
    assert (if count <= 0 then 0 else count) == count;
    PrepareCollects(c, kc, db, count, pw, coldPub, fuel);
    var r := PrepareAddresses(c, kc, db, count, pw, coldPub, fuel);
    assert NewPending(db, r.db, kc.hdSeedId) == run.value;
  }

  /** BIP 32's public derivation agrees with private derivation on public
      keys: a child derived from the public-only copy of a node has the
      public key of the child derived from the node itself. */
  ghost predicate PublicDerivationAgrees(c: Suite) {
    forall k, i :: c.deriveSoftened(ClearPrivateKey(k), i).Some? ==>
      c.deriveSoftened(k, i).Some? &&
      c.deriveSoftened(ClearPrivateKey(k), i).value.pub == c.deriveSoftened(k, i).value.pub
  }

  /** The hot key a prepare records at index i is the public key of the
      external key getExternalKey(i) yields for signing. */
  lemma PreparedHotIsExternalKey(c: Suite, kc: Keychain, db: Db, count: int, pw: Password,
                                 coldPub: Bytes, fuel: nat, k: int)
    requires PublicDerivationAgrees(c)
    requires PrepareAddresses(c, kc, db, count, pw, coldPub, fuel).result.Ok?
    requires HotRootFor(c, kc, db, pw).Some?
    requires 0 <= k < |NewPending(db, PrepareAddresses(c, kc, db, count, pw, coldPub, fuel).db, kc.hdSeedId)|
    ensures var p := NewPending(db, PrepareAddresses(c, kc, db, count, pw, coldPub, fuel).db, kc.hdSeedId)[k];
      var key := GetExternalKey(c, kc, db, p.index, pw).result;
      key.Ok? && key.value.pub == p.hot
  {
    var r := PrepareAddresses(c, kc, db, count, pw, coldPub, fuel);
    var p := NewPending(db, r.db, kc.hdSeedId)[k];
    var seed := SeedFor(c, kc, db, pw).value;
    KeyAtSoftChild(c, seed, ExternalPath, p.index);
    var root := KeyAt(c, seed, ExternalPath).value;
    assert c.deriveSoftened(ClearPrivateKey(root), p.index).Some?;
  }

  /** The batch `ps` with every record's remote key set to `remote`. */
  function WithRemote(ps: seq<Pubs>, remote: Bytes): (r: seq<Pubs>)
    ensures |r| == |ps|
    ensures forall k :: 0 <= k < |ps| ==> r[k] == ps[k].(remote := Some(remote))
  {
    seq(|ps|, k requires 0 <= k < |ps| => ps[k].(remote := Some(remote)))
  }

  /** A remote side that answers every batch by filling in the same remote key. */
  ghost predicate FillsRemote(fetch: (Password, seq<Pubs>) -> Option<seq<Pubs>>, pw: Password, remote: Bytes) {
    forall ps: seq<Pubs> :: fetch(pw, ps) == Some(WithRemote(ps, remote))
  }

  /** With a remote side that fills in every record and a persist that
      succeeds, completeAddresses finalizes the oldest `count` records in
      order and appends them. */
  lemma CompleteWithFillingRemote(kc: Keychain, db: Db, count: int, pw: Password, remote: Bytes,
                                  fetch: (Password, seq<Pubs>) -> Option<seq<Pubs>>)
    requires FillsRemote(fetch, pw, remote)
    requires 0 <= count <= UncompletedHDMAddressCount(db, kc.hdSeedId)
    ensures var r := CompleteAddresses(kc, db, count, pw, fetch, true);
      var oldest := GetUncompletedHDMAddressPubs(db, kc.hdSeedId, count);
      && r.result.Ok? && |r.result.value| == count
      && (forall k :: 0 <= k < count ==> r.result.value[k] == HDMAddress(oldest[k].(remote := Some(remote)), false))
      && (forall k :: 0 <= k < count ==> r.result.value[k].Index() == oldest[k].index)
      && r.kc == kc.(addresses := kc.addresses + r.result.value)
  {
    var oldest := GetUncompletedHDMAddressPubs(db, kc.hdSeedId, count);
    var filled := fetch(pw, oldest).value;
    assert filled == WithRemote(oldest, remote);
    assert forall k :: 0 <= k < |filled| ==> filled[k].remote.Some?;
  }

  /** Every hardened and non-hardened derivation succeeds. */
  ghost predicate DerivationTotal(c: Suite) {
    forall k, i :: c.deriveHardened(k, i).Some? && c.deriveSoftened(k, i).Some?
  }

  /** A freshly created keychain has its external chain root available
      and no records yet. */
  lemma CreatedKeychainReady(c: Suite, db: Db, random: Bytes, pw: Password)
    requires Valid(db) && |random| == 64 && EncryptionRoundTrips(c)
    requires c.toMnemonic(random).Some? && DerivationTotal(c)
    ensures var created := CreateRandom(c, db, random, false, pw);
      && HotRootFor(c, created.kc, created.db, pw).Some?
      && Get(created.db, created.kc.hdSeedId).pending == []
      && Get(created.db, created.kc.hdSeedId).completed == []
      && MaxHDMAddressPubIndex(created.db, created.kc.hdSeedId) == -1
      && created.kc.addresses == []
  {
    var created := CreateRandom(c, db, random, false, pw);
    CreateThenDecrypt(c, db, random, false, pw);
    assert SeedFor(c, created.kc, created.db, pw) == Ok(random);
    var master := RootFromSeed(c, random).value;
    var p := c.deriveHardened(master, 44).value;
    var ct := c.deriveHardened(p, 0).value;
    var a := c.deriveHardened(ct, 0).value;
    assert DerivePath(c, master, ExternalPath) == c.deriveSoftened(a, 0);
  }

  /** Preparing three records on a fresh keychain uses indices 0, 1, 2. */
  lemma FreshKeychainPrepares(c: Suite, db: Db, random: Bytes, pw: Password, coldPub: Bytes, fuel: nat)
    requires Valid(db) && |random| == 64 && EncryptionRoundTrips(c)
    requires c.toMnemonic(random).Some? && DerivationTotal(c) && c.pubFromExtended(coldPub).Some?
    requires fuel >= 3
    ensures var created := CreateRandom(c, db, random, false, pw);
      var prepared := PrepareAddresses(c, created.kc, created.db, 3, pw, coldPub, fuel);
      var pending := Get(prepared.db, created.kc.hdSeedId).pending;
      && prepared.result == Ok(3)
      && |pending| == 3 && pending[0].index == 0 && pending[1].index == 1 && pending[2].index == 2
      && Get(prepared.db, created.kc.hdSeedId).completed == []
      && prepared.kc.addresses == [] && prepared.kc.hdSeedId == created.kc.hdSeedId
  {
    var created := CreateRandom(c, db, random, false, pw);
    CreatedKeychainReady(c, db, random, pw);
    assert forall k, i :: c.deriveSoftened(k, i).Some?;
    PrepareContiguous(c, created.kc, created.db, 3, pw, coldPub, fuel);
    var prepared := PrepareAddresses(c, created.kc, created.db, 3, pw, coldPub, fuel);
    assert Get(prepared.db, created.kc.hdSeedId).pending == NewPending(created.db, prepared.db, created.kc.hdSeedId);
  }

  /** Completing the only three pending records of a seed whose indices
      are 0, 1, 2 yields three addresses with those indices. */
  lemma CompleteFirstThree(kc: Keychain, db: Db, pw: Password, remote: Bytes,
                           fetch: (Password, seq<Pubs>) -> Option<seq<Pubs>>)
    requires FillsRemote(fetch, pw, remote) && kc.addresses == []
    requires var ps := Get(db, kc.hdSeedId).pending;
      |ps| == 3 && ps[0].index == 0 && ps[1].index == 1 && ps[2].index == 2
    ensures var completed := CompleteAddresses(kc, db, 3, pw, fetch, true);
      && completed.result.Ok? && |completed.result.value| == 3
      && (forall k :: 0 <= k < 3 ==> completed.result.value[k].Index() == k)
      && completed.kc.addresses == completed.result.value
  {
    var oldest := GetUncompletedHDMAddressPubs(db, kc.hdSeedId, 3);
    assert oldest == Get(db, kc.hdSeedId).pending;
    CompleteWithFillingRemote(kc, db, 3, pw, remote, fetch);
  }

  /** The largest index of a seed whose records are exactly three pending
      ones with indices 0, 1, 2 is 2. */
  lemma MaxOfFirstThree(db: Db, id: int)
    requires Get(db, id).completed == []
    requires var ps := Get(db, id).pending;
      |ps| == 3 && ps[0].index == 0 && ps[1].index == 1 && ps[2].index == 2
    ensures MaxHDMAddressPubIndex(db, id) == 2
  {
    var ps := Get(db, id).pending;
    assert ps[2].index == 2;
  }

  /** A fresh keychain, three prepared records and their completion: the
      largest pending index becomes 2, and the records become the keychain's
      three addresses with indices 0, 1, 2. */
  lemma FreshKeychainScenario(c: Suite, db: Db, random: Bytes, pw: Password, coldPub: Bytes, remote: Bytes,
                              fetch: (Password, seq<Pubs>) -> Option<seq<Pubs>>, fuel: nat)
    requires Valid(db) && |random| == 64 && EncryptionRoundTrips(c)
    requires c.toMnemonic(random).Some? && DerivationTotal(c) && c.pubFromExtended(coldPub).Some?
    requires FillsRemote(fetch, pw, remote) && fuel >= 3
    ensures var created := CreateRandom(c, db, random, false, pw);
      var prepared := PrepareAddresses(c, created.kc, created.db, 3, pw, coldPub, fuel);
      var completed := CompleteAddresses(prepared.kc, prepared.db, 3, pw, fetch, true);
      && prepared.result == Ok(3)
      && MaxHDMAddressPubIndex(prepared.db, created.kc.hdSeedId) == 2
      && completed.result.Ok? && |completed.result.value| == 3
      && (forall k :: 0 <= k < 3 ==> completed.result.value[k].Index() == k)
      && completed.kc.addresses == completed.result.value
  {
    var created := CreateRandom(c, db, random, false, pw);
    var prepared := PrepareAddresses(c, created.kc, created.db, 3, pw, coldPub, fuel);
    FreshKeychainPrepares(c, db, random, pw, coldPub, fuel);
    MaxOfFirstThree(prepared.db, created.kc.hdSeedId);
    CompleteFirstThree(prepared.kc, prepared.db, pw, remote, fetch);
  }
}
