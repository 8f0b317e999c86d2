/** The HDM keychain's state and its seed-handling operations: decryption of
    the stored seed, the master key and external chain root, single external
    keys, seed words, the largest finalized index, and the random and
    from-storage constructors. */
module HDMKeychain {
  import opened Wrappers
  import opened Errors
  import opened Crypto
  import opened Address
  import opened Storage

  /** The keychain object. `seed` is the transient plaintext buffer (all
      zero once wiped). `unwiped` is a ledger of the private key nodes its
      operations derived and left without wiping: one occurrence, named by
      derivation path, per such node, so a leak is never cancelled by a later
      node at the same path. A key handed to the caller stays there, since
      wiping it is the caller's job. */
  datatype Keychain = Keychain(
    seed: Bytes,
    addresses: seq<HDMAddress>,
    hdSeedId: int,
    isFromXRandom: bool,
    unwiped: multiset<Path>)

  /** An operation's outcome together with the keychain state it leaves. */
  datatype Out<T> = Out(result: Result<T, Error>, kc: Keychain)

  /** The same, for operations that also write to storage. */
  datatype OutDb<T> = OutDb(result: Result<T, Error>, kc: Keychain, db: Db)

  /** Only the secret-holding parts (seed buffer, unwiped nodes) differ. */
  predicate SecretsOnlyChanged(kc: Keychain, kc': Keychain) {
    kc' == kc.(seed := kc'.seed, unwiped := kc'.unwiped)
  }

  /** wipeSeed: overwrite the seed buffer with zeros. */
  function WipeSeed(kc: Keychain): (r: Keychain)
    ensures Zeroed(r.seed) && |r.seed| == |kc.seed|
    ensures r == kc.(seed := r.seed)
  {
    kc.(seed := Zeros(|kc.seed|))
  }

  /** decryptSeed: reads the ciphertext stored under hdSeedId and decrypts it
      into `seed`. Does nothing for a keychain without a seed identifier
      (hdSeedId <= 0) or when storage has no ciphertext. */
  function DecryptSeed(c: Suite, kc: Keychain, db: Db, pw: Password): (r: Result<Keychain, Error>)
    ensures kc.hdSeedId <= 0 ==> r == Ok(kc)
    ensures GetEncryptSeed(db, kc.hdSeedId) == "" ==> r == Ok(kc)
    ensures r.Ok? ==> r.value == kc.(seed := r.value.seed)
    ensures kc.hdSeedId > 0 && GetEncryptSeed(db, kc.hdSeedId) != "" && r.Ok? ==>
      c.decrypt(GetEncryptSeed(db, kc.hdSeedId), pw) == Some(r.value.seed)
    ensures r.Err? <==>
      kc.hdSeedId > 0 && GetEncryptSeed(db, kc.hdSeedId) != "" &&
      c.decrypt(GetEncryptSeed(db, kc.hdSeedId), pw).None?
    ensures r.Err? ==> r.error == KeyCrypter
  {
    if kc.hdSeedId <= 0 then Ok(kc)
    else
      var encrypted := GetEncryptSeed(db, kc.hdSeedId);
      if encrypted == "" then Ok(kc)
      else match c.decrypt(encrypted, pw)
        case None => Err(KeyCrypter)
        case Some(s) => Ok(kc.(seed := s))
  }

  /** The plaintext seed the next masterKey call works from. */
  function SeedFor(c: Suite, kc: Keychain, db: Db, pw: Password): Result<Bytes, Error> {
    match DecryptSeed(c, kc, db, pw)
    case Err(e) => Err(e)
    case Ok(kc') => Ok(kc'.seed)
  }

  /** masterKey: decrypts the seed, turns it into the BIP 32 master key via
      its mnemonic, and zeroes the seed buffer on every exit after the
      decryption, the mnemonic failure included. */
  function MasterKey(c: Suite, kc: Keychain, db: Db, pw: Password): (r: Out<Key>)
    ensures SeedFor(c, kc, db, pw).Err? ==> r == Out(Err(KeyCrypter), kc)
    ensures SeedFor(c, kc, db, pw).Ok? ==>
      && r.result == RootFromSeed(c, SeedFor(c, kc, db, pw).value)
      && Zeroed(r.kc.seed) && |r.kc.seed| == |SeedFor(c, kc, db, pw).value|
    ensures SecretsOnlyChanged(kc, r.kc)
    ensures r.kc.unwiped == if r.result.Ok? then kc.unwiped + multiset{MasterPath} else kc.unwiped
  {
    match DecryptSeed(c, kc, db, pw)
    case Err(e) => Out(Err(e), kc)
    case Ok(kc1) =>
      match c.toMnemonic(kc1.seed)
      case None => Out(Err(MnemonicLength), WipeSeed(kc1))
      case Some(words) =>
        var s := c.toSeed(words, "");
        var kc2 := WipeSeed(kc1);
        Out(Ok(c.masterFromSeed(s)), kc2.(unwiped := kc2.unwiped + multiset{MasterPath}))
  }

  /** externalChainRoot: m/44'/0'/0'/0 below the master key. The master,
      purpose, coin-type and account nodes are wiped; the returned node is
      not. A derivation that throws leaves the nodes derived so far unwiped. */
  function ExternalChainRoot(c: Suite, kc: Keychain, db: Db, pw: Password): (r: Out<Key>)
    ensures SeedFor(c, kc, db, pw).Err? ==> r == Out(Err(KeyCrypter), kc)
    ensures SeedFor(c, kc, db, pw).Ok? ==>
      && r.result == KeyAt(c, SeedFor(c, kc, db, pw).value, ExternalPath)
      && Zeroed(r.kc.seed) && |r.kc.seed| == |SeedFor(c, kc, db, pw).value|
    ensures SecretsOnlyChanged(kc, r.kc)
    ensures r.result.Ok? ==> r.kc.unwiped == kc.unwiped + multiset{ExternalPath}
    ensures r.result.Err? && r.result.error != Derivation ==> r.kc.unwiped == kc.unwiped
    ensures r.result == Err(Derivation) ==> LeftByFailedWalk(kc.unwiped, r.kc.unwiped)
  {
    var m := MasterKey(c, kc, db, pw);
    match m.result
    case Err(e) => m
    case Ok(master) =>
      var kc1 := m.kc;
      match c.deriveHardened(master, 44)
      case None => Out(Err(Derivation), kc1)
      case Some(purpose) =>
        match c.deriveHardened(purpose, 0)
        case None => Out(Err(Derivation), kc1.(unwiped := kc1.unwiped + multiset{PurposePath}))
        case Some(coinType) =>
          match c.deriveHardened(coinType, 0)
          case None => Out(Err(Derivation), kc1.(unwiped := kc1.unwiped + multiset{PurposePath, CoinTypePath}))
          case Some(account) =>
            match c.deriveSoftened(account, 0)
            case None =>
              Out(Err(Derivation), kc1.(unwiped := kc1.unwiped + multiset{PurposePath, CoinTypePath, AccountPath}))
            case Some(external) =>
              // purpose, coin type and account are derived and wiped again;
              // master is wiped; external is derived and handed out
              Out(Ok(external), kc1.(unwiped := kc1.unwiped - multiset{MasterPath} + multiset{ExternalPath}))
  }

  /** The wipe ledger after a walk towards the external chain root that
      stopped at a throwing derivation: master and the nodes below it that
      were reached are left unwiped. */
  predicate LeftByFailedWalk(before: multiset<Path>, after: multiset<Path>) {
    var mk := before + multiset{MasterPath};
    || after == mk || after == mk + multiset{PurposePath}
    || after == mk + multiset{PurposePath, CoinTypePath}
    || after == mk + multiset{PurposePath, CoinTypePath, AccountPath}
  }

  /** The nodes strictly between master and the external chain root that
      derive from `seed`. */
  function Reached(c: Suite, seed: Bytes): multiset<Path> {
    (if KeyAt(c, seed, PurposePath).Ok? then multiset{PurposePath} else multiset{})
    + (if KeyAt(c, seed, CoinTypePath).Ok? then multiset{CoinTypePath} else multiset{})
    + (if KeyAt(c, seed, AccountPath).Ok? then multiset{AccountPath} else multiset{})
  }

  /** Which of purpose, coin type and account derive, read off the walk
      from the master key. */
  lemma ReachedByWalk(c: Suite, seed: Bytes, master: Key)
    requires RootFromSeed(c, seed) == Ok(master)
    ensures Reached(c, seed) ==
      match c.deriveHardened(master, 44)
      case None => multiset{}
      case Some(purpose) =>
        match c.deriveHardened(purpose, 0)
        case None => multiset{PurposePath}
        case Some(coinType) =>
          match c.deriveHardened(coinType, 0)
          case None => multiset{PurposePath, CoinTypePath}
          case Some(_) => multiset{PurposePath, CoinTypePath, AccountPath}
  {
    match c.deriveHardened(master, 44)
    case None =>
      assert KeyAt(c, seed, PurposePath).Err? && KeyAt(c, seed, CoinTypePath).Err? && KeyAt(c, seed, AccountPath).Err?;
    case Some(purpose) =>
      assert KeyAt(c, seed, PurposePath) == Ok(purpose);
      match c.deriveHardened(purpose, 0)
      case None =>
        assert KeyAt(c, seed, CoinTypePath).Err? && KeyAt(c, seed, AccountPath).Err?;
      case Some(coinType) =>
        assert KeyAt(c, seed, CoinTypePath) == Ok(coinType);
        match c.deriveHardened(coinType, 0)
        case None =>
          assert KeyAt(c, seed, AccountPath).Err?;
        case Some(account) =>
          assert KeyAt(c, seed, AccountPath) == Ok(account);
  }

  /** A walk to the external chain root that throws leaves master and
      exactly the nodes below it that were derived before the throw. */
  lemma ExternalChainRootFailureLedger(c: Suite, kc: Keychain, db: Db, pw: Password)
    requires ExternalChainRoot(c, kc, db, pw).result == Err(Derivation)
    ensures SeedFor(c, kc, db, pw).Ok?
    ensures ExternalChainRoot(c, kc, db, pw).kc.unwiped ==
      kc.unwiped + multiset{MasterPath} + Reached(c, SeedFor(c, kc, db, pw).value)
  {
    var seed := SeedFor(c, kc, db, pw).value;
    var m := MasterKey(c, kc, db, pw);
    var r := ExternalChainRoot(c, kc, db, pw);
    var master := m.result.value;
    ReachedByWalk(c, seed, master);
    var kc1 := m.kc;
    match c.deriveHardened(master, 44)
    case None =>
      assert r == Out(Err(Derivation), kc1);
    case Some(purpose) =>
      match c.deriveHardened(purpose, 0)
      case None =>
        assert r == Out(Err(Derivation), kc1.(unwiped := kc1.unwiped + multiset{PurposePath}));
      case Some(coinType) =>
        match c.deriveHardened(coinType, 0)
        case None =>
          assert r == Out(Err(Derivation), kc1.(unwiped := kc1.unwiped + multiset{PurposePath, CoinTypePath}));
        case Some(account) =>
          assert r == Out(Err(Derivation), kc1.(unwiped := kc1.unwiped + multiset{PurposePath, CoinTypePath, AccountPath}));
  }

  /** getExternalKey: the non-hardened child `index` of the external chain
      root, private part included; the root is wiped, the child is the
      caller's to wipe. */
  function GetExternalKey(c: Suite, kc: Keychain, db: Db, index: int, pw: Password): (r: Out<Key>)
    ensures SeedFor(c, kc, db, pw).Err? ==> r == Out(Err(KeyCrypter), kc)
    ensures SeedFor(c, kc, db, pw).Ok? ==>
      && r.result == KeyAt(c, SeedFor(c, kc, db, pw).value, ExternalPath + [Soft(index)])
      && Zeroed(r.kc.seed)
    ensures SecretsOnlyChanged(kc, r.kc)
    ensures r.result.Ok? ==>
      r.kc.unwiped == kc.unwiped + multiset{ExternalPath + [Soft(index)]}
    ensures r.result.Err? && r.result.error != Derivation ==> r.kc.unwiped == kc.unwiped
    ensures r.result == Err(Derivation) && SeedFor(c, kc, db, pw).Ok? ==>
      if KeyAt(c, SeedFor(c, kc, db, pw).value, ExternalPath).Ok?
      then r.kc.unwiped == kc.unwiped + multiset{ExternalPath}
      else LeftByFailedWalk(kc.unwiped, r.kc.unwiped)
  {
    var root := ExternalChainRoot(c, kc, db, pw);
    KeyAtSoftChild(c, SeedFor(c, kc, db, pw).GetOr([]), ExternalPath, index);
    match root.result
    case Err(e) => root
    case Ok(rootKey) =>
      match c.deriveSoftened(rootKey, index)
      case None => Out(Err(Derivation), root.kc)
      case Some(key) =>
        Out(Ok(key), root.kc.(unwiped := root.kc.unwiped + multiset{ExternalPath + [Soft(index)]} - multiset{ExternalPath}))
  }

  /** getExternalKey failing on the way to the chain root leaves master and
      exactly the nodes below it derived before the throw. */
  lemma GetExternalKeyFailureLedger(c: Suite, kc: Keychain, db: Db, index: int, pw: Password)
    requires GetExternalKey(c, kc, db, index, pw).result == Err(Derivation)
    requires ExternalChainRoot(c, kc, db, pw).result.Err?
    ensures SeedFor(c, kc, db, pw).Ok?
    ensures GetExternalKey(c, kc, db, index, pw).kc.unwiped ==
      kc.unwiped + multiset{MasterPath} + Reached(c, SeedFor(c, kc, db, pw).value)
  {
    assert GetExternalKey(c, kc, db, index, pw) == ExternalChainRoot(c, kc, db, pw);
    ExternalChainRootFailureLedger(c, kc, db, pw);
  }

  /** getSeedWords: the BIP 39 words of the decrypted seed; the seed buffer
      is zeroed on every exit after the decryption, the mnemonic failure
      included. */
  function GetSeedWords(c: Suite, kc: Keychain, db: Db, pw: Password): (r: Out<Words>)
    ensures SeedFor(c, kc, db, pw).Err? ==> r == Out(Err(KeyCrypter), kc)
    ensures SeedFor(c, kc, db, pw).Ok? ==>
      && (r.result.Ok? <==> c.toMnemonic(SeedFor(c, kc, db, pw).value).Some?)
      && (r.result.Ok? ==> Some(r.result.value) == c.toMnemonic(SeedFor(c, kc, db, pw).value))
      && (r.result.Err? ==> r.result.error == MnemonicLength)
      && Zeroed(r.kc.seed)
    ensures r.kc == kc.(seed := r.kc.seed)
  {
    match DecryptSeed(c, kc, db, pw)
    case Err(e) => Out(Err(e), kc)
    case Ok(kc1) =>
      match c.toMnemonic(kc1.seed)
      case None => Out(Err(MnemonicLength), WipeSeed(kc1))
      case Some(words) => Out(Ok(words), WipeSeed(kc1))
  }

  /** Integer.MIN_VALUE, the answer for a keychain without addresses. */
  const IntMin: int := -0x8000_0000

  predicate IsInt32(x: int) {
    -0x8000_0000 <= x < 0x8000_0000
  }

  /** getCurrentMaxAddressIndex: the largest index among the finalized
      addresses, or Integer.MIN_VALUE when there are none. */
  method GetCurrentMaxAddressIndex(kc: Keychain) returns (max: int)
    ensures |kc.addresses| == 0 ==> max == IntMin
    ensures forall k :: 0 <= k < |kc.addresses| ==> kc.addresses[k].Index() <= max
    ensures max == IntMin || exists k :: 0 <= k < |kc.addresses| && kc.addresses[k].Index() == max
    ensures (forall k :: 0 <= k < |kc.addresses| ==> IsInt32(kc.addresses[k].Index())) ==>
      IsInt32(max) && (|kc.addresses| > 0 ==> exists k :: 0 <= k < |kc.addresses| && kc.addresses[k].Index() == max)
  {
    max := IntMin;
    var n := 0;
    while n < |kc.addresses|
      invariant 0 <= n <= |kc.addresses|
      invariant forall k :: 0 <= k < n ==> kc.addresses[k].Index() <= max
      invariant max == IntMin || exists k :: 0 <= k < n && kc.addresses[k].Index() == max
    {
      if kc.addresses[n].Index() > max {
        max := kc.addresses[n].Index();
      }
      n := n + 1;
    }
    if max == IntMin && |kc.addresses| > 0 && forall k :: 0 <= k < |kc.addresses| ==> IsInt32(kc.addresses[k].Index()) {
      assert kc.addresses[0].Index() <= max;
      assert kc.addresses[0].Index() == max;
    }
  }

  /** The random constructor: the 64 bytes drawn from the random source and
      its provenance flag are inputs. The seed is encrypted, wiped, and the
      ciphertext stored under a fresh identifier. */
  function CreateRandom(c: Suite, db: Db, random: Bytes, isFromXRandom: bool, pw: Password): (r: OutDb<()>)
    requires |random| == 64
    ensures r.result.Ok?
    ensures |r.kc.seed| == 64 && Zeroed(r.kc.seed)
    ensures r.kc.addresses == [] && r.kc.isFromXRandom == isFromXRandom && r.kc.unwiped == multiset{}
    ensures r.kc.hdSeedId == db.nextSeedId
    ensures Get(r.db, r.kc.hdSeedId) == SeedRecord(c.encrypt(random, pw), isFromXRandom, [], [])
    ensures OthersUnchanged(db.(nextSeedId := db.nextSeedId + 1), r.db, r.kc.hdSeedId)
  {
    var kc := Keychain(random, [], 0, isFromXRandom, multiset{});
    var encryptedSeed := c.encrypt(kc.seed, pw);
    var kc1 := WipeSeed(kc);
    var (id, db1) := AddHDKey(db, encryptedSeed, isFromXRandom);
    OutDb(Ok(()), kc1.(hdSeedId := id), db1)
  }

  /** The from-storage constructor: provenance flag and finalized addresses
      are read back for `seedId`. The seed buffer is null until decrypted,
      modelled as empty. */
  function LoadFromDb(db: Db, seedId: int): (r: Keychain)
    ensures r.hdSeedId == seedId && r.seed == [] && r.unwiped == multiset{}
    ensures r.isFromXRandom == Get(db, seedId).fromXRandom
    ensures r.addresses == Get(db, seedId).completed
  {
    Keychain([], HDMAddressInUse(db, seedId), seedId, IsHDSeedFromXRandom(db, seedId), multiset{})
  }

  /** The encryption collaborator decrypts what it encrypted, and never
      produces an empty ciphertext. */
  ghost predicate EncryptionRoundTrips(c: Suite) {
    forall s, pw :: c.encrypt(s, pw) != "" && c.decrypt(c.encrypt(s, pw), pw) == Some(s)
  }

  /** A randomly created keychain decrypts back to the bytes it was created from. */
  lemma CreateThenDecrypt(c: Suite, db: Db, random: Bytes, isFromXRandom: bool, pw: Password)
    requires |random| == 64 && Valid(db) && EncryptionRoundTrips(c)
    ensures var r := CreateRandom(c, db, random, isFromXRandom, pw);
      DecryptSeed(c, r.kc, r.db, pw) == Ok(r.kc.(seed := random))
  {
    var r := CreateRandom(c, db, random, isFromXRandom, pw);
    assert GetEncryptSeed(r.db, r.kc.hdSeedId) == c.encrypt(random, pw);
  }

  /** The words getSeedWords hands out decode back to the seed it decrypted. */
  lemma SeedWordsRoundTrip(c: Suite, kc: Keychain, db: Db, pw: Password)
    requires MnemonicRoundTrips(c)
    ensures var w := GetSeedWords(c, kc, db, pw);
      w.result.Ok? ==> SeedFor(c, kc, db, pw).Ok? && c.toEntropy(w.result.value) == Some(SeedFor(c, kc, db, pw).value)
  {
  }

  /** The words of a randomly created keychain decode back to the random
      bytes it was created from, and the seed buffer is zero afterwards. */
  lemma CreatedSeedWordsRoundTrip(c: Suite, db: Db, random: Bytes, isFromXRandom: bool, pw: Password)
    requires |random| == 64 && Valid(db) && EncryptionRoundTrips(c) && MnemonicRoundTrips(c)
    requires c.toMnemonic(random).Some?
    ensures var created := CreateRandom(c, db, random, isFromXRandom, pw);
      var w := GetSeedWords(c, created.kc, created.db, pw);
      && w.result.Ok? && c.toEntropy(w.result.value) == Some(random) && Zeroed(w.kc.seed)
  {
    var created := CreateRandom(c, db, random, isFromXRandom, pw);
    CreateThenDecrypt(c, db, random, isFromXRandom, pw);
    assert SeedFor(c, created.kc, created.db, pw) == Ok(random);
    SeedWordsRoundTrip(c, created.kc, created.db, pw);
  }
}
