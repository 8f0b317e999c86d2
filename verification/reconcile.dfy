/** The HDM reconciliation protocol: prepare (pending hot/cold records),
    complete (adding the remote key and finalizing addresses) and import
    (adopting a seed created elsewhere after an identity check). */
module Reconcile {
  import opened Wrappers
  import opened Errors
  import opened Crypto
  import opened Address
  import opened Storage
  import opened HDMKeychain

  /** Both roots yield a non-hardened child at index j. */
  predicate BothDerive(c: Suite, hot: Key, cold: Key, j: int) {
    c.deriveSoftened(hot, j).Some? && c.deriveSoftened(cold, j).Some?
  }

  /** A pending record whose hot and cold keys are the children at its own
      index of the hot and cold roots. */
  predicate DerivedAt(c: Suite, hot: Key, cold: Key, p: Pubs) {
    && BothDerive(c, hot, cold, p.index)
    && p.hot == c.deriveSoftened(hot, p.index).value.pub
    && p.cold == c.deriveSoftened(cold, p.index).value.pub
    && p.remote.None?
  }

  /** One past the last index used, or `start` for an empty run. */
  function NextIndex(start: int, ps: seq<Pubs>): int {
    if |ps| == 0 then start else ps[|ps| - 1].index + 1
  }

  /** What the prepare loop produces from index `start`: records derived at
      their own index, indices strictly increasing from `start`, and an
      index skipped only where a derivation failed. */
  ghost predicate PreparedRun(c: Suite, hot: Key, cold: Key, start: int, ps: seq<Pubs>) {
    && (forall k :: 0 <= k < |ps| ==> start <= ps[k].index && DerivedAt(c, hot, cold, ps[k]))
    && (forall k, l :: 0 <= k < l < |ps| ==> ps[k].index < ps[l].index)
    && (forall j :: start <= j < NextIndex(start, ps) && BothDerive(c, hot, cold, j) ==> j in Indices(ps))
  }

  /** The indices of a record followed by a batch. */
  lemma IndicesCons(p: Pubs, rest: seq<Pubs>)
    ensures Indices([p] + rest) == {p.index} + Indices(rest)
  {
    var ps := [p] + rest;
    forall j | j in Indices(rest) ensures j in Indices(ps) {
      var k :| 0 <= k < |rest| && rest[k].index == j;
      assert ps[k + 1] == rest[k];
    }
    assert ps[0] == p;
  }

  /** A record derived at `start` extends a run that starts one later. */
  lemma PreparedRunCons(c: Suite, hot: Key, cold: Key, start: int, p: Pubs, rest: seq<Pubs>)
    requires p.index == start && DerivedAt(c, hot, cold, p)
    requires PreparedRun(c, hot, cold, start + 1, rest)
    ensures PreparedRun(c, hot, cold, start, [p] + rest)
  {
    ConsDerived(c, hot, cold, start, p, rest);
    ConsIncreasing(start, p, rest);
    ConsCovers(c, hot, cold, start, p, rest);
  }

  /** Each record of the extended run is derived at its own index from `start` on. */
  lemma ConsDerived(c: Suite, hot: Key, cold: Key, start: int, p: Pubs, rest: seq<Pubs>)
    requires p.index == start && DerivedAt(c, hot, cold, p)
    requires forall k :: 0 <= k < |rest| ==> start + 1 <= rest[k].index && DerivedAt(c, hot, cold, rest[k])
    ensures forall k :: 0 <= k < |[p] + rest| ==> start <= ([p] + rest)[k].index && DerivedAt(c, hot, cold, ([p] + rest)[k])
  {
    var ps := [p] + rest;
    forall k | 0 <= k < |ps| ensures start <= ps[k].index && DerivedAt(c, hot, cold, ps[k]) {
      if k > 0 {
        assert ps[k] == rest[k - 1];
      }
    }
  }

  /** The extended run's indices still strictly increase. */
  lemma ConsIncreasing(start: int, p: Pubs, rest: seq<Pubs>)
    requires p.index == start
    requires forall k :: 0 <= k < |rest| ==> start + 1 <= rest[k].index
    requires forall k, l :: 0 <= k < l < |rest| ==> rest[k].index < rest[l].index
    ensures forall k, l :: 0 <= k < l < |[p] + rest| ==> ([p] + rest)[k].index < ([p] + rest)[l].index
  {
    var ps := [p] + rest;
    forall k, l | 0 <= k < l < |ps| ensures ps[k].index < ps[l].index {
      assert ps[l] == rest[l - 1];
      if k > 0 {
        assert ps[k] == rest[k - 1];
      }
    }
  }

  /** The extended run still skips only indices whose derivation fails. */
  lemma ConsCovers(c: Suite, hot: Key, cold: Key, start: int, p: Pubs, rest: seq<Pubs>)
    requires p.index == start
    requires forall j :: start + 1 <= j < NextIndex(start + 1, rest) && BothDerive(c, hot, cold, j) ==> j in Indices(rest)
    ensures forall j :: start <= j < NextIndex(start, [p] + rest) && BothDerive(c, hot, cold, j) ==> j in Indices([p] + rest)
  {
    IndicesCons(p, rest);
    assert NextIndex(start, [p] + rest) == NextIndex(start + 1, rest);
  }

  /** An index whose derivation fails may be skipped. */
  lemma PreparedRunSkip(c: Suite, hot: Key, cold: Key, start: int, rest: seq<Pubs>)
    requires !BothDerive(c, hot, cold, start)
    requires PreparedRun(c, hot, cold, start + 1, rest)
    ensures PreparedRun(c, hot, cold, start, rest)
  {
    assert |rest| > 0 ==> NextIndex(start, rest) == NextIndex(start + 1, rest);
  }

  /** The loop of prepareAddresses from index i until `need` more records
      exist. An index whose derivation throws is skipped. The loop only ends
      when enough derivations succeed; `fuel` bounds the iterations, and
      `None` means the loop had not finished after `fuel` of them (the source
      keeps iterating, and runs forever only when derivations keep failing). */
  function CollectPubs(c: Suite, hot: Key, cold: Key, i: int, need: nat, fuel: nat): (r: Option<seq<Pubs>>)
    ensures r.Some? ==> |r.value| == need
    ensures fuel < need ==> r.None?
    decreases fuel
  {
    if need == 0 then Some([])
    else if fuel == 0 then None
    else if BothDerive(c, hot, cold, i) then
      var p := Pubs(c.deriveSoftened(hot, i).value.pub, c.deriveSoftened(cold, i).value.pub, None, i);
      match CollectPubs(c, hot, cold, i + 1, need - 1, fuel - 1)
      case None => None
      case Some(rest) => Some([p] + rest)
    else
      CollectPubs(c, hot, cold, i + 1, need, fuel - 1)
  }

  /** The iteration bound is only a bound: once the loop finishes within
      `fuel` iterations, any larger bound yields the same records. */
  lemma {:induction false} CollectPubsMoreFuel(c: Suite, hot: Key, cold: Key, i: int, need: nat, fuel: nat, more: nat)
    requires CollectPubs(c, hot, cold, i, need, fuel).Some? && fuel <= more
    ensures CollectPubs(c, hot, cold, i, need, more) == CollectPubs(c, hot, cold, i, need, fuel)
    decreases fuel
  {
    if need > 0 {
      if BothDerive(c, hot, cold, i) {
        CollectPubsMoreFuel(c, hot, cold, i + 1, need - 1, fuel - 1, more - 1);
      } else {
        CollectPubsMoreFuel(c, hot, cold, i + 1, need, fuel - 1, more - 1);
      }
    }
  }

  /** Whatever the loop produces is a prepared run from its first index. */
  lemma {:induction false} CollectPubsRun(c: Suite, hot: Key, cold: Key, i: int, need: nat, fuel: nat)
    requires CollectPubs(c, hot, cold, i, need, fuel).Some?
    ensures PreparedRun(c, hot, cold, i, CollectPubs(c, hot, cold, i, need, fuel).value)
    decreases fuel
  {
    if need > 0 {
      if BothDerive(c, hot, cold, i) {
        CollectPubsRun(c, hot, cold, i + 1, need - 1, fuel - 1);
        var p := Pubs(c.deriveSoftened(hot, i).value.pub, c.deriveSoftened(cold, i).value.pub, None, i);
        PreparedRunCons(c, hot, cold, i, p, CollectPubs(c, hot, cold, i + 1, need - 1, fuel - 1).value);
      } else {
        CollectPubsRun(c, hot, cold, i + 1, need, fuel - 1);
        PreparedRunSkip(c, hot, cold, i, CollectPubs(c, hot, cold, i + 1, need, fuel - 1).value);
      }
    }
  }

  /** When every index in [i, i + need) derives and the fuel covers them, the
      loop produces exactly the indices i, i + 1, ..., i + need - 1. */
  lemma {:induction false} CollectContiguous(c: Suite, hot: Key, cold: Key, i: int, need: nat, fuel: nat)
    requires fuel >= need
    requires forall j :: i <= j < i + need ==> BothDerive(c, hot, cold, j)
    ensures CollectPubs(c, hot, cold, i, need, fuel).Some?
    ensures forall k :: 0 <= k < need ==> CollectPubs(c, hot, cold, i, need, fuel).value[k].index == i + k
    decreases need
  {
    if need > 0 {
      assert BothDerive(c, hot, cold, i);
      CollectContiguous(c, hot, cold, i + 1, need - 1, fuel - 1);
      var rest := CollectPubs(c, hot, cold, i + 1, need - 1, fuel - 1).value;
      var p := Pubs(c.deriveSoftened(hot, i).value.pub, c.deriveSoftened(cold, i).value.pub, None, i);
      var ps := [p] + rest;
      assert CollectPubs(c, hot, cold, i, need, fuel) == Some(ps);
      forall k | 0 <= k < need ensures ps[k].index == i + k {
        if k > 0 {
          assert ps[k] == rest[k - 1];
        }
      }
    }
  }

  /** The records a successful prepare appended to the seed's pending list. */
  function NewPending(db: Db, db': Db, id: int): seq<Pubs>
    requires |Get(db, id).pending| <= |Get(db', id).pending|
  {
    Get(db', id).pending[|Get(db, id).pending|..]
  }

  function HotRoot(c: Suite, seed: Bytes): Option<Key> {
    match KeyAt(c, seed, ExternalPath)
    case Err(_) => None
    case Ok(k) => Some(ClearPrivateKey(k))
  }

  /** The public-only external chain root the keychain's stored seed yields. */
  function HotRootFor(c: Suite, kc: Keychain, db: Db, pw: Password): Option<Key> {
    match SeedFor(c, kc, db, pw)
    case Err(_) => None
    case Ok(seed) => HotRoot(c, seed)
  }

  /** prepareAddresses. The cold root is parsed first; the hot external
      chain root has its private part cleared before any child is derived.
      A mnemonic-length failure answers 0 with nothing persisted; other
      failures propagate. Every exit after the decryption leaves the seed
      zero, and only a derivation failure leaves private nodes unwiped.
      Otherwise `count` records (none for count <= 0) are derived from index maxHDMAddressPubIndex + 1 on and appended to
      the pending list, and the answer is their number. */
  function PrepareAddresses(c: Suite, kc: Keychain, db: Db, count: int, pw: Password,
                            coldExternalRootPub: Bytes, fuel: nat): (r: OutDb<int>)
    ensures r.kc.addresses == kc.addresses && r.kc.hdSeedId == kc.hdSeedId
    ensures r.kc.isFromXRandom == kc.isFromXRandom
    ensures c.pubFromExtended(coldExternalRootPub).None? ==> r == OutDb(Err(InvalidColdRoot), kc, db)
    ensures r.result.Err? ==> r.db == db
    ensures c.pubFromExtended(coldExternalRootPub).Some? && SeedFor(c, kc, db, pw).Ok? ==> Zeroed(r.kc.seed)
    ensures r.result != Err(Derivation) ==> r.kc.unwiped == kc.unwiped
    ensures r.result == Err(Derivation) ==> LeftByFailedWalk(kc.unwiped, r.kc.unwiped)
    ensures c.pubFromExtended(coldExternalRootPub).Some? && SeedFor(c, kc, db, pw).Ok? &&
            RootFromSeed(c, SeedFor(c, kc, db, pw).value).Err? ==>
      r.result == Ok(0) && r.db == db && Zeroed(r.kc.seed) && r.kc.unwiped == kc.unwiped
    ensures r.result.Ok? && HotRootFor(c, kc, db, pw).Some? ==>
      && SeedFor(c, kc, db, pw).Ok?
      && r.result.value == (if count <= 0 then 0 else count)
      && Get(db, kc.hdSeedId).pending <= Get(r.db, kc.hdSeedId).pending
      && |Get(r.db, kc.hdSeedId).pending| == |Get(db, kc.hdSeedId).pending| + r.result.value
      && Get(r.db, kc.hdSeedId) == Get(db, kc.hdSeedId).(pending := Get(r.db, kc.hdSeedId).pending)
      && OthersUnchanged(db, r.db, kc.hdSeedId)
      && PreparedRun(c, HotRootFor(c, kc, db, pw).value,
                     c.pubFromExtended(coldExternalRootPub).value,
                     MaxHDMAddressPubIndex(db, kc.hdSeedId) + 1,
                     NewPending(db, r.db, kc.hdSeedId))
  {
    match c.pubFromExtended(coldExternalRootPub)
    case None => OutDb(Err(InvalidColdRoot), kc, db)
    case Some(cold) =>
      var root := ExternalChainRoot(c, kc, db, pw);
      match root.result
      case Err(e) =>
        if e == MnemonicLength then OutDb(Ok(0), root.kc, db) else OutDb(Err(e), root.kc, db)
      case Ok(rootKey) =>
        var hot := ClearPrivateKey(rootKey);
        var kc1 := root.kc.(unwiped := root.kc.unwiped - multiset{ExternalPath});
        var start := MaxHDMAddressPubIndex(db, kc.hdSeedId) + 1;
        match CollectPubs(c, hot, cold, start, if count <= 0 then 0 else count, fuel)
        case None => OutDb(Err(OutOfFuel), kc1, db)
        case Some(ps) =>
          CollectPubsRun(c, hot, cold, start, if count <= 0 then 0 else count, fuel);
          var db' := PrepareHDMAddresses(db, kc.hdSeedId, ps);
          assert NewPending(db, db', kc.hdSeedId) == ps;
          OutDb(Ok(|ps|), kc1, db')
  }

  /** The pending records a prepare appends are exactly what the loop
      collects from the cleared hot root and the cold root. */
  lemma PrepareCollects(c: Suite, kc: Keychain, db: Db, count: int, pw: Password,
                        coldExternalRootPub: Bytes, fuel: nat)
    requires c.pubFromExtended(coldExternalRootPub).Some?
    requires HotRootFor(c, kc, db, pw).Some?
    ensures var r := PrepareAddresses(c, kc, db, count, pw, coldExternalRootPub, fuel);
      var run := CollectPubs(c, HotRootFor(c, kc, db, pw).value,
                             c.pubFromExtended(coldExternalRootPub).value,
                             MaxHDMAddressPubIndex(db, kc.hdSeedId) + 1,
                             if count <= 0 then 0 else count, fuel);
      run.Some? ==> r.result.Ok? && NewPending(db, r.db, kc.hdSeedId) == run.value
  {
    var root := ExternalChainRoot(c, kc, db, pw);
    var hot := HotRootFor(c, kc, db, pw).value;
    assert root.result.Ok? && ClearPrivateKey(root.result.value) == hot;
    var kc1 := root.kc.(unwiped := root.kc.unwiped - multiset{ExternalPath});
    var r := PrepareAddresses(c, kc, db, count, pw, coldExternalRootPub, fuel);
    match CollectPubs(c, hot, c.pubFromExtended(coldExternalRootPub).value, MaxHDMAddressPubIndex(db, kc.hdSeedId) + 1,
                      if count <= 0 then 0 else count, fuel)
    case None =>
      assert r == OutDb(Err(OutOfFuel), kc1, db);
    case Some(ps) =>
      assert r == OutDb(Ok(|ps|), kc1, PrepareHDMAddresses(db, kc.hdSeedId, ps));
  }

  /** A prepare whose loop does not finish within its bound fails. */
  lemma PrepareOutOfFuel(c: Suite, kc: Keychain, db: Db, count: int, pw: Password,
                         coldExternalRootPub: Bytes, fuel: nat)
    requires c.pubFromExtended(coldExternalRootPub).Some?
    requires HotRootFor(c, kc, db, pw).Some?
    ensures var r := PrepareAddresses(c, kc, db, count, pw, coldExternalRootPub, fuel);
      var run := CollectPubs(c, HotRootFor(c, kc, db, pw).value,
                             c.pubFromExtended(coldExternalRootPub).value,
                             MaxHDMAddressPubIndex(db, kc.hdSeedId) + 1,
                             if count <= 0 then 0 else count, fuel);
      run.None? ==> r.result == Err(OutOfFuel) && r.db == db
  {
    var root := ExternalChainRoot(c, kc, db, pw);
    var hot := HotRootFor(c, kc, db, pw).value;
    assert root.result.Ok? && ClearPrivateKey(root.result.value) == hot;
    var kc1 := root.kc.(unwiped := root.kc.unwiped - multiset{ExternalPath});
    var r := PrepareAddresses(c, kc, db, count, pw, coldExternalRootPub, fuel);
    match CollectPubs(c, hot, c.pubFromExtended(coldExternalRootPub).value, MaxHDMAddressPubIndex(db, kc.hdSeedId) + 1,
                      if count <= 0 then 0 else count, fuel)
    case None =>
      assert r == OutDb(Err(OutOfFuel), kc1, db);
    case Some(ps) =>
      assert r == OutDb(Ok(|ps|), kc1, PrepareHDMAddresses(db, kc.hdSeedId, ps));
  }

  /** A prepare that fails with a throwing derivation leaves master and
      exactly the nodes below it derived before the throw. */
  lemma PrepareFailureLedger(c: Suite, kc: Keychain, db: Db, count: int, pw: Password,
                             coldExternalRootPub: Bytes, fuel: nat)
    requires PrepareAddresses(c, kc, db, count, pw, coldExternalRootPub, fuel).result == Err(Derivation)
    ensures SeedFor(c, kc, db, pw).Ok?
    ensures PrepareAddresses(c, kc, db, count, pw, coldExternalRootPub, fuel).kc.unwiped ==
      kc.unwiped + multiset{MasterPath} + Reached(c, SeedFor(c, kc, db, pw).value)
  {
    var root := ExternalChainRoot(c, kc, db, pw);
    var r := PrepareAddresses(c, kc, db, count, pw, coldExternalRootPub, fuel);
    assert root.result == Err(Derivation) && r.kc == root.kc;
    ExternalChainRootFailureLedger(c, kc, db, pw);
  }

  /** prepareAddresses catches only the mnemonic-length failure: a password
      that does not decrypt and a derivation that throws on the way to the
      external chain root both leave it. */
  lemma PrepareRaises(c: Suite, kc: Keychain, db: Db, count: int, pw: Password,
                      coldExternalRootPub: Bytes, fuel: nat)
    requires c.pubFromExtended(coldExternalRootPub).Some?
    ensures var r := PrepareAddresses(c, kc, db, count, pw, coldExternalRootPub, fuel);
      && (SeedFor(c, kc, db, pw).Err? ==> r.result == Err(KeyCrypter))
      && (SeedFor(c, kc, db, pw).Ok? && KeyAt(c, SeedFor(c, kc, db, pw).value, ExternalPath) == Err(Derivation) ==>
            r.result == Err(Derivation))
  {
    var root := ExternalChainRoot(c, kc, db, pw);
    var r := PrepareAddresses(c, kc, db, count, pw, coldExternalRootPub, fuel);
    if root.result.Err? {
      var e := root.result.error;
      assert r == if e == MnemonicLength then OutDb(Ok(0), root.kc, db) else OutDb(Err(e), root.kc, db);
    }
  }

  /** completeAddresses. Asking for more than the pending count fails
      before anything is read. Otherwise the oldest `count` pending records
      go to the remote-fetch delegate, an address is built per returned
      record, and the batch is persisted and appended to the keychain's
      addresses. A throwing delegate, address construction or persist
      (`persisted` false) ends the call normally with the addresses built
      so far, with storage and the keychain untouched. */
  function CompleteAddresses(kc: Keychain, db: Db, count: int, pw: Password,
                             fetch: (Password, seq<Pubs>) -> Option<seq<Pubs>>,
                             persisted: bool): (r: OutDb<seq<HDMAddress>>)
    ensures UncompletedHDMAddressCount(db, kc.hdSeedId) < count ==>
      r == OutDb(Err(NotEnoughUncompleted(count, UncompletedHDMAddressCount(db, kc.hdSeedId), kc.hdSeedId)), kc, db)
    ensures UncompletedHDMAddressCount(db, kc.hdSeedId) >= count ==> r.result.Ok?
    ensures r.result.Ok? ==>
      || (r.kc == kc && r.db == db)
      || (r.kc == kc.(addresses := kc.addresses + r.result.value) &&
          r.db == CompleteHDMAddresses(db, kc.hdSeedId, r.result.value))
    ensures r.result.Ok? ==>
      var oldest := GetUncompletedHDMAddressPubs(db, kc.hdSeedId, count);
      match fetch(pw, oldest)
      case None => r == OutDb(Ok([]), kc, db)
      case Some(filled) =>
        && |r.result.value| <= |filled|
        && (forall k :: 0 <= k < |r.result.value| ==> r.result.value[k] == HDMAddress(filled[k], false))
        && (|r.result.value| == |filled| || filled[|r.result.value|].remote.None?)
        && ((forall k :: 0 <= k < |filled| ==> filled[k].remote.Some?) ==> |r.result.value| == |filled|)
        && ((forall k :: 0 <= k < |filled| ==> filled[k].remote.Some?) && persisted ==>
            r.kc == kc.(addresses := kc.addresses + r.result.value) &&
            r.db == CompleteHDMAddresses(db, kc.hdSeedId, r.result.value) &&
            |r.result.value| == |filled|)
        && (!(forall k :: 0 <= k < |filled| ==> filled[k].remote.Some?) || !persisted ==>
            r.kc == kc && r.db == db)
  {
    var available := UncompletedHDMAddressCount(db, kc.hdSeedId);
    if available < count then
      OutDb(Err(NotEnoughUncompleted(count, available, kc.hdSeedId)), kc, db)
    else
      var pubs := GetUncompletedHDMAddressPubs(db, kc.hdSeedId, count);
      match fetch(pw, pubs)
      case None => OutDb(Ok([]), kc, db)
      case Some(filled) =>
        var built := BuildAddresses(filled);
        if !built.complete || !persisted then OutDb(Ok(built.addresses), kc, db)
        else OutDb(Ok(built.addresses), kc.(addresses := kc.addresses + built.addresses),
                  CompleteHDMAddresses(db, kc.hdSeedId, built.addresses))
  }

  /** The identity check of the import constructor: the child 0 of the
      locally derived external chain root must carry the hot key of the first
      remote record. A mnemonic failure wipes the seed and is rethrown; a
      mismatch wipes the seed and fails. Root and child are both wiped. */
  function VerifyBitherId(c: Suite, kc: Keychain, db: Db, pw: Password, fetchedHot: Bytes): (r: Out<()>)
    ensures SecretsOnlyChanged(kc, r.kc)
    ensures SeedFor(c, kc, db, pw).Err? ==> r == Out(Err(KeyCrypter), kc)
    ensures SeedFor(c, kc, db, pw).Ok? ==>
      var expected := KeyAt(c, SeedFor(c, kc, db, pw).value, ExternalPath + [Soft(0)]);
      && (expected.Err? ==> r.result == Err(expected.error))
      && (expected.Ok? ==>
            r.result == if expected.value.pub == fetchedHot then Ok(()) else Err(BitherIdNotMatch))
      && Zeroed(r.kc.seed)
    ensures r.result.Err? ==> r.result.error in {KeyCrypter, MnemonicLength, Derivation, BitherIdNotMatch}
    ensures r.result != Err(Derivation) ==> r.kc.unwiped == kc.unwiped
    ensures r.result == Err(Derivation) && SeedFor(c, kc, db, pw).Ok? ==>
      if KeyAt(c, SeedFor(c, kc, db, pw).value, ExternalPath).Ok?
      then r.kc.unwiped == kc.unwiped + multiset{ExternalPath}
      else LeftByFailedWalk(kc.unwiped, r.kc.unwiped)
  {
    var root := ExternalChainRoot(c, kc, db, pw);
    KeyAtSoftChild(c, SeedFor(c, kc, db, pw).GetOr([]), ExternalPath, 0);
    match root.result
    case Err(e) => Out(Err(e), if e == MnemonicLength then WipeSeed(root.kc) else root.kc)
    case Ok(rootKey) =>
      match c.deriveSoftened(rootKey, 0)
      case None => Out(Err(Derivation), root.kc)
      case Some(child) =>
        var kc1 := root.kc.(unwiped := root.kc.unwiped - multiset{ExternalPath});
        if child.pub != fetchedHot then Out(Err(BitherIdNotMatch), WipeSeed(kc1))
        else Out(Ok(()), kc1)
  }

  /** The identity check failing on the way to the chain root leaves master
      and exactly the nodes below it derived before the throw. */
  lemma VerifyBitherIdFailureLedger(c: Suite, kc: Keychain, db: Db, pw: Password, fetchedHot: Bytes)
    requires VerifyBitherId(c, kc, db, pw, fetchedHot).result == Err(Derivation)
    requires ExternalChainRoot(c, kc, db, pw).result.Err?
    ensures SeedFor(c, kc, db, pw).Ok?
    ensures VerifyBitherId(c, kc, db, pw, fetchedHot).kc.unwiped ==
      kc.unwiped + multiset{MasterPath} + Reached(c, SeedFor(c, kc, db, pw).value)
  {
    var root := ExternalChainRoot(c, kc, db, pw);
    assert VerifyBitherId(c, kc, db, pw, fetchedHot) == Out(Err(Derivation), root.kc);
    ExternalChainRootFailureLedger(c, kc, db, pw);
  }

  /** The identity check's answer depends on the keychain only through its
      decrypted seed. */
  lemma VerifyBitherIdBySeed(c: Suite, kc: Keychain, kc': Keychain, db: Db, pw: Password, fetchedHot: Bytes)
    requires SeedFor(c, kc, db, pw) == SeedFor(c, kc', db, pw)
    ensures VerifyBitherId(c, kc, db, pw, fetchedHot).result == VerifyBitherId(c, kc', db, pw, fetchedHot).result
  { }

  /** The keychain object before the import constructor has done anything. */
  function Unassigned(seed: Bytes, isFromXRandom: bool): Keychain {
    Keychain(seed, [], 0, isFromXRandom, multiset{})
  }

  /** The import constructor. The supplied ciphertext is decrypted straight
      into `seed`; the remote records are fetched; when there are any, the
      identity check runs on that seed (hdSeedId is still 0, so decryptSeed
      does not re-read storage). Only after the seed is wiped and every
      remote record has become an address are the ciphertext and the
      addresses persisted under a fresh seed identifier. */
  function Import(c: Suite, db: Db, encryptedSeed: Ciphertext, isFromXRandom: bool, pw: Password,
                  fetch: Password -> Option<seq<Pubs>>): (r: OutDb<()>)
    ensures c.decrypt(encryptedSeed, pw).None? ==> r.result == Err(KeyCrypter)
    ensures fetch(pw).None? && c.decrypt(encryptedSeed, pw).Some? ==> r.result == Err(RemoteFetch)
    ensures Zeroed(r.kc.seed)
    ensures r.kc.isFromXRandom == isFromXRandom
    ensures r.result.Err? ==> r.db == db && r.kc.hdSeedId == 0 && r.kc.addresses == []
    ensures r.result.Err? && r.result.error != Derivation ==> r.kc.unwiped == multiset{}
    ensures r.result == ImportVerdict(c, encryptedSeed, pw, fetch)
    ensures r.result.Ok? ==>
      && c.decrypt(encryptedSeed, pw).Some? && fetch(pw).Some?
      && |r.kc.addresses| == |fetch(pw).value|
      && (forall k :: 0 <= k < |r.kc.addresses| ==> r.kc.addresses[k] == HDMAddress(fetch(pw).value[k], false))
      && r.kc.hdSeedId == db.nextSeedId && r.kc.unwiped == multiset{}
      && Get(r.db, r.kc.hdSeedId).encryptedSeed == encryptedSeed
      && Get(r.db, r.kc.hdSeedId).fromXRandom == isFromXRandom
      && HDMAddressInUse(r.db, r.kc.hdSeedId) == r.kc.addresses
      && Get(r.db, r.kc.hdSeedId).pending == []
      && OthersUnchanged(db.(nextSeedId := db.nextSeedId + 1), r.db, r.kc.hdSeedId)
  {
    match c.decrypt(encryptedSeed, pw)
    case None => OutDb(Err(KeyCrypter), Unassigned([], isFromXRandom), db)
    case Some(s) =>
      var kc0 := Unassigned(s, isFromXRandom);
      match fetch(pw)
      case None => OutDb(Err(RemoteFetch), WipeSeed(kc0), db)
      case Some(pubs) =>
        if |pubs| == 0 then FinishImport(db, encryptedSeed, isFromXRandom, pubs, Out(Ok(()), kc0))
        else
          var checked := VerifyBitherId(c, kc0, db, pw, pubs[0].hot);
          assert SeedFor(c, kc0, db, pw) == Ok(s);
          assert checked.result == match KeyAt(c, s, ExternalPath + [Soft(0)])
            case Err(e) => Err(e)
            case Ok(child) => if child.pub == pubs[0].hot then Ok(()) else Err(BitherIdNotMatch);
          FinishImport(db, encryptedSeed, isFromXRandom, pubs, checked)
  }

  /** What the import constructor answers, stated without the keychain
      object: the ciphertext must decrypt and the fetch must answer; a
      non-empty remote list must start with the hot key of the reference
      child 0 of the external chain; and every remote record must carry its
      remote key. */
  function ImportVerdict(c: Suite, encryptedSeed: Ciphertext, pw: Password,
                         fetch: Password -> Option<seq<Pubs>>): (r: Result<(), Error>)
    ensures r.Ok? <==>
      && c.decrypt(encryptedSeed, pw).Some? && fetch(pw).Some?
      && (forall k :: 0 <= k < |fetch(pw).value| ==> fetch(pw).value[k].remote.Some?)
      && (|fetch(pw).value| == 0 ||
          (var e := KeyAt(c, c.decrypt(encryptedSeed, pw).value, ExternalPath + [Soft(0)]);
           e.Ok? && e.value.pub == fetch(pw).value[0].hot))
  {
    match c.decrypt(encryptedSeed, pw)
    case None => Err(KeyCrypter)
    case Some(s) =>
      match fetch(pw)
      case None => Err(RemoteFetch)
      case Some(pubs) =>
        var checked: Result<(), Error> :=
          if |pubs| == 0 then Ok(())
          else match KeyAt(c, s, ExternalPath + [Soft(0)])
            case Err(e) => Err(e)
            case Ok(child) => if child.pub == pubs[0].hot then Ok(()) else Err(BitherIdNotMatch);
        if checked.Err? then checked
        else if forall k :: 0 <= k < |pubs| ==> pubs[k].remote.Some? then Ok(())
        else Err(AddressBuild)
  }

  /** The import constructor once the identity check has answered: the seed
      is wiped whatever the answer; on success the records become addresses
      and are persisted with the ciphertext. */
  function FinishImport(db: Db, encryptedSeed: Ciphertext, isFromXRandom: bool, pubs: seq<Pubs>,
                        checked: Out<()>): (r: OutDb<()>)
    ensures checked.result.Err? ==> r.result == checked.result
    ensures checked.result.Ok? && (exists k :: 0 <= k < |pubs| && pubs[k].remote.None?) ==>
      r.result == Err(AddressBuild)
    ensures checked.result.Ok? && (forall k :: 0 <= k < |pubs| ==> pubs[k].remote.Some?) ==> r.result == Ok(())
    ensures r.result.Err? ==> r.db == db && r.kc == WipeSeed(checked.kc)
    ensures r.result.Ok? ==>
      && checked.result.Ok?
      && r.kc == WipeSeed(checked.kc).(hdSeedId := db.nextSeedId, addresses := r.kc.addresses)
      && |r.kc.addresses| == |pubs|
      && (forall k :: 0 <= k < |pubs| ==> r.kc.addresses[k] == HDMAddress(pubs[k], false))
      && Get(r.db, db.nextSeedId).encryptedSeed == encryptedSeed
      && Get(r.db, db.nextSeedId).fromXRandom == isFromXRandom
      && HDMAddressInUse(r.db, db.nextSeedId) == r.kc.addresses
      && Get(r.db, db.nextSeedId).pending == []
      && OthersUnchanged(db.(nextSeedId := db.nextSeedId + 1), r.db, db.nextSeedId)
  {
    match checked.result
    case Err(e) => OutDb(Err(e), WipeSeed(checked.kc), db)
    case Ok(_) =>
      var kc1 := WipeSeed(checked.kc);
      var built := BuildAddresses(pubs);
      if !built.complete then OutDb(Err(AddressBuild), kc1, db)
      else
        var (id, db1) := AddHDKey(db, encryptedSeed, isFromXRandom);
        OutDb(Ok(()), kc1.(hdSeedId := id, addresses := built.addresses),
             CompleteHDMAddresses(db1, id, built.addresses))
  }

  /** How the import ends depends on the identity check's answer, not on the
      keychain it hands back, as far as the answer and storage go. */
  lemma FinishImportByAnswer(db: Db, encryptedSeed: Ciphertext, isFromXRandom: bool, pubs: seq<Pubs>,
                             checked: Out<()>, checked': Out<()>)
    requires checked.result == checked'.result
    ensures var r := FinishImport(db, encryptedSeed, isFromXRandom, pubs, checked);
      var r' := FinishImport(db, encryptedSeed, isFromXRandom, pubs, checked');
      r.result == r'.result && r.db == r'.db
  { }
}
