/** The persistence provider, as an abstract map from seed identifier to the
    encrypted seed and its pending and completed HDM records. The SQL tables
    behind it are not part of this model. */
module Storage {
  import opened Crypto
  import opened Address

  datatype SeedRecord = SeedRecord(
    encryptedSeed: Ciphertext,
    fromXRandom: bool,
    pending: seq<Pubs>,
    completed: seq<HDMAddress>)

  /** What an unknown seed identifier reads as: no ciphertext, no records. */
  const NoRecord := SeedRecord("", false, [], [])

  /** Seed identifiers are handed out from `nextSeedId` upwards, starting at 1. */
  datatype Db = Db(seeds: map<int, SeedRecord>, nextSeedId: int)

  predicate Valid(db: Db) {
    && db.nextSeedId >= 1
    && forall id :: id in db.seeds ==> 1 <= id < db.nextSeedId
  }

  function Get(db: Db, id: int): SeedRecord {
    if id in db.seeds then db.seeds[id] else NoRecord
  }

  /** Replace the record of `id`, leaving the map alone when nothing changes. */
  function Put(db: Db, id: int, rec: SeedRecord): (r: Db)
    ensures Get(r, id) == rec
    ensures forall other :: other != id ==> Get(r, other) == Get(db, other)
    ensures r.nextSeedId == db.nextSeedId
    ensures rec == Get(db, id) ==> r == db
  {
    if rec == Get(db, id) then db else db.(seeds := db.seeds[id := rec])
  }

  /** Records untouched outside `id`. */
  ghost predicate OthersUnchanged(db: Db, db': Db, id: int) {
    && db'.nextSeedId == db.nextSeedId
    && forall other :: other != id ==> Get(db', other) == Get(db, other)
  }

  /** addHDKey: stores the ciphertext under a fresh identifier. */
  function AddHDKey(db: Db, encryptedSeed: Ciphertext, fromXRandom: bool): (r: (int, Db))
    ensures r.0 == db.nextSeedId && r.1.nextSeedId == db.nextSeedId + 1
    ensures Get(r.1, r.0) == SeedRecord(encryptedSeed, fromXRandom, [], [])
    ensures forall other :: other != r.0 ==> Get(r.1, other) == Get(db, other)
    ensures Valid(db) ==> Valid(r.1) && r.0 >= 1 && Get(db, r.0) == NoRecord
  {
    var id := db.nextSeedId;
    (id, Db(db.seeds[id := SeedRecord(encryptedSeed, fromXRandom, [], [])], id + 1))
  }

  function GetEncryptSeed(db: Db, id: int): Ciphertext {
    Get(db, id).encryptedSeed
  }

  function IsHDSeedFromXRandom(db: Db, id: int): bool {
    Get(db, id).fromXRandom
  }

  /** The "no record yet" answer of maxHDMAddressPubIndex, so that the first
      prepared index is 0. */
  const NoPubIndex: int := -1

  /** maxHDMAddressPubIndex: the largest index over the seed's pending and
      completed records. */
  function MaxHDMAddressPubIndex(db: Db, id: int): (r: int)
    ensures r >= NoPubIndex
    ensures forall k :: 0 <= k < |Get(db, id).pending| ==> Get(db, id).pending[k].index <= r
    ensures forall k :: 0 <= k < |Get(db, id).completed| ==> Get(db, id).completed[k].pubs.index <= r
    ensures || r == NoPubIndex
            || (exists k :: 0 <= k < |Get(db, id).pending| && Get(db, id).pending[k].index == r)
            || (exists k :: 0 <= k < |Get(db, id).completed| && Get(db, id).completed[k].pubs.index == r)
  {
    var rec := Get(db, id);
    MaxIndexFrom(MaxIndexFrom(NoPubIndex, rec.pending), PubsOf(rec.completed))
  }

  function UncompletedHDMAddressCount(db: Db, id: int): nat {
    |Get(db, id).pending|
  }

  /** getUncompletedHDMAddressPubs: the oldest `count` pending records (all of
      them when fewer exist, none for a negative count). */
  function GetUncompletedHDMAddressPubs(db: Db, id: int, count: int): (r: seq<Pubs>)
    ensures |r| == if count <= 0 then 0 else if count < |Get(db, id).pending| then count else |Get(db, id).pending|
    ensures r <= Get(db, id).pending
  {
    var pending := Get(db, id).pending;
    if count <= 0 then [] else if count < |pending| then pending[..count] else pending
  }

  /** prepareHDMAddresses: appends new pending records. */
  function PrepareHDMAddresses(db: Db, id: int, ps: seq<Pubs>): (r: Db)
    ensures Get(r, id) == Get(db, id).(pending := Get(db, id).pending + ps)
    ensures Get(r, id).pending[|Get(db, id).pending|..] == ps
    ensures OthersUnchanged(db, r, id)
    ensures ps == [] ==> r == db
  {
    var rec := Get(db, id);
    assert ps == [] ==> rec.pending + ps == rec.pending;
    assert (rec.pending + ps)[|rec.pending|..] == ps;
    Put(db, id, rec.(pending := rec.pending + ps))
  }

  /** The records of `ps`, in order, whose index is not in `done`. */
  function RemoveIndices(ps: seq<Pubs>, done: set<int>): (r: seq<Pubs>)
    ensures forall k :: 0 <= k < |r| ==> r[k] in ps && r[k].index !in done
    ensures forall k :: 0 <= k < |ps| && ps[k].index !in done ==> ps[k] in r
    ensures |r| <= |ps|
  {
    if |ps| == 0 then []
    else
      var rest := RemoveIndices(ps[1..], done);
      if ps[0].index in done then rest else [ps[0]] + rest
  }

  /** completeHDMAddresses: the given addresses become completed records and
      leave the pending list. */
  function CompleteHDMAddresses(db: Db, id: int, addrs: seq<HDMAddress>): (r: Db)
    ensures Get(r, id).completed == Get(db, id).completed + addrs
    ensures Get(r, id).encryptedSeed == Get(db, id).encryptedSeed
    ensures Get(r, id).fromXRandom == Get(db, id).fromXRandom
    ensures forall k :: 0 <= k < |Get(r, id).pending| ==>
      Get(r, id).pending[k] in Get(db, id).pending && Get(r, id).pending[k].index !in Indices(PubsOf(addrs))
    ensures forall k :: 0 <= k < |Get(db, id).pending| && Get(db, id).pending[k].index !in Indices(PubsOf(addrs)) ==>
      Get(db, id).pending[k] in Get(r, id).pending
    ensures OthersUnchanged(db, r, id)
  {
    var rec := Get(db, id);
    Put(db, id, rec.(pending := RemoveIndices(rec.pending, Indices(PubsOf(addrs))),
                     completed := rec.completed + addrs))
  }

  /** getHDMAddressInUse: the completed addresses of a seed. */
  function HDMAddressInUse(db: Db, id: int): seq<HDMAddress> {
    Get(db, id).completed
  }
}
