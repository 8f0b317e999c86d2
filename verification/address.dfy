/** HDM address records: the pending/complete `Pubs` triple and the finalized
    `HDMAddress` built from it. */
module Address {
  import opened Wrappers
  import opened Crypto

  /** Hot, cold and (once completed) remote public keys at one derivation index. */
  datatype Pubs = Pubs(hot: Bytes, cold: Bytes, remote: Option<Bytes>, index: int)

  /** A finalized HDM address. The back-reference to the owning keychain is
      left out: it only resolves the seed for signing. */
  datatype HDMAddress = HDMAddress(pubs: Pubs, isSyncComplete: bool) {
    function Index(): int {
      pubs.index
    }
  }

  /** `new HDMAddress(p, false, keychain)`: building the multisig address
      needs all three public keys, so a Pubs without its remote key fails. */
  function NewAddress(p: Pubs): (r: Option<HDMAddress>)
    ensures r.Some? <==> p.remote.Some?
    ensures r.Some? ==> r.value.pubs == p && !r.value.isSyncComplete
  {
    if p.remote.None? then None else Some(HDMAddress(p, false))
  }

  /** Addresses built before an exception, and whether the whole list was built. */
  datatype Built = Built(addresses: seq<HDMAddress>, complete: bool)

  /** The `for (Pubs p : pubs) as.add(new HDMAddress(p, ...))` loop: builds
      one address per record in order, stopping at the first record that
      cannot be built. */
  function BuildAddresses(ps: seq<Pubs>): (r: Built)
    ensures |r.addresses| <= |ps|
    ensures forall k :: 0 <= k < |r.addresses| ==> r.addresses[k] == HDMAddress(ps[k], false)
    ensures r.complete <==> |r.addresses| == |ps|
    ensures r.complete <==> forall k :: 0 <= k < |ps| ==> ps[k].remote.Some?
    ensures !r.complete ==> ps[|r.addresses|].remote.None?
  {
    if |ps| == 0 then Built([], true)
    else match NewAddress(ps[0])
      case None => Built([], false)
      case Some(a) =>
        var rest := BuildAddresses(ps[1..]);
        Built([a] + rest.addresses, rest.complete)
  }

  /** The indices a batch of records uses. */
  function Indices(ps: seq<Pubs>): set<int> {
    set k | 0 <= k < |ps| :: ps[k].index
  }

  /** The `Pubs` an address list was built from, in order. */
  function PubsOf(addrs: seq<HDMAddress>): (r: seq<Pubs>)
    ensures |r| == |addrs|
    ensures forall k :: 0 <= k < |addrs| ==> r[k] == addrs[k].pubs
  {
    seq(|addrs|, k requires 0 <= k < |addrs| => addrs[k].pubs)
  }

  /** The largest index in `ps`, or `floor` when that is larger (in
      particular when `ps` is empty). */
  function MaxIndexFrom(floor: int, ps: seq<Pubs>): (r: int)
    ensures r >= floor
    ensures forall k :: 0 <= k < |ps| ==> ps[k].index <= r
    ensures r == floor || exists k :: 0 <= k < |ps| && ps[k].index == r
  {
    if |ps| == 0 then floor
    else
      var m := MaxIndexFrom(floor, ps[..|ps| - 1]);
      var last := ps[|ps| - 1].index;
      assert forall k :: 0 <= k < |ps| - 1 ==> ps[..|ps| - 1][k] == ps[k];
      if last > m then last else m
  }
}
