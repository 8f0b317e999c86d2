/** The cryptographic collaborators of the keychain, kept opaque.

    Encryption, BIP 39 mnemonic conversion, BIP 32 master-key creation and
    child derivation are foreign library calls. The model receives them as a
    `Suite` of total functions: each is deterministic (same inputs, same
    output) and otherwise unconstrained. A derivation that throws is `None`. */
module Crypto {
  import opened Wrappers
  import opened Errors

  type Byte = b: int | 0 <= b < 256
  type Bytes = seq<Byte>
  type Password = string
  type Ciphertext = string
  type Words = seq<string>

  /** An HD key node: public key bytes, an optional private component
      (absent on a public-only node) and the chain code. */
  datatype Key = Key(pub: Bytes, priv: Option<Bytes>, chainCode: Bytes)

  /** One step of a derivation path: hardened (index + 2^31 in BIP 32
      terms) or non-hardened ("softened"). */
  datatype ChildNumber = Hardened(n: int) | Soft(n: int)

  type Path = seq<ChildNumber>

  datatype Suite = Suite(
    decrypt: (Ciphertext, Password) -> Option<Bytes>,
    encrypt: (Bytes, Password) -> Ciphertext,
    toMnemonic: Bytes -> Option<Words>,
    toEntropy: Words -> Option<Bytes>,
    toSeed: (Words, string) -> Bytes,
    masterFromSeed: Bytes -> Key,
    deriveHardened: (Key, int) -> Option<Key>,
    deriveSoftened: (Key, int) -> Option<Key>,
    pubFromExtended: Bytes -> Option<Key>)

  /** The nodes on the way to the external chain root m/44'/0'/0'/0
      (section "Path levels" of BIP 44: purpose, coin type, account, change). */
  const MasterPath: Path := []
  const PurposePath: Path := [Hardened(44)]
  const CoinTypePath: Path := [Hardened(44), Hardened(0)]
  const AccountPath: Path := [Hardened(44), Hardened(0), Hardened(0)]
  const ExternalPath: Path := [Hardened(44), Hardened(0), Hardened(0), Soft(0)]

  /** BIP 39 mnemonics encode their entropy: the words of a byte string
      decode back to it (section "Generating the mnemonic"). */
  ghost predicate MnemonicRoundTrips(c: Suite) {
    forall s :: c.toMnemonic(s).Some? ==> c.toEntropy(c.toMnemonic(s).value) == Some(s)
  }

  /** A public-only copy of a node (clearPrivateKey). */
  function ClearPrivateKey(k: Key): (r: Key)
    ensures r.priv.None? && r.pub == k.pub && r.chainCode == k.chainCode
  {
    k.(priv := None)
  }

  function Step(c: Suite, k: Key, n: ChildNumber): Option<Key> {
    match n
    case Hardened(i) => c.deriveHardened(k, i)
    case Soft(i) => c.deriveSoftened(k, i)
  }

  /** Reference definition of walking a derivation path from a node, one
      child-key-derivation step per path element (BIP 32, section
      "Child key derivation (CKD) functions"). */
  function DerivePath(c: Suite, k: Key, path: Path): Option<Key>
    decreases |path|
  {
    if |path| == 0 then Some(k)
    else match Step(c, k, path[0])
      case None => None
      case Some(child) => DerivePath(c, child, path[1..])
  }

  /** Walking `p + q` is walking `p`, then walking `q` from where `p` ended. */
  lemma {:induction false} DerivePathAppend(c: Suite, k: Key, p: Path, q: Path)
    ensures DerivePath(c, k, p + q) ==
      (match DerivePath(c, k, p)
       case None => None
       case Some(mid) => DerivePath(c, mid, q))
    decreases |p|
  {
    if |p| == 0 {
      assert p + q == q;
    } else {
      assert (p + q)[0] == p[0];
      assert (p + q)[1..] == p[1..] + q;
      match Step(c, k, p[0])
      case None =>
      case Some(child) =>
        DerivePathAppend(c, child, p[1..], q);
    }
  }

  /** The master key a raw seed yields: the seed goes through its BIP 39
      mnemonic and back (with the empty passphrase) before BIP 32 master key
      generation. */
  function RootFromSeed(c: Suite, seed: Bytes): (r: Result<Key, Error>)
    ensures r.Err? <==> c.toMnemonic(seed).None?
    ensures r.Err? ==> r.error == MnemonicLength
  {
    match c.toMnemonic(seed)
    case None => Err(MnemonicLength)
    case Some(words) => Ok(c.masterFromSeed(c.toSeed(words, "")))
  }

  /** The key at `path` below the master key of `seed`. */
  function KeyAt(c: Suite, seed: Bytes, path: Path): (r: Result<Key, Error>)
    ensures r.Ok? <==> RootFromSeed(c, seed).Ok? && DerivePath(c, RootFromSeed(c, seed).value, path).Some?
    ensures r.Ok? ==> r.value == DerivePath(c, RootFromSeed(c, seed).value, path).value
    ensures r.Err? ==> r.error in {MnemonicLength, Derivation}
  {
    match RootFromSeed(c, seed)
    case Err(e) => Err(e)
    case Ok(master) =>
      match DerivePath(c, master, path)
      case None => Err(Derivation)
      case Some(k) => Ok(k)
  }

  /** Walking one more soft step from the key at `path` gives the key at
      `path + [Soft(i)]`. */
  lemma KeyAtSoftChild(c: Suite, seed: Bytes, path: Path, i: int)
    ensures KeyAt(c, seed, path + [Soft(i)]) ==
      (match KeyAt(c, seed, path)
       case Err(e) => Err(e)
       case Ok(parent) =>
         match c.deriveSoftened(parent, i)
         case None => Err(Derivation)
         case Some(k) => Ok(k))
  {
    if RootFromSeed(c, seed).Ok? {
      var master := RootFromSeed(c, seed).value;
      DerivePathAppend(c, master, path, [Soft(i)]);
      if KeyAt(c, seed, path).Ok? {
        var parent := KeyAt(c, seed, path).value;
        assert DerivePath(c, parent, [Soft(i)]) == c.deriveSoftened(parent, i) by {
          assert [Soft(i)][1..] == [];
        }
      }
    }
  }

  /** An all-zero buffer of length n (Utils.wipeBytes on an n-byte array). */
  function Zeros(n: nat): (r: Bytes)
    ensures |r| == n && Zeroed(r)
  {
    seq(n, _ => 0)
  }

  predicate Zeroed(s: Bytes) {
    forall i :: 0 <= i < |s| ==> s[i] == 0
  }
}
