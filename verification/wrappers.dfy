/** `Option` stands for a value that may be absent (a Java `null`, a
    derivation that throws); `Result` for an operation that either succeeds
    or raises one of the keychain's errors. */
module Wrappers {

  datatype Option<+T> = None | Some(value: T)

  datatype Result<+T, +E> = Ok(value: T) | Err(error: E) {
    function GetOr(default: T): T {
      if Ok? then value else default
    }
  }
}

/** The exceptions the keychain raises or lets through, one constructor per kind. */
module Errors {

  datatype Error =
    | KeyCrypter                 // the password does not decrypt the ciphertext
    | MnemonicLength             // the seed length cannot be turned into a mnemonic
    | Derivation                 // an HD child derivation threw
    | InvalidColdRoot            // the cold extended public key bytes do not parse
    | BitherIdNotMatch           // import: local child-0 key differs from the remote hot key
    | NotEnoughUncompleted(requested: int, available: int, seedId: int)
    | RemoteFetch                // the remote-fetch delegate threw
    | AddressBuild               // an HDM address could not be built from its Pubs
    | OutOfFuel                  // the prepare loop did not collect its records within its iteration bound
}
