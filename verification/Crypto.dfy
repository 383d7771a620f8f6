/** Ideal cryptography: a value is a term that records what it was made from, so
    equal terms have equal inputs and no term can be made without its inputs. */
module Crypto {
  import opened Prelude

  /** Hex text of SHA-256. */
  datatype Digest = Sha256(preimage: string)

  /** `hefesto::hash_for_lookup`: an e-mail address hashed under a tenant's key. */
  datatype Lookup = Lookup(email: string, key: string)

  /** Salted Argon2id. */
  datatype PasswordHash = Argon2(password: string, salt: nat)

  predicate VerifyPassword(password: string, hash: PasswordHash) {
    hash.password == password
  }

  /** `hefesto::encrypt` under a tenant's key. */
  datatype Sealed = Sealed(plain: string, key: string)

  function Open(box: Sealed, key: string): Option<string> {
    if box.key == key then Some(box.plain) else None
  }

  /** A PKCE challenge as a client may send it: the S256 transform of a verifier,
      or any text that is the transform of none. */
  datatype Challenge = S256(verifier: string) | Literal(text: string)
}
