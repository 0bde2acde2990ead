/** Stored bytes and the size and hash that the database records for them. */
module Content {

  type Bytes = seq<bv8>

  /** SHA-256, injective on the contents that occur. */
  datatype Digest = Sha256(of: Bytes)

  datatype Stamp = Stamp(size: nat, sha256: Digest)

  function StampOf(bytes: Bytes): Stamp {
    Stamp(|bytes|, Sha256(bytes))
  }
}
