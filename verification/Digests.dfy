/** File contents and their hashes. */
module Digests {

  type Content = string

  /** SHA-256 is taken to be injective: a digest is the value that remembers its preimage. */
  datatype Digest = Sha256(preimage: Content)
}
