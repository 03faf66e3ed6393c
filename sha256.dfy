/**
 * SHA-256 (section 6.2 of FIPS 180-4) behind Go's `hash.Hash` interface.
 *
 * The compression function is not modelled: every member that hashes takes
 * the hash function as a parameter, so whatever is proved holds for any
 * function from byte strings to 32-byte digests.
 */
module Sha256 {
  import opened Bytes

  const DigestSize := 32

  type Digest = d: seq<byte> | |d| == DigestSize witness seq(32, _ => 0)

  type HashFunction = seq<byte> -> Digest

  /** The state of a hasher from `sha256.New()`: everything written to it so far. */
  datatype Hasher = Hasher(written: seq<byte>)
  {
    /** `h.Write(p)`: SHA-256 is a streaming hash, so writing appends. It never fails. */
    function Write(p: seq<byte>): Hasher
    {
      Hasher(written + p)
    }

    /** `h.Sum(nil)`: the digest of all the bytes written. */
    function Sum(sha: HashFunction): Digest
    {
      sha(written)
    }
  }

  function New(): (h: Hasher)
    ensures h.written == []
  {
    Hasher([])
  }

  /** Two writes followed by `Sum` hash the concatenation of what was written. */
  lemma TwoWrites(sha: HashFunction, a: seq<byte>, b: seq<byte>)
    ensures New().Write(a).Write(b).Sum(sha) == sha(a + b)
  {
    assert [] + a == a;
  }
}
