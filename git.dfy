/** The parts of go-git that the core sees: commit hashes and working copies. */
module Git {
  import opened Wrappers
  import opened Bytes
  import opened Errors
  import Hex

  const HashSize := 20

  /** `plumbing.Hash`: a SHA-1 object name. */
  type Hash = h: seq<byte> | |h| == HashSize witness seq(20, _ => 0)

  /** `plumbing.ZeroHash`. */
  const ZeroHash: Hash := [0, 0, 0, 0, 0, 0, 0, 0, 0, 0, 0, 0, 0, 0, 0, 0, 0, 0, 0, 0]

  /** `Hash.String()`: 40 lower-case hexadecimal digits. */
  function HashString(h: Hash): (s: string)
    ensures |s| == 2 * HashSize
    ensures forall i :: 0 <= i < |s| ==> Hex.IsHexDigit(s[i])
  {
    Hex.Encode(h)
  }

  /** Distinct commits have distinct names. */
  lemma HashStringInjective(a: Hash, b: Hash)
    ensures HashString(a) == HashString(b) <==> a == b
  {
    if HashString(a) == HashString(b) {
      Hex.EncodeInjective(a, b);
    }
  }

  /** A Go `(plumbing.Hash, error)` pair. */
  datatype HashResult = HashResult(hash: Hash, err: Option<Error>)

  /** A `*git.Repository` handle: the working copy it was cloned into or opened at. */
  datatype WorkingCopy = WorkingCopy(dir: string)
}
