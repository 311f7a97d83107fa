/**
 Small vocabulary shared by the whole model: optional and failing results, hexadecimal digests, and
 the hash function that every proof treats as unknown.
 */
module Common {

  datatype Option<+T> = None | Some(value: T)

  datatype Result<+T, +E> = Ok(value: T) | Err(error: E)

  /** A SHA-256 hex digest. Of its characters only their number matters to the proofs. */
  predicate IsDigest(s: string) {
    |s| == 64
  }

  function Zeros(n: nat): (s: string)
    ensures |s| == n
  {
    if n == 0 then "" else Zeros(n - 1) + "0"
  }

  /** The fixed predecessor of the first journal and of the first batch: 64 zeros. */
  const GENESIS: string := Zeros(64)

  type Digest = s: string | IsDigest(s) witness Zeros(64)

  /** SHA-256 followed by `hexdigest`. Nothing is assumed of it beyond the shape of its result. */
  type Sha = string -> Digest

  /**
   No two different strings of `queries` have the same digest. Security claims are stated for the
   finite set of strings that the computations in question really hash: a violation is an explicit
   collision between two of them.
   */
  ghost predicate CollisionFree(sha: Sha, queries: set<string>) {
    forall x, y :: x in queries && y in queries && sha(x) == sha(y) ==> x == y
  }

  lemma SameDigest(sha: Sha, queries: set<string>, x: string, y: string)
    requires CollisionFree(sha, queries)
    requires x in queries && y in queries && sha(x) == sha(y)
    ensures x == y
  {
  }

  lemma CollisionFreeSubset(sha: Sha, small: set<string>, large: set<string>)
    requires CollisionFree(sha, large) && small <= large
    ensures CollisionFree(sha, small)
  {
  }

  function Abs(x: real): real {
    if x < 0.0 then -x else x
  }
}
