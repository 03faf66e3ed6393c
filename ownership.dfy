/**
 * The ownership ("GC") mark that the agent stamps on every resource it
 * applies and compares before it prunes one.
 *
 * The mark is "sha256." followed by the unpadded base64url encoding of the
 * SHA-256 digest of the repository URL, "/", the path inside the
 * repository, and then group, kind and name joined by "/". This module
 * gives that definition in one expression; the two places in the engine
 * that compute it step by step are proved equal to it.
 */
module Ownership {
  import opened Bytes
  import opened Kube
  import opened Sha256
  import Base64Url

  const Prefix := "sha256."

  /** The string whose UTF-8 bytes are hashed. Nothing separates the path from the group. */
  function Preimage(repoURL: string, path: string, key: ResourceKey): (p: string)
    ensures |p| == |repoURL| + |path| + |key.group| + |key.kind| + |key.name| + 3
  {
    repoURL + "/" + path + key.group + "/" + key.kind + "/" + key.name
  }

  /** The mark of a resource from the given repository URL and path. */
  function Mark(sha: HashFunction, repoURL: string, path: string, key: ResourceKey): (mark: string)
    ensures |mark| == |Prefix| + 43 == 50
    ensures mark[..|Prefix|] == Prefix
    ensures forall i :: |Prefix| <= i < |mark| ==> Base64Url.IsUrlSafe(mark[i])
  {
    Prefix + Base64Url.Encode(sha(OfString(Preimage(repoURL, path, key))))
  }

  /** Two marks are equal exactly when the digests of their preimages are. */
  lemma MarkEqualIffDigestEqual(sha: HashFunction, url1: string, path1: string, key1: ResourceKey,
                                url2: string, path2: string, key2: ResourceKey)
    ensures Mark(sha, url1, path1, key1) == Mark(sha, url2, path2, key2)
        <==> sha(OfString(Preimage(url1, path1, key1))) == sha(OfString(Preimage(url2, path2, key2)))
  {
    var d1, d2 := sha(OfString(Preimage(url1, path1, key1))), sha(OfString(Preimage(url2, path2, key2)));
    if Mark(sha, url1, path1, key1) == Mark(sha, url2, path2, key2) {
      var m1, m2 := Prefix + Base64Url.Encode(d1), Prefix + Base64Url.Encode(d2);
      assert Base64Url.Encode(d1) == m1[|Prefix|..] == m2[|Prefix|..] == Base64Url.Encode(d2);
      Base64Url.EncodeInjective(d1, d2);
    }
  }

  /** The namespace of a resource plays no part in its mark. */
  lemma MarkIgnoresNamespace(sha: HashFunction, repoURL: string, path: string, key: ResourceKey, namespace: string)
    ensures Mark(sha, repoURL, path, key) == Mark(sha, repoURL, path, key.(namespace := namespace))
  {
  }

  /** The preimage regrouped: the scope (URL and path) followed by the identity. */
  lemma PreimageParts(repoURL: string, path: string, key: ResourceKey)
    ensures Preimage(repoURL, path, key) == repoURL + "/" + path + (key.group + "/" + key.kind + "/" + key.name)
  {
  }

  lemma CancelMiddle(x: string, y1: string, y2: string, z: string)
    requires x + y1 + z == x + y2 + z
    ensures y1 == y2
  {
    assert |y1| == |y2|;
    assert y1 == (x + y1 + z)[|x|..|x| + |y1|];
    assert y2 == (x + y2 + z)[|x|..|x| + |y2|];
  }

  lemma CancelRight(x1: string, x2: string, z: string)
    requires x1 + z == x2 + z
    ensures x1 == x2
  {
    assert |x1| == |x2|;
    assert x1 == (x1 + z)[..|x1|];
    assert x2 == (x2 + z)[..|x2|];
  }

  /**
   * With the identity fixed, a change of path alone, or of URL alone,
   * changes the bytes that are hashed; equal marks would then need two
   * different inputs with the same SHA-256 digest.
   */
  lemma ScopeChangesPreimage(url1: string, path1: string, url2: string, path2: string, key: ResourceKey)
    requires (url1 == url2 && path1 != path2) || (url1 != url2 && path1 == path2)
    ensures OfString(Preimage(url1, path1, key)) != OfString(Preimage(url2, path2, key))
  {
    var rest := key.group + "/" + key.kind + "/" + key.name;
    PreimageParts(url1, path1, key);
    PreimageParts(url2, path2, key);
    if OfString(Preimage(url1, path1, key)) == OfString(Preimage(url2, path2, key)) {
      OfStringInjective(Preimage(url1, path1, key), Preimage(url2, path2, key));
      if url1 == url2 {
        CancelMiddle(url1 + "/", path1, path2, rest);
      } else {
        assert url1 + "/" + path1 + rest == url1 + ("/" + path1 + rest);
        assert url2 + "/" + path2 + rest == url2 + ("/" + path2 + rest);
        CancelRight(url1, url2, "/" + path1 + rest);
      }
    }
  }

  /**
   * Because nothing separates the path from the group, moving a suffix of
   * the path into an empty group gives the same preimage and so the same
   * mark: path "p" with group "g" and path "pg" with the core group "" collide.
   */
  lemma PathGroupCollision(sha: HashFunction, repoURL: string, path: string, group: string, key: ResourceKey)
    ensures Preimage(repoURL, path + group, key.(group := "")) == Preimage(repoURL, path, key.(group := group))
    ensures Mark(sha, repoURL, path + group, key.(group := "")) == Mark(sha, repoURL, path, key.(group := group))
  {
    assert repoURL + "/" + (path + group) + "" == repoURL + "/" + path + group;
  }

  /** The "/" between URL and path is also ambiguous: URL "a/b" with path "c" and URL "a" with path "b/c" collide. */
  lemma UrlPathCollision(sha: HashFunction, url: string, middle: string, path: string, key: ResourceKey)
    ensures Mark(sha, url + "/" + middle, path, key) == Mark(sha, url, middle + "/" + path, key)
  {
    assert url + "/" + middle + "/" + path == url + "/" + (middle + "/" + path);
  }
}
