/** `pkg/engine/config.go`: the configuration records, `getGCMark` and the `parseManifests` stub. */
module EngineConfig {
  import opened Wrappers
  import opened Bytes
  import opened Errors
  import opened Kube
  import opened Sha256
  import Base64Url
  import Strings
  import Ownership

  /** The resources a parse produced (`None` for a nil slice) and its error (`None` for nil). */
  datatype ParseResult = ParseResult(resources: Option<seq<Unstructured>>, err: Option<Error>)

  /** `GitConfig`: where the manifests live. */
  datatype GitConfig = GitConfig(repoURL: string, branch: string, path: string)
  {
    /** `getGCMark`: two writes into a SHA-256 hasher, then the prefixed base64url digest. */
    function GetGCMark(sha: HashFunction, key: ResourceKey): (mark: string)
      ensures |mark| == |Ownership.Prefix| + 43 && mark[..|Ownership.Prefix|] == Ownership.Prefix
    {
      var h := Sha256.New()
        .Write(OfString(repoURL + "/" + path))                                 // fmt.Sprintf("%s/%s", RepoURL, Path)
        .Write(OfString(Strings.Join([key.group, key.kind, key.name], "/")));
      Ownership.Prefix + Base64Url.Encode(h.Sum(sha))
    }

    /**
     * `parseManifests`: the parser's outcome on `Path` inside the commit's
     * tree is the only input. Its error is passed on; its resources are
     * dropped, because this revision returns `nil, nil` after parsing.
     */
    function ParseManifests(parsed: Result<seq<Unstructured>, Error>): (r: ParseResult)
      ensures r.resources == None
      ensures parsed.Err? ==> r.err == Some(parsed.error)
      ensures parsed.Ok? ==> r.err == None
    {
      match parsed
      case Err(e) => ParseResult(None, Some(e))
      case Ok(_) => ParseResult(None, None)
    }
  }

  /** `PeanutConfig`: how the engine synchronises. `resync` is the ticker period. */
  datatype PeanutConfig = PeanutConfig(git: GitConfig, prune: bool, namespace: string, namespaced: bool, resync: nat)

  /** The two writes hash the concatenated preimage, so `getGCMark` is the ownership mark. */
  lemma GetGCMarkIsMark(g: GitConfig, sha: HashFunction, key: ResourceKey)
    ensures g.GetGCMark(sha, key) == Ownership.Mark(sha, g.repoURL, g.path, key)
  {
    var first, second := g.repoURL + "/" + g.path, Strings.Join([key.group, key.kind, key.name], "/");
    Strings.JoinThree(key.group, key.kind, key.name, "/");
    OfStringConcat(first, second);
    Sha256.TwoWrites(sha, OfString(first), OfString(second));
    assert first + second == Ownership.Preimage(g.repoURL, g.path, key);
  }

  /** The mark has the literal prefix, 43 URL-safe characters after it and no padding. */
  lemma GetGCMarkShape(g: GitConfig, sha: HashFunction, key: ResourceKey)
    ensures |g.GetGCMark(sha, key)| == 50
    ensures g.GetGCMark(sha, key)[..7] == "sha256."
    ensures forall i :: 7 <= i < 50 ==> Base64Url.IsUrlSafe(g.GetGCMark(sha, key)[i])
    ensures '=' !in g.GetGCMark(sha, key)
  {
    GetGCMarkIsMark(g, sha, key);
    var m := g.GetGCMark(sha, key);
    forall i | 0 <= i < |m|
      ensures m[i] != '='
    {
      if i < 7 {
        assert m[i] == m[..7][i];
      }
    }
  }

  /** Neither the branch nor the namespace of a resource influences the mark. */
  lemma GetGCMarkIgnoresBranchAndNamespace(g: GitConfig, branch: string, sha: HashFunction,
                                           key: ResourceKey, namespace: string)
    ensures g.(branch := branch).GetGCMark(sha, key.(namespace := namespace)) == g.GetGCMark(sha, key)
  {
  }
}
