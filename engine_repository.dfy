/**
 * `pkg/engine/repository.go`: a Git working copy with the operations the
 * agent needs. Every go-git call is represented by the outcome it
 * delivers, given as a parameter; what is modelled is how those outcomes
 * become the repository's state, its results and its errors, and how
 * parsed resources get their ownership mark.
 */
module EngineRepository {
  import opened Wrappers
  import opened Bytes
  import opened Errors
  import opened Git
  import opened Kube
  import opened Sha256
  import opened EngineConfig
  import Base64Url
  import Strings
  import Ownership
  import Engine

  const DefaultRemoteName := "origin"

  /** A resource's annotations as a map: a nil map reads as the empty one. */
  function AnnotationsOf(u: Unstructured): (m: map<string, string>)
    ensures forall k :: Annotation(u, k) == (if k in m then m[k] else "")
  {
    if u.annotations.Some? then u.annotations.value else map[]
  }

  /** `PeanutRepository`. */
  class PeanutRepository {
    const config: GitConfig
    const remoteName: string
    var repo: Option<WorkingCopy>
    var repoPath: string

    /** `NewRepository`: no working copy yet, remote "origin". */
    constructor (cfg: GitConfig)
      ensures config == cfg && remoteName == DefaultRemoteName
      ensures repo == None && repoPath == ""
    {
      config := cfg;
      remoteName := DefaultRemoteName;
      repo := None;
      repoPath := "";
    }

    /** `Clone`: remember the path; keep the clone on success, wrap the error otherwise. */
    method Clone(path: string, cloneErr: Option<Error>) returns (err: Option<Error>)
      modifies this
      ensures repoPath == path
      ensures cloneErr.None? ==> repo == Some(WorkingCopy(path)) && err == None
      ensures cloneErr.Some? ==> repo == old(repo)
      ensures cloneErr.Some? ==>
        err == Some(Wrap("failed to clone " + config.repoURL + " to " + path, cloneErr.value))
    {
      repoPath := path;
      if cloneErr.Some? {
        return Some(Wrap("failed to clone " + config.repoURL + " to " + repoPath, cloneErr.value));
      }
      repo := Some(WorkingCopy(repoPath));
      return None;
    }

    /** `Open`: remember the path; keep the opened copy on success, wrap the error otherwise. */
    method Open(path: string, openErr: Option<Error>) returns (err: Option<Error>)
      modifies this
      ensures repoPath == path
      ensures openErr.None? ==> repo == Some(WorkingCopy(path)) && err == None
      ensures openErr.Some? ==> repo == old(repo)
      ensures openErr.Some? ==> err == Some(Wrap("failed to open " + path, openErr.value))
    {
      repoPath := path;
      if openErr.Some? {
        return Some(Wrap("failed to open " + repoPath, openErr.value));
      }
      repo := Some(WorkingCopy(repoPath));
      return None;
    }

    /** `HeadHash`, given what `repo.Head()` delivered: its hash, or the zero hash and a wrapped error. */
    function HeadHash(head: Result<Hash, Error>): (r: HashResult)
      reads this
      requires repo.Some?
      ensures r.err.None? <==> head.Ok?
      ensures head.Ok? ==> r.hash == head.value
      ensures head.Err? ==> r.hash == ZeroHash && r.err.value.Message()
                                == "failed to get the Head for the Repository: " + head.error.Message()
    {
      match head
      case Err(e) => HashResult(ZeroHash, Some(Wrap("failed to get the Head for the Repository", e)))
      case Ok(h) => HashResult(h, None)
    }

    /**
     * `Sync`, given what fetch, `Worktree()`, pull and `Head()` delivered.
     * An "already up-to-date" fetch or pull is returned as it is; any
     * other failure is wrapped; every failure comes with the zero hash.
     */
    function Sync(fetch: Option<Error>, worktree: Option<Error>, pull: Option<Error>,
                  head: Result<Hash, Error>): (r: HashResult)
      reads this
      requires repo.Some?
      ensures r.err.Some? ==> r.hash == ZeroHash
      ensures r.err.None? <==> fetch.None? && worktree.None? && pull.None? && head.Ok?
      ensures r.err.None? ==> r.hash == head.value
      ensures r.err == Some(AlreadyUpToDate)
          <==> fetch == Some(AlreadyUpToDate) || (fetch.None? && worktree.None? && pull == Some(AlreadyUpToDate))
      ensures fetch.Some? && !UpToDate(fetch.value) ==>
        r.err == Some(Wrap("failed to fetch from the Repository", fetch.value))
      ensures fetch.None? && worktree.Some? ==>
        r.err == Some(Wrap("failed to get a Worktree from the Repository", worktree.value))
      ensures fetch.None? && worktree.None? && pull.Some? && !UpToDate(pull.value) ==>
        r.err == Some(Wrap("failed to pull the Worktree", pull.value))
      ensures fetch.None? && worktree.None? && pull.None? ==> r == HeadHash(head)
    {
      if fetch.Some? then
        if !UpToDate(fetch.value) then HashResult(ZeroHash, Some(Wrap("failed to fetch from the Repository", fetch.value)))
        else HashResult(ZeroHash, fetch)
      else if worktree.Some? then
        HashResult(ZeroHash, Some(Wrap("failed to get a Worktree from the Repository", worktree.value)))
      else if pull.Some? then
        if !UpToDate(pull.value) then HashResult(ZeroHash, Some(Wrap("failed to pull the Worktree", pull.value)))
        else HashResult(ZeroHash, pull)
      else HeadHash(head)
    }

    /** `GCMark`: the two writes hash the URL-and-path scope, then the key's identity. */
    function GCMark(sha: HashFunction, key: ResourceKey): (mark: string)
      ensures mark == Ownership.Mark(sha, config.repoURL, config.path, key)
    {
      var first, second := config.repoURL + "/" + config.path, Strings.Join([key.group, key.kind, key.name], "/");
      Strings.JoinThree(key.group, key.kind, key.name, "/");
      OfStringConcat(first, second);
      Sha256.TwoWrites(sha, OfString(first), OfString(second));
      assert first + second == Ownership.Preimage(config.repoURL, config.path, key);
      var h := Sha256.New().Write(OfString(first)).Write(OfString(second));
      Ownership.Prefix + Base64Url.Encode(h.Sum(sha))
    }

    /** `IsManaged`: the live resource carries exactly this repository's mark for its key. */
    predicate IsManaged(sha: HashFunction, r: Engine.CachedResource)
      ensures IsManaged(sha, r) ==> |r.info.gcMark| == 50 && r.info.gcMark[..7] == "sha256."
    {
      r.info.gcMark == GCMark(sha, r.key)
    }

    /** What the annotation loop of `ParseManifests` makes of one parsed resource. */
    function Stamp(sha: HashFunction, v: Unstructured): (u: Unstructured)
      ensures u.key == v.key && u.annotations.Some?
      ensures Annotation(u, Engine.AnnotationGCMark) == GCMark(sha, v.key)
      ensures forall k :: k != Engine.AnnotationGCMark ==> Annotation(u, k) == Annotation(v, k)
      ensures u.annotations.value.Keys == AnnotationsOf(v).Keys + {Engine.AnnotationGCMark}
    {
      Unstructured(v.key, Some(AnnotationsOf(v)[Engine.AnnotationGCMark := GCMark(sha, v.key)]))
    }

    /**
     * `ParseManifests`, given what the kustomize parser returned for the
     * configured path: the resources in order, each stamped with its
     * mark, or no resources and the parser's error. The commit hash is
     * accepted and, as in the source, not used.
     */
    method ParseManifests(sha: HashFunction, h: Hash, parsed: Result<seq<Unstructured>, Error>)
      returns (m: Option<seq<Unstructured>>, err: Option<Error>)
      ensures parsed.Err? ==> m == None && err == Some(parsed.error)
      ensures parsed.Ok? ==> err == None && m.Some? && |m.value| == |parsed.value|
      ensures parsed.Ok? ==> forall i :: 0 <= i < |parsed.value| ==> m.value[i] == Stamp(sha, parsed.value[i])
    {
      if parsed.Err? {
        return None, Some(parsed.error);
      }
      var res := parsed.value;
      var out: seq<Unstructured> := [];
      for i := 0 to |res|
        invariant |out| == i
        invariant forall j :: 0 <= j < i ==> out[j] == Stamp(sha, res[j])
      {
        var v := res[i];
        var annotations: map<string, string>;
        if v.annotations.None? {
          annotations := map[];
        } else {
          annotations := v.annotations.value;
        }
        annotations := annotations[Engine.AnnotationGCMark := GCMark(sha, v.key)];
        out := out + [Unstructured(v.key, Some(annotations))];
      }
      return Some(out), None;
    }
  }

  /** For the same URL, path and key, `GCMark` and `getGCMark` give the same string. */
  lemma GCMarkAgreesWithGetGCMark(p: PeanutRepository, sha: HashFunction, key: ResourceKey)
    ensures p.GCMark(sha, key) == p.config.GetGCMark(sha, key)
  {
    GetGCMarkIsMark(p.config, sha, key);
  }

  /** The repository's pruning predicate and the engine loop's are the same when they share a configuration. */
  lemma IsManagedAgrees(p: PeanutRepository, cfg: PeanutConfig, sha: HashFunction, r: Engine.CachedResource)
    requires cfg.git == p.config
    ensures p.IsManaged(sha, r) <==> Engine.IsManaged(cfg, sha, r)
  {
    GCMarkAgreesWithGetGCMark(p, sha, r.key);
  }

  /** Stamping twice is stamping once. */
  lemma StampIdempotent(p: PeanutRepository, sha: HashFunction, v: Unstructured)
    ensures p.Stamp(sha, p.Stamp(sha, v)) == p.Stamp(sha, v)
  {
    var once := p.Stamp(sha, v);
    assert AnnotationsOf(once)[Engine.AnnotationGCMark := p.GCMark(sha, v.key)] == once.annotations.value;
  }

  /**
   * A resource applied from a stamped manifest is cached with its manifest
   * and is managed, both by the repository's predicate and by the engine's.
   */
  lemma StampedIsManaged(p: PeanutRepository, cfg: PeanutConfig, sha: HashFunction, v: Unstructured, isRoot: bool)
    requires cfg.git == p.config
    ensures Engine.InfoHandler(p.Stamp(sha, v), isRoot).cacheManifest
    ensures p.IsManaged(sha, Engine.CachedResource(v.key, Engine.InfoHandler(p.Stamp(sha, v), isRoot).info))
    ensures Engine.IsManaged(cfg, sha, Engine.CachedResource(v.key, Engine.InfoHandler(p.Stamp(sha, v), isRoot).info))
  {
    var r := Engine.CachedResource(v.key, Engine.InfoHandler(p.Stamp(sha, v), isRoot).info);
    IsManagedAgrees(p, cfg, sha, r);
  }
}
