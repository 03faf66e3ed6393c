/**
 * `pkg/engine/engine.go`: the synchronisation loop and the small rules it
 * applies: which fetch errors count, when the current commit moves, which
 * namespaces are watched, what the cluster cache keeps per resource, and
 * which live resources the engine may prune.
 *
 * The `select` over the resync and done channels becomes a sequence of
 * events. Git, the tree lookup, the parser and the gitops engine are
 * represented by the outcomes they deliver, carried by each event.
 */
module Engine {
  import opened Wrappers
  import opened Errors
  import opened Git
  import opened Kube
  import opened Sha256
  import opened EngineConfig

  const AnnotationGCMark: string := "gitops-agent.argoproj.io/gc-mark"

  /** `resourceInfo`: what the cluster cache keeps for each live resource. */
  datatype ResourceInfo = ResourceInfo(gcMark: string)

  /** A live resource in the cluster cache (`*cache.Resource`), with the info `infoHandler` gave it. */
  datatype CachedResource = CachedResource(key: ResourceKey, info: ResourceInfo)

  datatype InfoResult = InfoResult(info: ResourceInfo, cacheManifest: bool)

  /** `infoHandler`: keep the resource's mark annotation and cache the manifest exactly when it has one. */
  function InfoHandler(un: Unstructured, isRoot: bool): (r: InfoResult)
    ensures r.info.gcMark == Annotation(un, AnnotationGCMark)
    ensures r.cacheManifest <==> r.info.gcMark != ""
  {
    var gcMark := Annotation(un, AnnotationGCMark);
    InfoResult(ResourceInfo(gcMark), gcMark != "")
  }

  /** The namespaces the cluster cache watches: the configured one in namespaced mode, all otherwise. */
  function WatchedNamespaces(cfg: PeanutConfig): (namespaces: seq<string>)
    ensures |namespaces| <= 1
    ensures namespaces != [] <==> cfg.namespaced
    ensures forall i :: 0 <= i < |namespaces| ==> namespaces[i] == cfg.namespace
  {
    if cfg.namespaced then [cfg.namespace] else []
  }

  /** The predicate given to the engine's Sync: may this live resource be pruned? */
  predicate IsManaged(cfg: PeanutConfig, sha: HashFunction, r: CachedResource)
    ensures IsManaged(cfg, sha, r) ==> |r.info.gcMark| == 50 && r.info.gcMark[..7] == "sha256."
  {
    r.info.gcMark == cfg.git.GetGCMark(sha, r.key)
  }

  /** A live resource without the mark annotation is never pruned. */
  lemma UnmarkedIsNotManaged(cfg: PeanutConfig, sha: HashFunction, un: Unstructured)
    requires Annotation(un, AnnotationGCMark) == ""
    ensures !InfoHandler(un, false).cacheManifest && !InfoHandler(un, true).cacheManifest
    ensures !IsManaged(cfg, sha, CachedResource(un.key, InfoHandler(un, false).info))
  {
    GetGCMarkShape(cfg.git, sha, un.key);
  }

  /** Two agents whose mark-relevant settings agree prune the same resources. */
  lemma IsManagedIgnoresBranch(cfg: PeanutConfig, branch: string, sha: HashFunction, r: CachedResource)
    ensures IsManaged(cfg.(git := cfg.git.(branch := branch)), sha, r) == IsManaged(cfg, sha, r)
  {
  }

  /**
   * `fetchRepository`: a fetch error other than "already up-to-date"
   * yields the zero hash and no error; no error, or "already up-to-date",
   * yields whatever `headHash` gives.
   */
  function FetchRepository(fetch: Option<Error>, head: HashResult): (r: HashResult)
    ensures fetch.Some? && fetch.value != AlreadyUpToDate ==> r == HashResult(ZeroHash, None)
    ensures fetch.None? || fetch.value == AlreadyUpToDate ==> r == head
  {
    if fetch.Some? && fetch.value != AlreadyUpToDate then HashResult(ZeroHash, None)
    else head
  }

  /** The current commit after a fetch: it moves to the fetched hash unless that is the zero hash. */
  function NextSHA(current: Hash, fetched: Hash): (next: Hash)
    ensures next == if fetched == ZeroHash then current else fetched
    ensures next == ZeroHash ==> current == ZeroHash
  {
    if fetched != current then
      if fetched != ZeroHash then fetched else current
    else current
  }

  /** One wake-up of the loop: a resync request with the outcomes it meets, or the done signal. */
  datatype Event =
    | Resync(
        fetch: Option<Error>,                         // what `r.Fetch` returned
        head: HashResult,                             // what `headHash` returned afterwards
        tree: Option<Error>,                          // the error `treeForHash` returned, if any
        parsed: Result<seq<Unstructured>, Error>,     // what the manifest parser returned
        synced: Result<seq<ResourceSyncResult>, Error>) // what the gitops engine's Sync returned
    | Done

  /**
   * One call of the gitops engine's Sync, with the arguments it received.
   * The prune predicate is the closure over `markConfig`: see `MayPrune`.
   */
  datatype EngineCall = EngineCall(targets: seq<Unstructured>, revision: string, namespace: string, prune: bool,
                                   markConfig: GitConfig)
  {
    /** The predicate handed to Sync: the live resource carries the mark of `markConfig` for its key. */
    predicate MayPrune(sha: HashFunction, r: CachedResource)
    {
      r.info.gcMark == markConfig.GetGCMark(sha, r.key)
    }
  }

  /** How the loop ended: returned with a possibly-nil error, or still waiting on the channels. */
  datatype Exit = Returned(err: Option<Error>) | Waiting

  datatype RunResult = RunResult(exit: Exit, calls: seq<EngineCall>)

  datatype StepResult = Stop(err: Option<Error>) | Continue(next: Hash, call: EngineCall)

  function TargetsOf(p: ParseResult): seq<Unstructured>
  {
    if p.resources.Some? then p.resources.value else []
  }

  /** What one event makes the loop do, from the current commit. */
  function Step(cfg: PeanutConfig, current: Hash, e: Event): (r: StepResult)
    ensures r.Stop? <==> !Proceeds(e)
    ensures r.Stop? ==> r.err == StopError(e)
    ensures r.Continue? ==> r.next == NextSHA(current, FetchRepository(e.fetch, e.head).hash)
  {
    match e
    case Done => Stop(None)
    case Resync(fetch, head, tree, parsed, _) =>
      var fetched := FetchRepository(fetch, head);
      if fetched.err.Some? then Stop(fetched.err)
      else
        var next := NextSHA(current, fetched.hash);
        if tree.Some? then Stop(tree)
        else
          var targets := cfg.git.ParseManifests(parsed);
          if targets.err.Some? then Stop(targets.err)
          else Continue(next, EngineCall(TargetsOf(targets), HashString(next), cfg.namespace, cfg.prune, cfg.git))
  }

  /** The loop over a sequence of events, from the current commit. */
  function Run(cfg: PeanutConfig, current: Hash, events: seq<Event>): (r: RunResult)
    ensures |r.calls| <= |events|
    ensures r.exit == Waiting ==> |r.calls| == |events|
    decreases |events|
  {
    if events == [] then RunResult(Waiting, [])
    else
      match Step(cfg, current, events[0])
      case Stop(err) => RunResult(Returned(err), [])
      case Continue(next, call) =>
        var rest := Run(cfg, next, events[1..]);
        RunResult(rest.exit, [call] + rest.calls)
  }

  /** Running from position `i` is taking that event's step, then running from `i + 1`. */
  lemma RunFrom(cfg: PeanutConfig, current: Hash, events: seq<Event>, i: nat)
    requires i < |events|
    ensures Step(cfg, current, events[i]).Stop? ==>
      Run(cfg, current, events[i..]) == RunResult(Returned(Step(cfg, current, events[i]).err), [])
    ensures Step(cfg, current, events[i]).Continue? ==>
      var step := Step(cfg, current, events[i]);
      var rest := Run(cfg, step.next, events[i + 1..]);
      Run(cfg, current, events[i..]) == RunResult(rest.exit, [step.call] + rest.calls)
  {
    assert events[i..][0] == events[i];
    assert events[i..][1..] == events[i + 1..];
  }

  lemma AppendAssociative(a: seq<EngineCall>, b: seq<EngineCall>, c: seq<EngineCall>)
    ensures a + (b + c) == a + b + c
  {
  }

  /** `StartPeanutSync`: clone, read the head commit, then loop; a clone or head error is returned at once. */
  function Start(cfg: PeanutConfig, cloned: Option<Error>, head: HashResult, events: seq<Event>): (r: RunResult)
    ensures cloned.Some? || head.err.Some? ==> r.calls == [] && r.exit.Returned? && r.exit.err.Some?
    ensures cloned.Some? ==> r.exit == Returned(cloned)
    ensures cloned.None? && head.err.Some? ==> r.exit == Returned(head.err)
    ensures |r.calls| <= |events|
  {
    if cloned.Some? then RunResult(Returned(cloned), [])
    else if head.err.Some? then RunResult(Returned(head.err), [])
    else Run(cfg, head.hash, events)
  }

  /**
   * `StartPeanutSync` after the cluster cache and the engine are set up.
   * `cloned` is the error from `cloneRepository`, `head` the result of the
   * first `headHash`.
   */
  method StartPeanutSync(cfg: PeanutConfig, cloned: Option<Error>, head: HashResult, events: seq<Event>)
    returns (exit: Exit, calls: seq<EngineCall>)
    ensures RunResult(exit, calls) == Start(cfg, cloned, head, events)
  {
    if cloned.Some? {
      return Returned(cloned), [];
    }
    if head.err.Some? {
      return Returned(head.err), [];
    }
    var currentSHA := head.hash;
    var namespaces := WatchedNamespaces(cfg);  // handed to the cluster cache
    calls := [];
    var i := 0;
    while i < |events|
      invariant 0 <= i <= |events|
      invariant Run(cfg, head.hash, events)
             == RunResult(Run(cfg, currentSHA, events[i..]).exit, calls + Run(cfg, currentSHA, events[i..]).calls)
    {
      RunFrom(cfg, currentSHA, events, i);
      ghost var from := currentSHA;
      match events[i]
      case Done =>
        return Returned(None), calls;
      case Resync(fetch, headNow, tree, parsed, synced) =>
        var fetched := FetchRepository(fetch, headNow);
        if fetched.err.Some? {
          return Returned(fetched.err), calls;
        }
        if fetched.hash != currentSHA {
          if fetched.hash != ZeroHash {
            currentSHA := fetched.hash;
          }
        }
        assert currentSHA == NextSHA(from, fetched.hash);
        if tree.Some? {
          return Returned(tree), calls;
        }
        var targets := cfg.git.ParseManifests(parsed);
        if targets.err.Some? {
          return Returned(targets.err), calls;
        }
        var call := EngineCall(TargetsOf(targets), HashString(currentSHA), cfg.namespace, cfg.prune, cfg.git);
        assert Step(cfg, from, events[i]) == Continue(currentSHA, call);
        ghost var rest := Run(cfg, currentSHA, events[i + 1..]);
        AppendAssociative(calls, [call], rest.calls);
        calls := calls + [call];
        // An error from the engine's Sync is only logged: the loop goes on.
        i := i + 1;
    }
    exit := Waiting;
  }

  /** Whether the loop goes on past this event: a resync whose fetch, tree lookup and parse all succeed. */
  predicate Proceeds(e: Event)
  {
    e.Resync? && FetchRepository(e.fetch, e.head).err.None? && e.tree.None? && e.parsed.Ok?
  }

  /** The error the loop returns when it stops at this event. */
  function StopError(e: Event): Option<Error>
  {
    match e
    case Done => None
    case Resync(fetch, head, tree, parsed, _) =>
      var fetched := FetchRepository(fetch, head);
      if fetched.err.Some? then fetched.err
      else if tree.Some? then tree
      else if parsed.Err? then Some(parsed.error)
      else None
  }

  /** A step that goes on moves to a commit that is zero only if the current one was, and calls the engine with it. */
  lemma StepContinues(cfg: PeanutConfig, current: Hash, e: Event)
    requires Step(cfg, current, e).Continue?
    ensures Step(cfg, current, e).next == ZeroHash ==> current == ZeroHash
    ensures Step(cfg, current, e).next == NextSHA(current, FetchRepository(e.fetch, e.head).hash)
    ensures Step(cfg, current, e).call
         == EngineCall([], HashString(Step(cfg, current, e).next), cfg.namespace, cfg.prune, cfg.git)
  {
  }

  /** The loop returns a nil error only when told it is done: every failure it stops at has an error. */
  lemma StopErrorNilOnlyOnDone(e: Event)
    requires !Proceeds(e)
    ensures StopError(e) == None <==> e.Done?
  {
  }

  /**
   * Every engine call gets no targets, the configured namespace, the
   * configured prune flag and the prune predicate of the configured repository.
   */
  lemma {:induction false} RunCallsUseConfig(cfg: PeanutConfig, current: Hash, events: seq<Event>)
    ensures forall c | c in Run(cfg, current, events).calls ::
      c.targets == [] && c.namespace == cfg.namespace && c.prune == cfg.prune && c.markConfig == cfg.git
    decreases |events|
  {
    if events != [] {
      match Step(cfg, current, events[0])
      case Stop(_) =>
      case Continue(next, _) =>
        StepContinues(cfg, current, events[0]);
        RunCallsUseConfig(cfg, next, events[1..]);
    }
  }

  /** Starting from a real commit, the engine is never asked to sync the zero hash. */
  lemma {:induction false} RunRevisionsNonZero(cfg: PeanutConfig, current: Hash, events: seq<Event>)
    requires current != ZeroHash
    ensures forall c | c in Run(cfg, current, events).calls :: c.revision != HashString(ZeroHash)
    decreases |events|
  {
    if events != [] {
      match Step(cfg, current, events[0])
      case Stop(_) =>
      case Continue(next, call) =>
        StepContinues(cfg, current, events[0]);
        HashStringInjective(next, ZeroHash);
        RunRevisionsNonZero(cfg, next, events[1..]);
    }
  }

  /**
   * The engine is asked to sync the commit each event fetched: the i-th call
   * names the hash the i-th event's fetch produced, whenever that is not the zero hash.
   */
  lemma {:induction false} RunSyncsFetchedCommit(cfg: PeanutConfig, current: Hash, events: seq<Event>, i: nat)
    requires i < |Run(cfg, current, events).calls|
    requires events[i].Resync? && FetchRepository(events[i].fetch, events[i].head).hash != ZeroHash
    ensures Run(cfg, current, events).calls[i].revision
         == HashString(FetchRepository(events[i].fetch, events[i].head).hash)
    decreases |events|
  {
    match Step(cfg, current, events[0])
    case Stop(_) =>
      assert false;
    case Continue(next, call) =>
      StepContinues(cfg, current, events[0]);
      if i > 0 {
        assert events[1..][i - 1] == events[i];
        RunSyncsFetchedCommit(cfg, next, events[1..], i - 1);
      }
  }

  /** The loop returns at the first event that does not proceed, with its error, after one call per earlier event. */
  lemma {:induction false} RunStopsAtFirstStop(cfg: PeanutConfig, current: Hash, events: seq<Event>, i: nat)
    requires i < |events| && !Proceeds(events[i])
    requires forall j :: 0 <= j < i ==> Proceeds(events[j])
    ensures Run(cfg, current, events).exit == Returned(StopError(events[i]))
    ensures |Run(cfg, current, events).calls| == i
    decreases i
  {
    if i > 0 {
      var next := Step(cfg, current, events[0]).next;
      forall j | 0 <= j < i - 1
        ensures Proceeds(events[1..][j])
      {
        assert events[1..][j] == events[j + 1];
      }
      RunStopsAtFirstStop(cfg, next, events[1..], i - 1);
    }
  }

  /** The loop is still waiting after the events exactly when every one of them proceeds. */
  lemma {:induction false} RunWaitsIffAllProceed(cfg: PeanutConfig, current: Hash, events: seq<Event>)
    ensures Run(cfg, current, events).exit == Waiting <==> forall j :: 0 <= j < |events| ==> Proceeds(events[j])
    decreases |events|
  {
    if events != [] {
      match Step(cfg, current, events[0])
      case Stop(_) =>
      case Continue(next, _) =>
        RunWaitsIffAllProceed(cfg, next, events[1..]);
        if forall j :: 0 <= j < |events[1..]| ==> Proceeds(events[1..][j]) {
          forall j | 0 <= j < |events|
            ensures Proceeds(events[j])
          {
            if j > 0 {
              assert events[j] == events[1..][j - 1];
            }
          }
        }
    }
  }

  /** An event with the engine's Sync outcome erased. */
  function Inputs(e: Event): Event
  {
    if e.Resync? then e.(synced := Ok([])) else e
  }

  /** What the engine's Sync returns, result or error, never changes the loop's course. */
  lemma {:induction false} EngineOutcomeIgnored(cfg: PeanutConfig, current: Hash, a: seq<Event>, b: seq<Event>)
    requires |a| == |b|
    requires forall j :: 0 <= j < |a| ==> Inputs(a[j]) == Inputs(b[j])
    ensures Run(cfg, current, a) == Run(cfg, current, b)
    decreases |a|
  {
    if a != [] {
      assert Inputs(a[0]) == Inputs(b[0]);
      assert Step(cfg, current, a[0]) == Step(cfg, current, b[0]);
      match Step(cfg, current, a[0])
      case Stop(_) =>
      case Continue(next, _) =>
        forall j | 0 <= j < |a| - 1
          ensures Inputs(a[1..][j]) == Inputs(b[1..][j])
        {
          assert a[1..][j] == a[j + 1] && b[1..][j] == b[j + 1];
        }
        EngineOutcomeIgnored(cfg, next, a[1..], b[1..]);
    }
  }

  /** Every call the loop makes may prune exactly the live resources that carry this agent's mark. */
  lemma {:induction false} RunPrunesOnlyManaged(cfg: PeanutConfig, current: Hash, events: seq<Event>,
                                                sha: HashFunction, r: CachedResource)
    ensures forall c | c in Run(cfg, current, events).calls :: c.MayPrune(sha, r) <==> IsManaged(cfg, sha, r)
  {
    RunCallsUseConfig(cfg, current, events);
  }
}
