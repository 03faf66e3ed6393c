# peanut-engine core, modelled in Dafny

peanut-engine is a small GitOps agent. It clones a Git repository, parses
the Kubernetes manifests under a configured path and hands them to the
gitops engine. It does this again on every resync tick, and it may prune
live resources that an earlier synchronisation applied. This project
models the parts of the agent that decide things:

- **The ownership ("GC") mark.** `PeanutRepository.ParseManifests` stamps
  `sha256.` plus the unpadded base64url (section 5 of RFC 4648) SHA-256
  digest of `RepoURL/Path` + `Group/Kind/Name` on every manifest it parses.
  The loop does not call it in this revision: its targets come from
  `GitConfig.parseManifests`, which returns no resources, so the loop
  applies no manifests. A live resource may be pruned only when its stored
  mark equals the mark of its own key. The model covers both copies of the computation
  (`GitConfig.getGCMark` and `PeanutRepository.GCMark`) and the
  annotation loop of `PeanutRepository.ParseManifests`. It also covers the
  cluster cache's `infoHandler` and the prune predicate.
- **The synchronisation loop** of `StartPeanutSync`:
  - which fetch errors count;
  - when the current commit moves;
  - which namespaces are watched;
  - which errors end the loop and which are only logged.

  The resync and done channels become a sequence of events. Each event
  carries the outcomes that git, the tree lookup, the parser and the engine
  deliver. A method runs the loop and is proved equal to a recursive
  specification `Run`, and the lemmas about the loop are stated about
  `Run`.
- **`PeanutRepository`.** Clone, Open, Sync and HeadHash are modelled by
  how go-git's outcomes become the repository's state, its results and its
  error strings.
- **The ring of recent synchronisations.** It is a class over an array of
  slots and a cursor. A ghost history of every entry ever added lets the
  proofs state which entries the ring keeps.
- **Summaries.** `makeSynchronisationResponse` and `makeSyncItem` render
  the latest entry. The Prometheus metrics set four gauges per Sync and
  count errors. The test mock accumulates instead.

SHA-256 is a parameter of type `seq<byte> -> Digest` (32 bytes), so every
property is proved for any such function. Go strings are Dafny strings.
`[]byte(s)` is modelled as UTF-8 encoding. `Hash.String()` is modelled as
lower-case hexadecimal.

Files (one module each):
- `wrappers.dfy`, `bytes.dfy`, `errors.dfy`, `strings.dfy` and `kube.dfy` hold the values the core works on.
- `sha256.dfy`, `base64url.dfy`, `hex.dfy` and `git.dfy` model the libraries the mark and the commit names need.
- `ownership.dfy` holds the mark as one definition.
- `engine_config.dfy`, `engine.dfy` and `engine_repository.dfy` follow `pkg/engine`.
- `recent.dfy` and `recent_router.dfy` follow `pkg/recent`.
- `metrics.dfy` and `metrics_mock.dfy` follow `pkg/metrics`.

## Model

| member | source | states |
|---|---|---|
| Bytes.OfString | pkg/engine/repository.go:154-155 | UTF-8 bytes of a string: at least one and at most four bytes per character |
| Bytes.OfStringConcat | pkg/engine/repository.go:154-155 | the bytes of a concatenation are the concatenation of the bytes, so two writes hash like one |
| Bytes.OfStringInjective | pkg/engine/config.go:36-37 | different strings have different bytes |
| Bytes.EncodeChar | pkg/engine/config.go:36-37 | one character becomes one to four UTF-8 bytes, a lead byte announcing the length and continuation bytes |
| Bytes.CharValueOfEncodeChar | pkg/engine/config.go:36-37 | decoding a character's bytes gives the character back |
| Bytes.EncodeCharPrefixFree | pkg/engine/config.go:36-37 | no character's encoding is a proper prefix of another's |
| Sha256.TwoWrites | pkg/engine/repository.go:153-156 | two writes then `Sum` is the digest of the concatenation |
| Base64Url.Char | pkg/engine/repository.go:156 | every sextet maps to a URL-safe alphabet character |
| Base64Url.Value | pkg/engine/repository.go:156 | a character has a value exactly when it is URL-safe, and that value maps back to it |
| Base64Url.ValueOfChar | pkg/engine/repository.go:156 | the alphabet is a bijection between sextets and characters |
| Base64Url.RegroupBytes | pkg/engine/repository.go:156 | three bytes split into four sextets and regrouped are the same three bytes |
| Base64Url.Encode | pkg/engine/repository.go:156 | raw (unpadded) output of length ⌈4n/3⌉ over `A-Z a-z 0-9 - _` |
| Base64Url.DecodeEncode | pkg/engine/repository.go:156 | decoding the encoding gives back the bytes (round trip) |
| Base64Url.EncodeInjective | pkg/engine/repository.go:156 | different digests encode to different text |
| Hex.Encode | pkg/engine/engine.go:89 | a commit name is two lower-case hex digits per byte |
| Hex.DecodeEncode | pkg/engine/engine.go:89 | decoding the hex name gives back the bytes |
| Hex.EncodeInjective | pkg/engine/engine.go:89 | different hashes have different names |
| Git.HashString | pkg/recent/synchronisations.go:25 | `Hash.String()` is 40 hex digits |
| Git.HashStringInjective | pkg/engine/engine.go:89 | two commits have the same name exactly when they are equal |
| Errors.UpToDate | pkg/engine/repository.go:104 | the "already up-to-date" result, whose text is go-git's sentinel message; it is the only error `Sync` passes on unwrapped |
| Errors.Wrap | pkg/engine/repository.go:57 | a wrapped error reads `context: cause` and is never the up-to-date sentinel |
| Strings.Join | pkg/engine/repository.go:155 | `strings.Join`: empty for no parts, and the result starts with the first part |
| Strings.JoinThree | pkg/engine/repository.go:155 | joining group, kind and name puts `/` between them |
| Kube.Annotation | pkg/engine/engine.go:109 | indexing the annotations gives the value, or "" for a missing key or nil map |
| Ownership.Preimage | pkg/engine/repository.go:154-155 | the hashed string is URL, `/`, path, group, `/`, kind, `/`, name and nothing else: its length is those five fields plus three separators |
| Ownership.Mark | pkg/engine/repository.go:152-157 | the mark is 50 characters: `sha256.` then 43 URL-safe characters |
| Ownership.MarkEqualIffDigestEqual | pkg/engine/repository.go:156 | two marks are equal exactly when the digests of their preimages are |
| Ownership.MarkIgnoresNamespace | pkg/engine/repository.go:155 | a resource's namespace never changes its mark |
| Ownership.ScopeChangesPreimage | pkg/engine/repository.go:154-155 | a different URL with the same path, or a different path with the same URL, gives different hashed bytes |
| Ownership.PathGroupCollision | pkg/engine/repository.go:154-155 | path `p` with group `g` and path `pg` with an empty group get the same mark |
| Ownership.UrlPathCollision | pkg/engine/repository.go:154 | URL `u/m` with path `p` and URL `u` with path `m/p` get the same mark |
| EngineConfig.GitConfig.GetGCMark | pkg/engine/config.go:34-39 | `getGCMark`: two hasher writes, then `sha256.` and the 43-character encoded digest |
| EngineConfig.GitConfig.ParseManifests | pkg/engine/config.go:41-84 | a parser error is passed on; otherwise the result has no resources and no error |
| EngineConfig.GetGCMarkIsMark | pkg/engine/config.go:34-39 | `getGCMark`'s two writes compute the ownership mark |
| EngineConfig.GetGCMarkShape | pkg/engine/config.go:38 | the mark is 50 characters, starts with `sha256.`, is URL-safe after it and holds no `=` |
| EngineConfig.GetGCMarkIgnoresBranchAndNamespace | pkg/engine/config.go:36-37 | neither the branch nor the namespace affects the mark |
| Engine.InfoHandler | pkg/engine/engine.go:107-114 | the cache keeps the mark annotation and caches the manifest exactly when it is non-empty |
| Engine.WatchedNamespaces | pkg/engine/engine.go:47-50 | namespaced mode watches exactly the configured namespace, otherwise no restriction |
| Engine.IsManaged | pkg/engine/engine.go:86-88 | the prune predicate holds only for a cached mark that is a 50-character `sha256.` mark, namely the key's own |
| Engine.UnmarkedIsNotManaged | pkg/engine/engine.go:86-88 | a live resource without the annotation is not cached and is never pruned |
| Engine.IsManagedIgnoresBranch | pkg/engine/engine.go:86-88 | the prune predicate does not depend on the branch |
| Engine.FetchRepository | pkg/engine/engine.go:136-145 | a fetch error other than up-to-date yields the zero hash and no error; otherwise the head lookup's result |
| Engine.NextSHA | pkg/engine/engine.go:72-77 | the commit moves to the fetched hash unless that is the zero hash, and becomes zero only if it was |
| Engine.Step | pkg/engine/engine.go:66-99 | one resync or done event: it stops exactly on done, a head-lookup error, a tree error or a parse error, with that error; otherwise it calls the engine and continues from `NextSHA` of the current and the fetched commit |
| Engine.Run | pkg/engine/engine.go:64-104 | the loop over events: at most one engine call per event, and exactly one per event while still waiting |
| Engine.Start | pkg/engine/engine.go:35-44 | a clone error, or else a head-lookup error, is itself returned at once, before any engine call |
| Engine.StartPeanutSync | pkg/engine/engine.go:35-105 | the loop method returns and calls the engine exactly as the specification `Start`/`Run` says |
| Engine.RunFrom | pkg/engine/engine.go:64-104 | running from event i is that event's step followed by the run from i+1 |
| Engine.StepContinues | pkg/engine/engine.go:72-89 | a step that continues moves to `NextSHA` of the current and the fetched commit, and calls the engine with no targets, that commit's name, the namespace, the prune flag and the configured repository |
| Engine.RunSyncsFetchedCommit | pkg/engine/engine.go:72-89 | the i-th engine call names the commit the i-th event fetched, whenever that is not the zero hash |
| Engine.StopErrorNilOnlyOnDone | pkg/engine/engine.go:100-102 | the loop returns nil exactly when told it is done; every other stop carries an error |
| Engine.RunCallsUseConfig | pkg/engine/engine.go:82-89 | every engine call gets no targets, the configured namespace and prune flag, and the prune predicate of the configured repository |
| Engine.RunPrunesOnlyManaged | pkg/engine/engine.go:86-88 | the predicate every engine call receives holds exactly for the live resources `IsManaged` accepts |
| Engine.RunRevisionsNonZero | pkg/engine/engine.go:72-77 | from a real commit, the engine is never given the zero hash as revision |
| Engine.RunStopsAtFirstStop | pkg/engine/engine.go:68-85 | the loop returns the first stopping event's error after one call per earlier event |
| Engine.RunWaitsIffAllProceed | pkg/engine/engine.go:64-104 | the loop is still waiting exactly when every event so far proceeded |
| Engine.EngineOutcomeIgnored | pkg/engine/engine.go:90-93 | the engine's Sync result or error never changes the loop's course |
| EngineRepository.AnnotationsOf | pkg/engine/repository.go:136-139 | a nil annotation map reads as the empty map |
| EngineRepository.PeanutRepository.constructor | pkg/engine/repository.go:41-46 | the configuration is kept, the remote is "origin", there is no working copy |
| EngineRepository.PeanutRepository.Clone | pkg/engine/repository.go:49-61 | the path is always kept; on success the clone is kept, on failure the error is wrapped with URL and path |
| EngineRepository.PeanutRepository.Open | pkg/engine/repository.go:65-73 | the path is always kept; on success the copy is kept, on failure the error is wrapped with the path |
| EngineRepository.PeanutRepository.HeadHash | pkg/engine/repository.go:76-82 | the head's hash, or the zero hash and the head error wrapped |
| EngineRepository.PeanutRepository.Sync | pkg/engine/repository.go:98-125 | every error comes with the zero hash; up-to-date results are returned raw and other fetch, worktree and pull failures wrapped; once those three succeed the result is `HeadHash`'s, so a head failure is wrapped too; success means all four succeeded, and it returns the head |
| EngineRepository.PeanutRepository.IsManaged | pkg/engine/repository.go:148-150 | holds only for a cached mark that is a 50-character `sha256.` mark, namely the key's own under this repository |
| EngineRepository.PeanutRepository.GCMark | pkg/engine/repository.go:152-157 | the two writes compute the ownership mark |
| EngineRepository.PeanutRepository.Stamp | pkg/engine/repository.go:136-142 | the key is kept, the mark annotation is the key's own mark, and every other annotation is as it was |
| EngineRepository.PeanutRepository.ParseManifests | pkg/engine/repository.go:129-146 | a parser error gives a nil slice and that error; otherwise one stamped output per parsed resource, in order |
| EngineRepository.GCMarkAgreesWithGetGCMark | pkg/engine/repository.go:152-157 | for one configuration and key, `GCMark` equals `getGCMark` |
| EngineRepository.IsManagedAgrees | pkg/engine/repository.go:148-150 | the repository's `IsManaged` and the loop's prune predicate agree |
| EngineRepository.StampIdempotent | pkg/engine/repository.go:136-142 | stamping an already stamped resource changes nothing |
| EngineRepository.StampedIsManaged | pkg/engine/repository.go:141 | a resource applied from a stamped manifest is cached and is managed by both predicates |
| Recent.Behind | pkg/recent/synchronisations.go:31 | stepping back j+1 slots from the cursor |
| Recent.Next | pkg/recent/synchronisations.go:26 | the cursor advances by one modulo the capacity |
| Recent.BehindCovers | pkg/recent/synchronisations.go:26 | every slot lies some number of steps behind the cursor |
| Recent.RecentSynchronisations.constructor | pkg/recent/synchronisations.go:14-16 | a ring of the given capacity, all slots empty |
| Recent.RecentSynchronisations.Add | pkg/recent/synchronisations.go:24-27 | only the slot under the cursor is written, with the commit's name, the error and the results, and the cursor advances; the newest-first order is kept |
| Recent.RecentSynchronisations.Latest | pkg/recent/synchronisations.go:30-32 | after at least one `Add`, the last entry added |
| Recent.RetainsLastEntries | pkg/recent/synchronisations.go:24-27 | the ring holds exactly the last min(capacity, adds) entries, each in the slot as far behind the cursor as it is old |
| RecentRouter.MakeSyncItem | pkg/recent/router.go:69-77 | name, namespace, group, kind, status and message are copied |
| RecentRouter.SyncItemDeterminedBy | pkg/recent/router.go:69-77 | two results render alike exactly when key, status and message agree |
| RecentRouter.MakeSyncItems | pkg/recent/router.go:43-47 | one item per result, in order, from an empty list |
| RecentRouter.MakeSynchronisationResponse | pkg/recent/router.go:37-50 | formatted times, the SHA and error text unchanged, one item per result; needs a non-nil error |
| RecentRouter.ErrorText | pkg/recent/router.go:42 | the error's text, or "" for nil |
| RecentRouter.MakeSynchronisationResponseNilSafe | pkg/recent/router.go:37-50 | as `makeSynchronisationResponse`, for every entry, with "" for a nil error |
| RecentRouter.SuccessfulSyncIsNotRenderable | pkg/recent/router.go:42 | the latest entry after a successful sync cannot be rendered as written |
| Metrics.Count | pkg/metrics/metrics.go:67-78 | the number of results with a status, never more than the results |
| Metrics.CountSnoc | pkg/metrics/metrics.go:68-77 | one more result adds one exactly when it has the status |
| Metrics.CountAppend | pkg/metrics/mock.go:22-35 | counting is additive over concatenation |
| Metrics.CountsBounded | pkg/metrics/metrics.go:66-78 | the four counts sum to at most the number of results |
| Metrics.OtherStatusIgnored | pkg/metrics/metrics.go:68-77 | a result with none of the four statuses counts for none of them |
| Metrics.PrometheusMetrics.constructor | pkg/metrics/metrics.go:20-62 | every gauge and the counter start at zero |
| Metrics.PrometheusMetrics.Record | pkg/metrics/metrics.go:65-83 | each gauge is set to the count of its status in these results; the error counter is unchanged |
| Metrics.PrometheusMetrics.CountError | pkg/metrics/metrics.go:86-88 | the error counter rises by one and no gauge changes |
| Metrics.RecordTwice | pkg/metrics/metrics.go:79-82 | recording the same results twice leaves the gauges of recording once |
| MetricsMock.MockMetrics.constructor | pkg/metrics/mock.go:17-19 | all four counters start at zero |
| MetricsMock.MockMetrics.Record | pkg/metrics/mock.go:22-35 | each counter rises by the count of its status |
| MetricsMock.RecordInTurn | pkg/metrics/mock.go:22-35 | recording `a` then `b` accumulates the counts of `a + b` |
| MetricsMock.RecordBounded | pkg/metrics/mock.go:23-34 | one `Record` raises the four counters together by at most the number of results |

## Left out

- Git transport is given as outcomes: cloning, opening, fetching, pulling, `Head()`, `Worktree()`, `CommitObject` and `Tree()`. Each becomes a parameter, and the working copy a handle naming its directory.
- The refspecs, the remote name and the branch reference that go-git is given. They only affect the transport.
- `treeForHash` in `pkg/engine/engine.go` appears only as the error it may return in the loop. The tree itself is not modelled.
- `PeanutRepository.TreeForHash` (pkg/engine/repository.go:85-95) is not modelled. The loop does not call it, and it only wraps go-git's commit and tree lookups.
- `cloneRepository` and `headHash` in `pkg/engine/engine.go` appear only as their outcomes, `cloned` and `head`.
- The compression function of SHA-256 is not modelled. It is a parameter, so no property relies on collision resistance.
- The cluster side is not modelled: the cluster cache, `createClusterCache`, the engine's `Run` and `Sync`, and `rest.Config`. The loop records each engine call with its targets, revision, namespace and prune flag, and with the repository configuration its prune predicate closes over (`EngineCall.MayPrune`). The context argument is not recorded.
- The process exit in `errors.CheckErrorWithCode` after engine start-up is not modelled.
- The ticker goroutine, the channels, logging and the table printed after each sync are not modelled: the loop reads a finite event sequence.
- The kustomize and manifest parsers and `pkg/engine/parser.go` are given as the result they return.
- `filepath.Join` of the working-copy path and the configured path is not modelled, since only the parser sees it.
- `EngineRepository.PeanutRepository.ParseManifests`: the source sets the annotations on the kustomize resource after converting it. The model returns the converted resource with the annotations set, as the repository's test expects. Whether the two share one map is not modelled.
- `EngineRepository.PeanutRepository.Sync`: `upToDate` is not part of this model's source files. It is taken to mean "is go-git's already-up-to-date sentinel".
- `Engine.FetchRepository` compares with the same sentinel, as the source does.
- `GetLatest`, `NewRouter`, the HTTP router, JSON encoding and the RFC 3339 formatter are left out. The formatter is a parameter.
- `pkg/cmd/root.go` (flag parsing and wiring) is left out, together with its calls that do not match the shown signatures.
- Prometheus registration (`MustRegister`) and the metric names are left out.
- `Metrics.PrometheusMetrics.Record`: the gauges are `float64` in the source and naturals here. Counts below 2^53 are exact in both.
- `Metrics.PrometheusMetrics.CountError`: the error counter is a `float64` Prometheus counter in the source and a natural here. Its rounding above 2^53 errors is not modelled.
- `MetricsMock.MockMetrics.Record`: the counters are `int64` in the source and unbounded integers here. Wrap-around after 2^63 - 1 results is not modelled.
- The ring has no lock in the source, so the model is sequential.
- `Recent.RecentSynchronisations.constructor` takes a capacity where `NewRecentSynchronisations` takes an existing ring. Slots the given ring already filled are not modelled.
- `time.Time` is an uninterpreted instant.
- `Recent.RecentSynchronisations.Latest` requires at least one prior `Add`. Before then the slot is nil and the type assertion at pkg/recent/synchronisations.go:31 panics, and `GetLatest` can reach it. The model cannot call it there and does not give a "no data yet" answer.
- `EngineRepository.PeanutRepository.HeadHash` and `EngineRepository.PeanutRepository.Sync` require a working copy. Before a successful `Clone` or `Open` the repository handle is nil, and the source panics on it.
- Dafny characters are Unicode scalar values, so only Go strings that are valid UTF-8 can be represented. `[]byte(s)` passes invalid bytes through unchanged, and that case is not modelled.
- `EngineRepository.PeanutRepository.ParseManifests` ranges over kustomize's resource map, whose iteration order Go leaves unspecified. "In order" means the order of the given `parsed` sequence, which stands for one such iteration.

## Findings

| source | as written | input that shows it | evidently intended | confidence | as-written member | corrected member |
|---|---|---|---|---|---|---|
| pkg/recent/router.go:42 | the response's error text is taken by calling `Error()` on the entry's error, which is nil for a successful sync | the latest entry after `Add` with a nil error, i.e. any successful synchronisation: the call dereferences nil and the handler panics | render a nil error as the empty string | not executed; high that it panics, medium that "" is the intended text | RecentRouter.MakeSynchronisationResponse, RecentRouter.SuccessfulSyncIsNotRenderable | RecentRouter.MakeSynchronisationResponseNilSafe |
