/** Kubernetes and gitops-engine values that the core reads and writes. */
module Kube {
  import opened Wrappers

  /** `kube.ResourceKey`. */
  datatype ResourceKey = ResourceKey(group: string, kind: string, namespace: string, name: string)

  /**
   * A parsed manifest (`*unstructured.Unstructured`): its key, as
   * `kube.GetResourceKey` reads it, and its annotations, `None` when the
   * object has none (a nil map).
   */
  datatype Unstructured = Unstructured(key: ResourceKey, annotations: Option<map<string, string>>)

  /** `u.GetAnnotations()[k]`: indexing a Go map gives "" for a missing key, and so does a nil map. */
  function Annotation(u: Unstructured, k: string): (v: string)
    ensures u.annotations.Some? && k in u.annotations.value ==> v == u.annotations.value[k]
    ensures (u.annotations.None? || k !in u.annotations.value) ==> v == ""
  {
    match u.annotations
    case None => ""
    case Some(m) => if k in m then m[k] else ""
  }

  /** `common.ResultCode`: a string type, of which the engine defines four values. */
  type ResultCode = string

  const ResultCodeSynced: ResultCode := "Synced"
  const ResultCodeSyncFailed: ResultCode := "SyncFailed"
  const ResultCodePruned: ResultCode := "Pruned"
  const ResultCodePruneSkipped: ResultCode := "PruneSkipped"

  /** `common.ResourceSyncResult`: the outcome of synchronising one resource. */
  datatype ResourceSyncResult = ResourceSyncResult(
    resourceKey: ResourceKey,
    version: string,
    order: int,
    status: ResultCode,
    message: string,
    hookType: string,
    hookPhase: string,
    syncPhase: string)
}
