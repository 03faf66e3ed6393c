/**
 * `pkg/recent/router.go`: how the latest synchronisation is rendered for
 * the HTTP API. The JSON encoding and the router are not modelled; the
 * RFC 3339 time formatter is a parameter.
 */
module RecentRouter {
  import opened Wrappers
  import opened Errors
  import opened Kube
  import opened Recent

  /** `responseSyncItem`. */
  datatype ResponseSyncItem = ResponseSyncItem(
    name: string,
    namespace: string,
    group: string,
    kind: string,
    status: ResultCode,
    message: string)

  /** `responseSync`. */
  datatype ResponseSync = ResponseSync(
    start: string,
    end: string,
    sha: string,
    error: string,
    results: seq<ResponseSyncItem>)

  /** `makeSyncItem`: the key's four parts, the status and the message, copied. */
  function MakeSyncItem(v: ResourceSyncResult): (item: ResponseSyncItem)
    ensures item.name == v.resourceKey.name && item.namespace == v.resourceKey.namespace
    ensures item.group == v.resourceKey.group && item.kind == v.resourceKey.kind
    ensures item.status == v.status && item.message == v.message
  {
    ResponseSyncItem(v.resourceKey.name, v.resourceKey.namespace, v.resourceKey.group,
                     v.resourceKey.kind, v.status, v.message)
  }

  /** Two results render alike exactly when their keys, statuses and messages agree; nothing else shows. */
  lemma SyncItemDeterminedBy(a: ResourceSyncResult, b: ResourceSyncResult)
    ensures MakeSyncItem(a) == MakeSyncItem(b)
        <==> a.resourceKey == b.resourceKey && a.status == b.status && a.message == b.message
  {
  }

  /** The results loop of `makeSynchronisationResponse`: one item per result, in order, starting from an empty list. */
  method MakeSyncItems(results: seq<ResourceSyncResult>) returns (items: seq<ResponseSyncItem>)
    ensures |items| == |results|
    ensures forall i :: 0 <= i < |results| ==> items[i] == MakeSyncItem(results[i])
  {
    items := [];
    for i := 0 to |results|
      invariant |items| == i
      invariant forall j :: 0 <= j < i ==> items[j] == MakeSyncItem(results[j])
    {
      items := items + [MakeSyncItem(results[i])];
    }
  }

  /** Whether `makeSynchronisationResponse` as written can render this entry: it calls `Error()` on the error. */
  predicate Renderable(s: Synchronisation)
  {
    s.error.Some?
  }

  /**
   * `makeSynchronisationResponse` as written: the times formatted, the
   * commit and the error text passed on, one item per result. It needs a
   * non-nil error; on a nil one the source dereferences nil and panics.
   */
  method MakeSynchronisationResponse(format: Time -> string, s: Synchronisation) returns (r: ResponseSync)
    requires Renderable(s)
    ensures r.start == format(s.start) && r.end == format(s.end)
    ensures r.sha == s.sha && r.error == s.error.value.Message()
    ensures |r.results| == |s.results|
    ensures forall i :: 0 <= i < |s.results| ==> r.results[i] == MakeSyncItem(s.results[i])
  {
    var items := MakeSyncItems(s.results);
    r := ResponseSync(format(s.start), format(s.end), s.sha, s.error.value.Message(), items);
  }

  /** The error text with nil rendered as the empty string. */
  function ErrorText(e: Option<Error>): (text: string)
    ensures e.Some? ==> text == e.value.Message()
    ensures e.None? ==> text == ""
  {
    if e.Some? then e.value.Message() else ""
  }

  /** `makeSynchronisationResponse` corrected: every entry renders, a successful run with an empty error. */
  method MakeSynchronisationResponseNilSafe(format: Time -> string, s: Synchronisation) returns (r: ResponseSync)
    ensures r.start == format(s.start) && r.end == format(s.end)
    ensures r.sha == s.sha && r.error == ErrorText(s.error)
    ensures |r.results| == |s.results|
    ensures forall i :: 0 <= i < |s.results| ==> r.results[i] == MakeSyncItem(s.results[i])
  {
    var items := MakeSyncItems(s.results);
    r := ResponseSync(format(s.start), format(s.end), s.sha, ErrorText(s.error), items);
  }

  /**
   * The entry `Add` records for a successful sync has a nil error, so the
   * latest entry after a success cannot be rendered as written.
   */
  lemma SuccessfulSyncIsNotRenderable(r: RecentSynchronisations)
    requires r.Valid() && |r.history| > 0 && r.history[|r.history| - 1].error.None?
    ensures !Renderable(r.Latest())
  {
  }
}
