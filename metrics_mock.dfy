/** `pkg/metrics/mock.go`: a metrics sink for tests whose counters accumulate across calls. */
module MetricsMock {
  import opened Kube
  import opened Metrics

  /** `MockMetrics`. */
  class MockMetrics {
    var synced: int
    var syncFailed: int
    var pruned: int
    var pruneSkipped: int

    /** `NewMock`: all four counters at zero. */
    constructor ()
      ensures synced == 0 && syncFailed == 0 && pruned == 0 && pruneSkipped == 0
    {
      synced, syncFailed, pruned, pruneSkipped := 0, 0, 0, 0;
    }

    /** `Record`: raise each counter by the number of results with its status. */
    method Record(rs: seq<ResourceSyncResult>)
      modifies this
      ensures synced == old(synced) + Count(rs, ResultCodeSynced)
      ensures syncFailed == old(syncFailed) + Count(rs, ResultCodeSyncFailed)
      ensures pruned == old(pruned) + Count(rs, ResultCodePruned)
      ensures pruneSkipped == old(pruneSkipped) + Count(rs, ResultCodePruneSkipped)
    {
      for i := 0 to |rs|
        invariant synced == old(synced) + Count(rs[..i], ResultCodeSynced)
        invariant syncFailed == old(syncFailed) + Count(rs[..i], ResultCodeSyncFailed)
        invariant pruned == old(pruned) + Count(rs[..i], ResultCodePruned)
        invariant pruneSkipped == old(pruneSkipped) + Count(rs[..i], ResultCodePruneSkipped)
      {
        assert rs[..i + 1] == rs[..i] + [rs[i]];
        CountSnoc(rs[..i], rs[i], ResultCodeSynced);
        CountSnoc(rs[..i], rs[i], ResultCodeSyncFailed);
        CountSnoc(rs[..i], rs[i], ResultCodePruned);
        CountSnoc(rs[..i], rs[i], ResultCodePruneSkipped);
        var status := rs[i].status;
        if status == ResultCodeSynced {
          synced := synced + 1;
        } else if status == ResultCodeSyncFailed {
          syncFailed := syncFailed + 1;
        } else if status == ResultCodePruned {
          pruned := pruned + 1;
        } else if status == ResultCodePruneSkipped {
          pruneSkipped := pruneSkipped + 1;
        }
      }
      assert rs[..|rs|] == rs;
    }
  }

  /** Recording `a` and then `b` accumulates what recording `a + b` at once does. */
  method RecordInTurn(m: MockMetrics, a: seq<ResourceSyncResult>, b: seq<ResourceSyncResult>)
    modifies m
    ensures m.synced == old(m.synced) + Count(a + b, ResultCodeSynced)
    ensures m.syncFailed == old(m.syncFailed) + Count(a + b, ResultCodeSyncFailed)
    ensures m.pruned == old(m.pruned) + Count(a + b, ResultCodePruned)
    ensures m.pruneSkipped == old(m.pruneSkipped) + Count(a + b, ResultCodePruneSkipped)
  {
    m.Record(a);
    m.Record(b);
    CountAppend(a, b, ResultCodeSynced);
    CountAppend(a, b, ResultCodeSyncFailed);
    CountAppend(a, b, ResultCodePruned);
    CountAppend(a, b, ResultCodePruneSkipped);
  }

  /** One `Record` raises the four counters together by at most the number of results. */
  method RecordBounded(m: MockMetrics, rs: seq<ResourceSyncResult>)
    modifies m
    ensures old(m.synced) <= m.synced && old(m.syncFailed) <= m.syncFailed
    ensures old(m.pruned) <= m.pruned && old(m.pruneSkipped) <= m.pruneSkipped
    ensures (m.synced - old(m.synced)) + (m.syncFailed - old(m.syncFailed))
          + (m.pruned - old(m.pruned)) + (m.pruneSkipped - old(m.pruneSkipped)) <= |rs|
  {
    m.Record(rs);
    CountsBounded(rs);
  }
}
