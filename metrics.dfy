/**
 * `pkg/metrics/metrics.go`: the Prometheus metrics the agent keeps about
 * each engine Sync. The four gauges and the error counter become natural
 * numbers; the registry is not modelled.
 */
module Metrics {
  import opened Kube

  /** The number of results with the given status. */
  function Count(rs: seq<ResourceSyncResult>, code: ResultCode): (n: nat)
    ensures n <= |rs|
    decreases |rs|
  {
    if rs == [] then 0
    else Count(rs[..|rs| - 1], code) + (if rs[|rs| - 1].status == code then 1 else 0)
  }

  /** Counting one more result adds one exactly when it has the status. */
  lemma CountSnoc(rs: seq<ResourceSyncResult>, v: ResourceSyncResult, code: ResultCode)
    ensures Count(rs + [v], code) == Count(rs, code) + (if v.status == code then 1 else 0)
  {
    assert (rs + [v])[..|rs|] == rs;
  }

  /** Counting is additive over concatenation. */
  lemma {:induction false} CountAppend(a: seq<ResourceSyncResult>, b: seq<ResourceSyncResult>, code: ResultCode)
    ensures Count(a + b, code) == Count(a, code) + Count(b, code)
    decreases |b|
  {
    if b != [] {
      var init, last := b[..|b| - 1], b[|b| - 1];
      assert b == init + [last];
      assert a + b == (a + init) + [last];
      CountSnoc(a + init, last, code);
      CountSnoc(init, last, code);
      CountAppend(a, init, code);
    } else {
      assert a + b == a;
    }
  }

  /** Whether a status is one of the four the metrics count. */
  predicate Counted(code: ResultCode)
  {
    code == ResultCodeSynced || code == ResultCodeSyncFailed || code == ResultCodePruned || code == ResultCodePruneSkipped
  }

  /** The four counts together never exceed the number of results: each result has one status. */
  lemma {:induction false} CountsBounded(rs: seq<ResourceSyncResult>)
    ensures Count(rs, ResultCodeSynced) + Count(rs, ResultCodeSyncFailed)
          + Count(rs, ResultCodePruned) + Count(rs, ResultCodePruneSkipped) <= |rs|
    decreases |rs|
  {
    if rs != [] {
      var init, last := rs[..|rs| - 1], rs[|rs| - 1];
      assert rs == init + [last];
      CountSnoc(init, last, ResultCodeSynced);
      CountSnoc(init, last, ResultCodeSyncFailed);
      CountSnoc(init, last, ResultCodePruned);
      CountSnoc(init, last, ResultCodePruneSkipped);
      CountsBounded(init);
    }
  }

  /** A result whose status is none of the four leaves every count as it was. */
  lemma OtherStatusIgnored(rs: seq<ResourceSyncResult>, v: ResourceSyncResult, code: ResultCode)
    requires !Counted(v.status) && Counted(code)
    ensures Count(rs + [v], code) == Count(rs, code)
  {
    CountSnoc(rs, v, code);
  }

  /** `PrometheusMetrics`. */
  class PrometheusMetrics {
    var synced: nat
    var syncFailed: nat
    var pruned: nat
    var pruneSkipped: nat
    var errors: nat

    /** `New`, without the registry: every gauge and the counter start at zero. */
    constructor ()
      ensures synced == 0 && syncFailed == 0 && pruned == 0 && pruneSkipped == 0 && errors == 0
    {
      synced, syncFailed, pruned, pruneSkipped, errors := 0, 0, 0, 0, 0;
    }

    /** `Record`: count the four statuses, then set each gauge to its count; the error counter is untouched. */
    method Record(rs: seq<ResourceSyncResult>)
      modifies this
      ensures synced == Count(rs, ResultCodeSynced) && syncFailed == Count(rs, ResultCodeSyncFailed)
      ensures pruned == Count(rs, ResultCodePruned) && pruneSkipped == Count(rs, ResultCodePruneSkipped)
      ensures errors == old(errors)
    {
      var s, sf, p, ps := 0, 0, 0, 0;
      for i := 0 to |rs|
        invariant s == Count(rs[..i], ResultCodeSynced) && sf == Count(rs[..i], ResultCodeSyncFailed)
        invariant p == Count(rs[..i], ResultCodePruned) && ps == Count(rs[..i], ResultCodePruneSkipped)
        invariant errors == old(errors)
      {
        assert rs[..i + 1] == rs[..i] + [rs[i]];
        CountSnoc(rs[..i], rs[i], ResultCodeSynced);
        CountSnoc(rs[..i], rs[i], ResultCodeSyncFailed);
        CountSnoc(rs[..i], rs[i], ResultCodePruned);
        CountSnoc(rs[..i], rs[i], ResultCodePruneSkipped);
        var status := rs[i].status;
        if status == ResultCodeSynced {
          s := s + 1;
        } else if status == ResultCodeSyncFailed {
          sf := sf + 1;
        } else if status == ResultCodePruned {
          p := p + 1;
        } else if status == ResultCodePruneSkipped {
          ps := ps + 1;
        }
      }
      assert rs[..|rs|] == rs;
      synced, syncFailed, pruned, pruneSkipped := s, sf, p, ps;
    }

    /** `CountError`: one more error, no gauge touched. */
    method CountError()
      modifies this
      ensures errors == old(errors) + 1
      ensures synced == old(synced) && syncFailed == old(syncFailed)
      ensures pruned == old(pruned) && pruneSkipped == old(pruneSkipped)
    {
      errors := errors + 1;
    }
  }

  /** `Record` overwrites: recording the same results twice leaves the gauges of recording them once. */
  method RecordTwice(m: PrometheusMetrics, rs: seq<ResourceSyncResult>)
    modifies m
    ensures m.synced == Count(rs, ResultCodeSynced) && m.syncFailed == Count(rs, ResultCodeSyncFailed)
    ensures m.pruned == Count(rs, ResultCodePruned) && m.pruneSkipped == Count(rs, ResultCodePruneSkipped)
    ensures m.errors == old(m.errors)
  {
    m.Record(rs);
    m.Record(rs);
  }
}
