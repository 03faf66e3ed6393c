/**
 * `pkg/recent/synchronisations.go`: a fixed-capacity ring of the most
 * recent synchronisations. `container/ring` becomes an array of slots
 * and the index of the slot the ring currently points at; an empty slot
 * (a nil `Value`) is `None`.
 */
module Recent {
  import opened Wrappers
  import opened Errors
  import opened Git
  import opened Kube

  /** A `time.Time`, as an instant the model does not interpret. */
  datatype Time = Time(instant: int)

  /** `Synchronisation`: one sync run, with the commit as its hexadecimal name and a possibly-nil error. */
  datatype Synchronisation = Synchronisation(
    start: Time,
    end: Time,
    sha: string,
    error: Option<Error>,
    results: seq<ResourceSyncResult>)

  /** The slot `j + 1` steps before `cursor` in a ring of `n` slots. */
  function Behind(cursor: nat, n: nat, j: nat): (k: nat)
    requires cursor < n && j < n
    ensures k < n
    ensures k + j + 1 == cursor || k + j + 1 == cursor + n
  {
    if cursor >= j + 1 then cursor - (j + 1) else cursor + n - (j + 1)
  }

  /** The next slot, `ring.Next()`. */
  function Next(cursor: nat, n: nat): (k: nat)
    requires cursor < n
    ensures k < n && k == (cursor + 1) % n
  {
    if cursor + 1 == n then 0 else cursor + 1
  }

  /** One step further back from the next slot is the same as starting from the old one. */
  lemma BehindNext(cursor: nat, n: nat, j: nat)
    requires cursor < n && j + 1 < n
    ensures Behind(Next(cursor, n), n, j + 1) == Behind(cursor, n, j)
  {
  }

  /** The slot just behind the next one is the old cursor. */
  lemma BehindNextZero(cursor: nat, n: nat)
    requires cursor < n
    ensures Behind(Next(cursor, n), n, 0) == cursor
  {
  }

  /** Going back fewer than `n - 1` steps before the cursor never lands on it. */
  lemma BehindAvoidsCursor(cursor: nat, n: nat, j: nat)
    requires cursor < n && j + 1 < n
    ensures Behind(cursor, n, j) != cursor
  {
  }

  /** Every slot is some number of steps behind the cursor. */
  lemma BehindCovers(cursor: nat, n: nat, k: nat)
    requires cursor < n && k < n
    ensures Behind(cursor, n, Age(cursor, n, k)) == k
  {
  }

  /** How many steps behind the cursor slot `k` lies: 0 for the most recently written slot. */
  function Age(cursor: nat, n: nat, k: nat): (j: nat)
    requires cursor < n && k < n
    ensures j < n
  {
    if k < cursor then cursor - 1 - k else cursor + n - 1 - k
  }

  /** `RecentSynchronisations`. */
  class RecentSynchronisations {
    const slots: array<Option<Synchronisation>>
    var cursor: nat
    /** Every synchronisation added so far, oldest first. */
    ghost var history: seq<Synchronisation>

    /** Stepping back from the cursor visits the added entries newest first, then empty slots. */
    ghost predicate Valid()
      reads this, slots
    {
      0 < slots.Length && cursor < slots.Length &&
      forall j :: 0 <= j < slots.Length ==>
        slots[Behind(cursor, slots.Length, j)]
          == if j < |history| then Some(history[|history| - 1 - j]) else None
    }

    /** `NewRecentSynchronisations(ring.New(capacity))`: all slots empty. */
    constructor (capacity: nat)
      requires capacity > 0
      ensures Valid() && fresh(slots)
      ensures slots.Length == capacity && history == []
    {
      slots := new Option<Synchronisation>[capacity](_ => None);
      cursor := 0;
      history := [];
    }

    /** `Add`: overwrite the slot under the cursor with the new entry and advance the cursor. */
    method Add(start: Time, end: Time, sha: Hash, syncErr: Option<Error>, results: seq<ResourceSyncResult>)
      requires Valid()
      modifies this, slots
      ensures Valid()
      ensures history == old(history) + [Synchronisation(start, end, HashString(sha), syncErr, results)]
      ensures slots[old(cursor)] == Some(Synchronisation(start, end, HashString(sha), syncErr, results))
      ensures forall k :: 0 <= k < slots.Length && k != old(cursor) ==> slots[k] == old(slots[k])
      ensures cursor == (old(cursor) + 1) % slots.Length
    {
      var entry := Synchronisation(start, end, HashString(sha), syncErr, results);
      slots[cursor] := Some(entry);
      ghost var was := cursor;
      cursor := Next(cursor, slots.Length);
      history := history + [entry];
      forall j | 0 <= j < slots.Length
        ensures slots[Behind(cursor, slots.Length, j)]
             == if j < |history| then Some(history[|history| - 1 - j]) else None
      {
        if j == 0 {
          BehindNextZero(was, slots.Length);
        } else {
          BehindNext(was, slots.Length, j - 1);
          BehindAvoidsCursor(was, slots.Length, j - 1);
        }
      }
    }

    /** `Latest`: the entry in the slot before the cursor, which is the last one added. */
    function Latest(): (s: Synchronisation)
      reads this, slots
      requires Valid() && |history| > 0
      ensures s == history[|history| - 1]
    {
      slots[Behind(cursor, slots.Length, 0)].value
    }
  }

  /**
   * The ring keeps exactly the last `min(capacity, adds)` entries: each
   * slot holds the entry added as many steps ago as it lies behind the
   * cursor, or nothing when fewer entries were added.
   */
  lemma RetainsLastEntries(r: RecentSynchronisations)
    requires r.Valid()
    ensures forall k :: 0 <= k < r.slots.Length ==>
      r.slots[k] == if Age(r.cursor, r.slots.Length, k) < |r.history|
                    then Some(r.history[|r.history| - 1 - Age(r.cursor, r.slots.Length, k)])
                    else None
    ensures (set k | 0 <= k < r.slots.Length && r.slots[k].Some? :: r.slots[k].value)
         == (set j | 0 <= j < |r.history| && |r.history| - j <= r.slots.Length :: r.history[j])
  {
    var n, h := r.slots.Length, r.history;
    forall k | 0 <= k < n
      ensures r.slots[k] == if Age(r.cursor, n, k) < |h| then Some(h[|h| - 1 - Age(r.cursor, n, k)]) else None
    {
      BehindCovers(r.cursor, n, k);
    }
    var held := set k | 0 <= k < n && r.slots[k].Some? :: r.slots[k].value;
    var last := set j | 0 <= j < |h| && |h| - j <= n :: h[j];
    forall x | x in last
      ensures x in held
    {
      var j :| 0 <= j < |h| && |h| - j <= n && x == h[j];
      var k := Behind(r.cursor, n, |h| - 1 - j);
      assert r.slots[k] == Some(h[j]);
    }
  }
}
