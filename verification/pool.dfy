// The model pool of enginepool/pool.go.
module Pool {
  // Registration, recency and pinning, and the admission loop that evicts until a model
  // fits. The clock and the memory readings are parameters.

  import opened Sorting
  import opened Wrappers

  // A loaded engine, and whether it has requests in flight.
  datatype Engine = Engine(active: bool)

  datatype Entry = Entry(modelPath: string, estimatedSize: int, lastAccess: real, pinned: bool, engine: Option<Engine>)

  type Entries = map<string, Entry>

  predicate Evictable(entries: Entries, id: string) {
    id in entries && entries[id].engine.Some? && !entries[id].pinned && !entries[id].engine.value.active
  }

  function LastAccess(entries: Entries, id: string): real {
    if id in entries then entries[id].lastAccess else 0.0
  }

  // By access time, ties by id.
  predicate Older(entries: Entries, a: string, b: string) {
    var x, y := LastAccess(entries, a), LastAccess(entries, b);
    if x != y then x < y else StringLess(a, b)
  }

  function OlderIn(entries: Entries): (string, string) -> bool {
    (a, b) => Older(entries, a, b)
  }

  lemma OlderIsTotal(entries: Entries)
    ensures IsTotal(OlderIn(entries))
  {
    forall a: string, b: string
      ensures Older(entries, a, b) ==> !Older(entries, b, a)
      ensures a != b ==> Older(entries, a, b) || Older(entries, b, a)
    {
      StringLessAsymmetric(a, b);
      StringLessConnected(a, b);
    }
    forall a: string, b: string, c: string
      ensures Older(entries, a, b) && Older(entries, b, c) ==> Older(entries, a, c)
    {
      StringLessTransitive(a, b, c);
    }
  }

  // The evictable models in registration order.
  function Candidates(entries: Entries, order: seq<string>): (cands: seq<string>)
    ensures forall id :: id in cands <==> id in order && Evictable(entries, id)
    decreases |order|
  {
    if order == [] then []
    else
      var id := order[|order| - 1];
      assert order == order[..|order| - 1] + [id];
      Candidates(entries, order[..|order| - 1]) + (if Evictable(entries, id) then [id] else [])
  }

  lemma {:induction false} CandidatesDistinct(entries: Entries, order: seq<string>)
    requires Distinct(order)
    ensures Distinct(Candidates(entries, order))
    decreases |order|
  {
    if order != [] {
      CandidatesDistinct(entries, order[..|order| - 1]);
    }
  }

  // The evictable models, least recently used first.
  function EvictionOrder(entries: Entries, order: seq<string>): (lru: seq<string>)
    ensures forall id :: id in lru <==> id in order && Evictable(entries, id)
  {
    Sort(OlderIn(entries), Candidates(entries, order))
  }

  lemma EvictionOrderSorted(entries: Entries, order: seq<string>)
    requires Distinct(order)
    ensures Sorted(OlderIn(entries), EvictionOrder(entries, order))
  {
    CandidatesDistinct(entries, order);
    OlderIsTotal(entries);
    SortSorts(OlderIn(entries), Candidates(entries, order));
  }

  function Unloaded(entries: Entries, id: string): (r: Entries)
    ensures r.Keys == entries.Keys
  {
    if id in entries then
      var r := entries[id := entries[id].(engine := None)];
      assert r.Keys == entries.Keys;
      r
    else entries
  }

  function UnloadedAll(entries: Entries, ids: seq<string>): (r: Entries)
    ensures r.Keys == entries.Keys
    decreases |ids|
  {
    if ids == [] then entries else Unloaded(UnloadedAll(entries, ids[..|ids| - 1]), ids[|ids| - 1])
  }

  lemma UnloadedNone(entries: Entries)
    ensures UnloadedAll(entries, []) == entries
  {
  }

  lemma UnloadedSnoc(entries: Entries, ids: seq<string>, id: string)
    ensures UnloadedAll(entries, ids + [id]) == Unloaded(UnloadedAll(entries, ids), id)
  {
    assert (ids + [id])[..|ids|] == ids;
  }

  // Evicting the least recently used model leaves the rest of the order.
  lemma UnloadFirst(entries: Entries, order: seq<string>)
    requires Distinct(order) && EvictionOrder(entries, order) != []
    ensures var lru := EvictionOrder(entries, order);
            EvictionOrder(Unloaded(entries, lru[0]), order) == lru[1..]
  {
    var lru := EvictionOrder(entries, order);
    var after := Unloaded(entries, lru[0]);
    EvictionOrderSorted(entries, order);
    EvictionOrderSorted(after, order);
    OlderIsTotal(entries);
    hide EvictionOrder, IsTotal;
    RestOf(OlderIn(entries), lru);
    assert lru[0] in lru;
    assert forall a, b :: Older(after, a, b) == Older(entries, a, b);
    var rest := EvictionOrder(after, order);
    assert Sorted(OlderIn(entries), rest) by {
      assert forall i, j :: 0 <= i < j < |rest| ==> OlderIn(after)(rest[i], rest[j]);
    }
    assert forall id :: Evictable(after, id) <==> Evictable(entries, id) && id != lru[0];
    SortedUnique(OlderIn(entries), rest, lru[1..]);
  }

  // ---------------------------------------------------------------------------
  // Admission

  datatype Admission =
    | Admitted
    | NotFound(available: seq<string>)
    | TooLarge(size: int, ceiling: int)
    | Insufficient(required: int, current: int)

  // The first reading, from the k-th to the n-th, under which the model fits; n + 1 if none.
  function FirstFit(readings: nat -> int, size: int, ceiling: int, k: nat, n: nat): (f: nat)
    requires k <= n + 1
    ensures k <= f <= n + 1
    ensures f <= n ==> readings(f) + size <= ceiling
    ensures forall r :: k <= r < f ==> readings(r) + size > ceiling
    decreases n + 1 - k
  {
    if k == n + 1 || readings(k) + size <= ceiling then k else FirstFit(readings, size, ceiling, k + 1, n)
  }

  lemma FitStep(readings: nat -> int, size: int, ceiling: int, k: nat, n: nat)
    requires k <= n
    ensures FirstFit(readings, size, ceiling, k, n)
         == if readings(k) + size <= ceiling then k else FirstFit(readings, size, ceiling, k + 1, n)
    ensures FirstFit(readings, size, ceiling, n + 1, n) == n + 1
  {
  }

  // What admitting a registered model under a positive ceiling must do.
  function Admitting(entries: Entries, order: seq<string>, size: int, ceiling: int, readings: nat -> int)
    : (r: (Admission, seq<string>))
  {
    var lru := EvictionOrder(entries, order);
    var f := FirstFit(readings, size, ceiling, 0, |lru|);
    if f <= |lru| then (Admitted, lru[..f])
    else (if size > ceiling then TooLarge(size, ceiling) else Insufficient(size, readings(|lru|)), lru)
  }

  class Pool {
    var entries: Entries
    var order: seq<string>

    constructor ()
      ensures Valid() && entries == map[] && order == []
    {
      entries, order := map[], [];
    }

    ghost predicate Valid()
      reads this
    {
      Distinct(order) && forall id :: id in order <==> id in entries
    }

    method Register(modelID: string, modelPath: string, estimatedSize: int, pinned: bool)
      requires Valid()
      modifies this
      ensures Valid()
      ensures order == if modelID in old(entries) then old(order) else old(order) + [modelID]
      ensures entries == old(entries)[modelID := Entry(modelPath, estimatedSize, 0.0, pinned, None)]
    {
      if modelID !in entries {
        order := order + [modelID];
      }
      entries := entries[modelID := Entry(modelPath, estimatedSize, 0.0, pinned, None)];
    }

    method MarkLoaded(modelID: string, eng: Engine, now: real)
      requires Valid()
      modifies this`entries
      ensures Valid()
      ensures entries == if modelID !in old(entries) then old(entries)
                         else old(entries)[modelID := old(entries)[modelID].(engine := Some(eng), lastAccess := now)]
    {
      if modelID in entries {
        entries := entries[modelID := entries[modelID].(engine := Some(eng), lastAccess := now)];
      }
    }

    method MarkUnloaded(modelID: string)
      requires Valid()
      modifies this`entries
      ensures Valid() && entries == Unloaded(old(entries), modelID)
    {
      if modelID in entries {
        entries := entries[modelID := entries[modelID].(engine := None)];
      }
    }

    method Touch(modelID: string, now: real)
      requires Valid()
      modifies this`entries
      ensures Valid() && entries == Touched(old(entries), modelID, now)
    {
      if modelID in entries {
        entries := entries[modelID := entries[modelID].(lastAccess := now)];
      }
    }

    method SetPinned(modelID: string, v: bool)
      requires Valid()
      modifies this`entries
      ensures Valid()
      ensures entries == if modelID !in old(entries) then old(entries)
                         else old(entries)[modelID := old(entries)[modelID].(pinned := v)]
    {
      if modelID in entries {
        entries := entries[modelID := entries[modelID].(pinned := v)];
      }
    }

    method FindLRUVictim() returns (victim: Option<string>)
      requires Valid()
      ensures var lru := EvictionOrder(entries, order);
              victim == if lru == [] then None else Some(lru[0])
    {
      hide Insert, Sort, Evictable;
      var cands: seq<string> := [];
      for i := 0 to |order|
        invariant cands == Candidates(entries, order[..i])
      {
        assert order[..i + 1][..i] == order[..i];
        if Evictable(entries, order[i]) {
          cands := cands + [order[i]];
        }
      }
      assert order[..|order|] == order;
      if |cands| == 0 {
        return None;
      }
      cands := Sort(OlderIn(entries), cands);
      return Some(cands[0]);
    }

    // The eviction in the loop of Admit, when there is a victim.
    method EvictVictim() returns (victim: Option<string>)
      requires Valid()
      modifies this`entries
      ensures Valid()
      ensures var lru := EvictionOrder(old(entries), order);
              if lru == [] then victim == None && entries == old(entries)
              else
                && victim == Some(lru[0]) && entries == Unloaded(old(entries), lru[0])
                && EvictionOrder(entries, order) == lru[1..]
    {
      hide EvictionOrder, Unloaded;
      victim := FindLRUVictim();
      if victim.Some? {
        UnloadFirst(entries, order);
        MarkUnloaded(victim.value);
      }
    }

    method Admit(modelID: string, ceiling: int, readings: nat -> int)
      returns (r: Admission, evicted: seq<string>)
      requires Valid()
      modifies this`entries
      ensures Valid() && entries == UnloadedAll(old(entries), evicted)
      ensures modelID !in old(entries) ==> r == NotFound(order) && evicted == []
      ensures modelID in old(entries) && ceiling <= 0 ==> r == Admitted && evicted == []
      ensures modelID in old(entries) && ceiling > 0 ==>
                (r, evicted) == Admitting(old(entries), order, old(entries)[modelID].estimatedSize, ceiling, readings)
    {
      hide EvictionOrder, Evictable, Unloaded, UnloadedAll, FirstFit;
      evicted := [];
      UnloadedNone(entries);
      if modelID !in entries {
        return NotFound(order), [];
      }
      var estimated := entries[modelID].estimatedSize;
      if ceiling <= 0 {
        return Admitted, [];
      }
      ghost var lru := EvictionOrder(entries, order);
      var k: nat := 0;
      while true
        invariant Valid() && k <= |lru| && evicted == lru[..k]
        invariant entries == UnloadedAll(old(entries), evicted)
        invariant EvictionOrder(entries, order) == lru[k..]
        invariant FirstFit(readings, estimated, ceiling, k, |lru|) == FirstFit(readings, estimated, ceiling, 0, |lru|)
        decreases |lru| - k
      {
        FitStep(readings, estimated, ceiling, k, |lru|);
        var current := readings(k);
        if current + estimated <= ceiling {
          return Admitted, evicted;
        }
        var victim := EvictVictim();
        if victim.Some? {
          UnloadedSnoc(old(entries), evicted, victim.value);
          evicted := evicted + [victim.value];
          k := k + 1;
          continue;
        }
        assert lru[..k] == lru;
        if estimated > ceiling {
          return TooLarge(estimated, ceiling), evicted;
        }
        return Insufficient(estimated, current), evicted;
      }
    }
  }

  // What evicting a list of models does: their engines are gone, and nothing else changes.
  lemma {:induction false} UnloadedAllIs(entries: Entries, ids: seq<string>, id: string)
    requires id in entries
    ensures UnloadedAll(entries, ids)[id] == if id in ids then entries[id].(engine := None) else entries[id]
    decreases |ids|
  {
    if ids != [] {
      var init, last := ids[..|ids| - 1], ids[|ids| - 1];
      assert ids == init + [last];
      UnloadedAllIs(entries, init, id);
    }
  }

  function Touched(entries: Entries, id: string, now: real): Entries {
    if id in entries then entries[id := entries[id].(lastAccess := now)] else entries
  }

  // ---------------------------------------------------------------------------
  // What admission promises

  // Only loaded, unpinned, idle models go; every evictable model that stays was used more
  // recently (or at the same time, under a later id) than every one that went.
  lemma EvictsOldestFirst(entries: Entries, order: seq<string>, size: int, ceiling: int, readings: nat -> int,
      gone: string, stays: string)
    requires Distinct(order) && gone in Admitting(entries, order, size, ceiling, readings).1
    ensures gone in order && gone in entries
    ensures entries[gone].engine.Some? && !entries[gone].engine.value.active && !entries[gone].pinned
    ensures && stays in order && stays in entries && stays !in Admitting(entries, order, size, ceiling, readings).1
            && entries[stays].engine.Some? && !entries[stays].engine.value.active && !entries[stays].pinned ==>
              || entries[gone].lastAccess < entries[stays].lastAccess
              || (entries[gone].lastAccess == entries[stays].lastAccess && StringBelow(gone, stays))
  {
    EvictionOrderSorted(entries, order);
    StringLessIff(gone, stays);
    hide EvictionOrder;
    var lru, evicted := EvictionOrder(entries, order), Admitting(entries, order, size, ceiling, readings).1;
    assert evicted <= lru;
    var a :| 0 <= a < |evicted| && evicted[a] == gone;
    assert lru[a] == gone;
    if stays in order && Evictable(entries, stays) && stays !in evicted {
      var m := |evicted|;
      assert lru == lru[..m] + lru[m..];
      var b: nat :| b < |lru[m..]| && lru[m..][b] == stays;
      assert OlderIn(entries)(lru[a], lru[m + b]);
    }
  }

  // No eviction is done in vain or too late: every reading before the last one was over the
  // ceiling, the last decides, and a failure means nothing evictable is left.
  lemma StopsAtTheFirstFit(entries: Entries, order: seq<string>, size: int, ceiling: int, readings: nat -> int)
    ensures var (r, evicted) := Admitting(entries, order, size, ceiling, readings);
            && (forall k :: 0 <= k < |evicted| ==> readings(k) + size > ceiling)
            && (r.Admitted? <==> readings(|evicted|) + size <= ceiling)
            && (!r.Admitted? ==>
                  forall id :: id in order && id in entries && id !in evicted ==>
                    entries[id].engine.None? || entries[id].engine.value.active || entries[id].pinned)
            && (!r.Admitted? ==>
                  r == if size > ceiling then TooLarge(size, ceiling) else Insufficient(size, readings(|evicted|)))
  {
    hide EvictionOrder;
  }

  // A model larger than the ceiling: with readings that are not negative it is never
  // admitted, and everything evictable is gone by the time the error is returned.
  lemma OversizeEvictsEverything(entries: Entries, order: seq<string>, size: int, ceiling: int, readings: nat -> int)
    requires size > ceiling && forall k :: readings(k) >= 0
    ensures Admitting(entries, order, size, ceiling, readings) == (TooLarge(size, ceiling), EvictionOrder(entries, order))
  {
    hide EvictionOrder;
  }

  // A touch at a time later than all others makes the model the last to go.
  lemma TouchedGoesLast(entries: Entries, order: seq<string>, id: string, now: real)
    requires Distinct(order) && id in order && Evictable(entries, id)
    requires forall other :: other in entries ==> entries[other].lastAccess < now
    ensures var lru := EvictionOrder(Touched(entries, id, now), order);
            lru != [] && lru[|lru| - 1] == id
  {
    var after := Touched(entries, id, now);
    EvictionOrderSorted(after, order);
    hide EvictionOrder;
    var lru := EvictionOrder(after, order);
    assert Evictable(after, id) && id in lru;
    var last := lru[|lru| - 1];
    var k :| 0 <= k < |lru| && lru[k] == id;
    assert last in lru && Evictable(after, last);
    if k < |lru| - 1 {
      assert OlderIn(after)(lru[k], last);
      assert last != id ==> LastAccess(after, last) < now;
    }
  }
}
