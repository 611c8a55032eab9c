/** The bounded cache of event ids. Looking an id up does not touch its recency and
    only new ids are put, so the LRU cache is a first-in first-out window. */
module Dedup {
  import opened Wrappers

  /** The last `cap` of the ids accepted so far. */
  function Window(accepted: seq<string>, cap: nat): seq<string> {
    if |accepted| <= cap then accepted else accepted[|accepted| - cap..]
  }

  function Accept(accepted: seq<string>, cap: nat, id: string): seq<string> {
    if id in Window(accepted, cap) then accepted else accepted + [id]
  }

  class DedupCache {
    const cap: nat
    /** Keys of the cache, least recently used first. */
    var entries: seq<string>
    ghost var accepted: seq<string>

    ghost predicate Valid()
      reads this
    {
      1 <= cap && entries == Window(accepted, cap)
    }

    constructor (capacity: nat)
      ensures Valid() && accepted == [] && cap == if capacity == 0 then 1 else capacity
    {
      cap := if capacity == 0 then 1 else capacity;
      entries, accepted := [], [];
    }

    /** True exactly when the id is not among the last `cap` accepted ones. */
    method Record(id: string) returns (isNew: bool)
      requires Valid()
      modifies this
      ensures Valid() && |entries| <= cap
      ensures isNew <==> id !in Window(old(accepted), cap)
      ensures accepted == Accept(old(accepted), cap, id)
    {
      if id in entries {
        return false;
      }
      if |entries| == cap {
        entries := entries[1..];
      }
      entries := entries + [id];
      accepted := accepted + [id];
      isNew := true;
    }
  }

  // ---- Whole call sequences ------------------------------------------------

  /** The ids accepted over a sequence of calls that starts with an empty cache. */
  function AcceptAll(cap: nat, ids: seq<string>): seq<string> {
    if ids == [] then [] else Accept(AcceptAll(cap, ids[..|ids| - 1]), cap, ids[|ids| - 1])
  }

  lemma AcceptLast(cap: nat, ids: seq<string>, id: string)
    ensures AcceptAll(cap, ids + [id]) == Accept(AcceptAll(cap, ids), cap, id)
  {
    assert (ids + [id])[..|ids|] == ids;
  }

  /** Equal acceptances have at least `cap` others between them. */
  predicate Separated(accepted: seq<string>, cap: nat) {
    forall i, j :: 0 <= i < j < |accepted| && accepted[i] == accepted[j] ==> cap < j - i
  }

  lemma AcceptSeparated(accepted: seq<string>, cap: nat, id: string)
    requires Separated(accepted, cap)
    ensures Separated(Accept(accepted, cap, id), cap)
  {
    var n, w := |accepted|, Window(accepted, cap);
    if id !in w {
      assert forall k :: n - |w| <= k < n ==> accepted[k] in w by {
        assert forall k :: n - |w| <= k < n ==> accepted[k] == w[k - (n - |w|)];
      }
    }
  }

  lemma {:induction false} AcceptAllSeparated(cap: nat, ids: seq<string>)
    ensures Separated(AcceptAll(cap, ids), cap)
    decreases |ids|
  {
    if ids != [] {
      var before := ids[..|ids| - 1];
      AcceptAllSeparated(cap, before);
      AcceptSeparated(AcceptAll(cap, before), cap, ids[|ids| - 1]);
    }
  }

  lemma {:induction false} DistinctFit(ids: seq<string>, among: set<string>)
    requires Distinct(ids) && forall id :: id in ids ==> id in among
    ensures |ids| <= |among|
    decreases |ids|
  {
    if ids != [] {
      var before, last := ids[..|ids| - 1], ids[|ids| - 1];
      forall id | id in before ensures id in among - {last} {
        assert id in ids;
      }
      DistinctFit(before, among - {last});
    }
  }

  /** While no more different ids than the cache holds have turned up, none is ever
      forgotten: an id is accepted exactly once, the first time it turns up. */
  lemma AcceptDistinct(accepted: seq<string>, cap: nat, id: string, among: set<string>)
    requires Distinct(accepted) && (forall x :: x in accepted ==> x in among)
    requires id in among && |among| <= cap
    ensures Distinct(Accept(accepted, cap, id))
    ensures forall x :: x in Accept(accepted, cap, id) <==> x in accepted || x == id
  {
    DistinctFit(accepted, among);
  }
}
