/** The part every national crawl shares: candidates taken one transaction at a time, and the counters. */
module CrawlLedger {
  import opened Wrappers
  import opened Sequences

  /** `handled` records, in order, the ids whose transaction committed; `enrichments` are the keys of
      the enrichment tasks of this synchronisation. */
  datatype Ledger =
    Ledger(candidates: seq<string>, cursor: nat, discovered: nat, processed: nat, created: nat, existing: nat,
           handled: seq<string>, enrichments: set<string>)

  const EMPTY := Ledger([], 0, 0, 0, 0, 0, [], {})

  /** One event of a listing; `day` numbers its calendar date. */
  datatype Listing = Listing(externalId: string, state: Option<string>, country: Option<string>, day: Option<int>)

  function Ids(events: seq<Listing>): (ids: seq<string>)
    ensures |ids| == |events| && forall i :: 0 <= i < |ids| ==> ids[i] == events[i].externalId
  {
    seq(|events|, i requires 0 <= i < |events| => events[i].externalId)
  }

  function Where(events: seq<Listing>, p: Listing -> bool): (kept: seq<Listing>)
    ensures forall e :: e in kept <==> e in events && p(e)
  {
    if events == [] then []
    else
      var last := events[|events| - 1];
      assert events == events[..|events| - 1] + [last];
      Where(events[..|events| - 1], p) + (if p(last) then [last] else [])
  }

  predicate Present(v: Option<string>) {
    v.Some? && v.value != ""
  }

  /** Ids in the order listed, without those already seen. */
  function Unseen(ids: seq<string>, seen: set<string>): (unseen: seq<string>)
    ensures forall id :: id in unseen <==> id in ids && id !in seen
  {
    if ids == [] then []
    else
      var last := ids[|ids| - 1];
      assert ids == ids[..|ids| - 1] + [last];
      Unseen(ids[..|ids| - 1], seen) + (if last in seen then [] else [last])
  }

  lemma {:induction false} UnseenDistinct(ids: seq<string>, seen: set<string>)
    requires Distinct(ids)
    ensures Distinct(Unseen(ids, seen))
  {
    if ids != [] {
      var n := |ids| - 1;
      UnseenDistinct(ids[..n], seen);
      assert ids[n] !in ids[..n];
    }
  }

  /** A discovered page offers its unseen ids. */
  function Offered(l: Ledger, ids: seq<string>): Ledger {
    l.(candidates := ids, discovered := l.discovered + |ids|)
  }

  predicate Waiting(l: Ledger) {
    l.cursor < |l.candidates|
  }

  /** One candidate's transaction: its edition is linked or created, and its enrichment enqueued once. */
  function Taken(l: Ledger, known: bool): Ledger
    requires Waiting(l)
  {
    l.(cursor := l.cursor + 1, processed := l.processed + 1,
       created := l.created + (if known then 0 else 1), existing := l.existing + (if known then 1 else 0),
       handled := l.handled + [l.candidates[l.cursor]], enrichments := l.enrichments + {l.candidates[l.cursor]})
  }

  function Cleared(l: Ledger): Ledger {
    l.(candidates := [], cursor := 0)
  }

  /** Every id seen so far was handled once or still waits; the counters say how many. */
  ghost predicate LedgerInv(l: Ledger, seen: set<string>) {
    && l.cursor <= |l.candidates|
    && l.discovered == l.processed + (|l.candidates| - l.cursor)
    && l.processed == l.created + l.existing && l.processed == |l.handled|
    && Distinct(l.handled + l.candidates[l.cursor..])
    && (forall id :: id in seen <==> id in l.handled || id in l.candidates[l.cursor..])
    && l.enrichments == Elements(l.handled)
  }

  lemma OfferedKeeps(l: Ledger, ids: seq<string>, seen: set<string>, more: set<string>)
    requires LedgerInv(l, seen) && l.candidates == [] && Distinct(ids)
    requires forall id :: id in ids <==> id in more && id !in seen
    requires seen <= more
    ensures LedgerInv(Offered(l, ids), more)
  {
    var offered := Offered(l, ids);
    assert l.candidates[l.cursor..] == [];
    assert l.handled + [] == l.handled;
    assert offered.candidates[offered.cursor..] == ids;
    var all := l.handled + ids;
    forall i, j | 0 <= i < j < |all|
      ensures all[i] != all[j]
    {
      if i < |l.handled| <= j {
        assert all[i] in l.handled && all[j] in ids;
      }
    }
  }

  lemma TakenKeeps(l: Ledger, known: bool, seen: set<string>)
    requires LedgerInv(l, seen) && Waiting(l)
    ensures LedgerInv(Taken(l, known), seen)
  {
    var t := Taken(l, known);
    assert l.candidates[l.cursor..] == [l.candidates[l.cursor]] + t.candidates[t.cursor..];
    assert t.handled + t.candidates[t.cursor..] == l.handled + l.candidates[l.cursor..];
  }

  lemma ClearedKeeps(l: Ledger, seen: set<string>)
    requires LedgerInv(l, seen) && !Waiting(l)
    ensures LedgerInv(Cleared(l), seen)
  {
    assert l.candidates[l.cursor..] == [] && Cleared(l).candidates[Cleared(l).cursor..] == [];
  }

  /** With nothing waiting, each id seen was handled exactly once and has its one enrichment task. */
  lemma NothingWaiting(l: Ledger, seen: set<string>)
    requires LedgerInv(l, seen) && !Waiting(l)
    ensures l.discovered == l.processed == |seen|
    ensures Distinct(l.handled) && Elements(l.handled) == seen && l.enrichments == seen
  {
    assert l.candidates[l.cursor..] == [];
    assert l.handled + [] == l.handled;
    DistinctCount(l.handled);
    assert Elements(l.handled) == seen;
  }

  lemma {:induction false} WhereDistinct(events: seq<Listing>, p: Listing -> bool)
    requires Distinct(Ids(events))
    ensures Distinct(Ids(Where(events, p)))
  {
    if events != [] {
      var n := |events| - 1;
      var rest, kept := Where(events[..n], p), Where(events, p);
      assert Ids(events[..n]) == Ids(events)[..n];
      WhereDistinct(events[..n], p);
      forall i, j | 0 <= i < j < |kept|
        ensures Ids(kept)[i] != Ids(kept)[j]
      {
        if j < |rest| {
          assert Ids(rest)[i] != Ids(rest)[j];
        } else {
          assert rest[i] in rest;
          var k :| 0 <= k < n && events[k] == rest[i];
          assert Ids(events)[k] != Ids(events)[n];
        }
      }
    }
  }

  lemma {:induction false} NothingUnseen(ids: seq<string>, seen: set<string>)
    requires forall id :: id in ids ==> id in seen
    ensures Unseen(ids, seen) == []
  {
    if ids != [] {
      assert ids[|ids| - 1] in ids;
      NothingUnseen(ids[..|ids| - 1], seen);
    }
  }

  lemma LedgerCounts(l: Ledger, seen: set<string>)
    requires LedgerInv(l, seen)
    ensures l.processed == l.created + l.existing == |l.handled|
  {
  }
}
