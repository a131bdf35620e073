/** The search for the editions linked to one edition, capped at a group of three. */
module GroupSearch {
  import opened Reachability
  import opened Sequences

  /** Event ids, numbered in their text order. */
  type EventId = nat

  /** Links that lead to an event of the snapshot. */
  function Within(linked: (EventId, EventId) -> bool, snapshot: seq<EventId>): (EventId, EventId) -> bool {
    (x: EventId, y: EventId) => linked(x, y) && y in snapshot
  }

  /** Everything reachable from the first event through links within the snapshot. */
  ghost function Component(linked: (EventId, EventId) -> bool, snapshot: seq<EventId>, first: EventId): set<EventId> {
    set y | y in [first] + snapshot && Reaches(Within(linked, snapshot), first, y)
  }

  lemma InComponent(linked: (EventId, EventId) -> bool, snapshot: seq<EventId>, first: EventId, ids: seq<EventId>)
    requires Distinct(ids)
    requires forall x :: x in ids ==> Reaches(Within(linked, snapshot), first, x) && (x == first || x in snapshot)
    ensures |ids| <= |Component(linked, snapshot, first)|
  {
    hide Reaches;
    DistinctCount(ids);
    var component := Component(linked, snapshot, first);
    assert Elements(ids) <= component;
    assert component == Elements(ids) + (component - Elements(ids));
  }

  /** At most four matches in id order, as the query's limit allows. */
  method FindMany(matches: EventId -> bool, snapshot: seq<EventId>, excluded: seq<EventId>) returns (found: seq<EventId>)
    requires Distinct(snapshot)
    ensures Distinct(found) && |found| <= 4
    ensures forall x :: x in found ==> x in snapshot && x !in excluded && matches(x)
    ensures |found| < 4 ==> forall x :: x in snapshot && x !in excluded && matches(x) ==> x in found
  {
    found := [];
    for n := 0 to |snapshot|
      invariant Distinct(found) && |found| < 4
      invariant forall x :: x in found ==> x in snapshot[..n] && x !in excluded && matches(x)
      invariant forall x :: x in snapshot[..n] && x !in excluded && matches(x) ==> x in found
    {
      assert snapshot[..n + 1] == snapshot[..n] + [snapshot[n]];
      assert snapshot[n] !in snapshot[..n];
      if snapshot[n] !in excluded && matches(snapshot[n]) {
        found := found + [snapshot[n]];
        if |found| == 4 {
          return;
        }
      }
    }
    assert snapshot[..|snapshot|] == snapshot;
  }

  method AddMatches(known: seq<EventId>, waiting: seq<EventId>, matches: seq<EventId>)
    returns (ids: seq<EventId>, pending: seq<EventId>)
    requires Distinct(known) && Distinct(matches) && forall i :: 0 <= i < |matches| ==> matches[i] !in known
    ensures ids == known + matches && pending == waiting + matches && Distinct(ids)
  {
    ids, pending := known, waiting;
    for n := 0 to |matches|
      invariant ids == known + matches[..n] && pending == waiting + matches[..n] && Distinct(ids)
    {
      assert matches[..n + 1] == matches[..n] + [matches[n]];
      if matches[n] !in ids {
        ids := ids + [matches[n]];
        pending := pending + [matches[n]];
      }
    }
    assert matches[..|matches|] == matches;
  }

  /** A group is ambiguous exactly when the linked component has more than three members; otherwise
      the group is the whole component. `weak` are generic resemblances of an event without links. */
  method GroupFor(linked: (EventId, EventId) -> bool, generic: (EventId, EventId) -> bool, snapshot: seq<EventId>, first: EventId)
    returns (ids: seq<EventId>, ambiguous: bool, weak: seq<EventId>)
    requires Distinct(snapshot)
    ensures Distinct(ids) && ids != [] && ids[0] == first
    ensures ambiguous <==> |Component(linked, snapshot, first)| > 3
    ensures !ambiguous ==> Elements(ids) == Component(linked, snapshot, first)
    ensures forall x :: x in ids ==> x in Component(linked, snapshot, first)
    ensures !ambiguous && |ids| == 1 ==>
              (weak != [] <==> exists x :: x in snapshot && x != first && generic(first, x))
    ensures |weak| <= 4 && forall x :: x in weak ==> x in snapshot && x != first && generic(first, x)
    ensures !ambiguous && |ids| == 1 && |weak| < 4 ==> forall x :: x in snapshot && x != first && generic(first, x) ==> x in weak
    ensures !ambiguous && |ids| > 1 ==> weak == []
  {
    hide Reaches;
    ghost var edge := Within(linked, snapshot);
    ids, weak, ambiguous := [first], [], false;
    var pending := [first];
    ReachesItself(edge, first);
    while pending != []
      invariant Distinct(ids) && |ids| <= 3 && ids != [] && ids[0] == first
      invariant forall x :: x in ids ==> Reaches(edge, first, x) && (x == first || x in snapshot)
      invariant forall x :: x in pending ==> x in ids
      invariant forall x, y :: x in ids && x !in pending && edge(x, y) ==> y in ids
      invariant |ids| == 1 && first !in pending ==> (weak != [] <==> exists x :: x in snapshot && x != first && generic(first, x))
      invariant |weak| <= 4 && forall x :: x in weak ==> x in snapshot && x != first && generic(first, x)
      invariant |ids| == 1 && first !in pending && |weak| < 4 ==> forall x :: x in snapshot && x != first && generic(first, x) ==> x in weak
      invariant |ids| > 1 || first in pending ==> weak == []
      invariant |ids| == 1 ==> pending == [] || pending == [first]
      decreases 3 - |ids|, |pending|
    {
      var event := pending[0];
      pending := pending[1..];
      ghost var before := ids;
      var matches := FindMany((y: EventId) => linked(event, y), snapshot, ids);
      ids, pending := AddMatches(ids, pending, matches);
      forall x | x in matches
        ensures Reaches(edge, first, x) && x in snapshot
      {
        assert edge(event, x);
        ReachesNext(edge, first, event, x);
      }
      assert forall x :: x in ids <==> x in before || x in matches;
      if |ids| > 3 {
        InComponent(linked, snapshot, first, ids);
        return ids, true, weak;
      }
      if |ids| == 1 {
        weak := FindMany((y: EventId) => generic(first, y), snapshot, [first]);
        if weak != [] {
          assert weak[0] in weak;
          assert weak[0] in snapshot && weak[0] != first && generic(first, weak[0]);
        }
      }
    }
    var component := Component(linked, snapshot, first);
    assert Closed(edge, Elements(ids));
    ClosedHoldsReachable(edge, Elements(ids), first);
    assert component == Elements(ids);
    DistinctCount(ids);
  }
}
