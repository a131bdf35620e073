/** Groups of editions: who is linked to whom, and merging every member into the oldest. */
module EditionGroups {
  import opened Wrappers
  import opened Sequences
  import opened EditionCatalog
  import opened EditionMerging
  import opened Reachability
  import Evidence = EditionEvidence

  /** What two editions are judged by besides their own rows: `cross` is the one-directional source
      evidence, `ambiguous` says a further edition bears the same links, `busy` that a task runs. */
  datatype Judge =
    Judge(fold: string -> string, cross: (Catalog, Id, Id) -> Option<Evidence.Reason>,
          ambiguous: (Catalog, Id, Id) -> bool, busy: (Catalog, Id, Id) -> bool)

  ghost predicate Evident(j: Judge, c: Catalog, s: Id, t: Id) {
    j.cross(c, s, t).None? && j.cross(c, t, s).None? && !j.ambiguous(c, s, t)
  }

  /** Strong evidence in both directions between two members. */
  function StrongLinks(j: Judge, c: Catalog, rows: seq<Id>): (Id, Id) -> bool {
    (x: Id, y: Id) => x in rows && y in rows && x != y && j.cross(c, x, y).None? && j.cross(c, y, x).None?
  }

  lemma SubsetSize(a: set<Id>, b: set<Id>)
    requires a <= b
    ensures |a| <= |b|
    ensures |a| == |b| <==> a == b
  {
    assert b == a + (b - a);
  }

  /** One pass over all pairs: it only adds members, and adds none exactly when nothing is missing. */
  method OnePass(j: Judge, c: Catalog, rows: seq<Id>, before: set<Id>) returns (connected: set<Id>)
    requires rows != [] && rows[0] in before && forall id :: id in before ==> id in rows
    requires forall id :: id in before ==> Reaches(StrongLinks(j, c, rows), rows[0], id)
    ensures before <= connected && (forall id :: id in connected ==> id in rows)
    ensures forall id :: id in connected ==> Reaches(StrongLinks(j, c, rows), rows[0], id)
    ensures connected == before <==> Closed(StrongLinks(j, c, rows), before)
  {
    hide Reaches;
    ghost var edge := StrongLinks(j, c, rows);
    connected := before;
    for a := 0 to |rows|
      invariant before <= connected && forall id :: id in connected ==> id in rows && Reaches(edge, rows[0], id)
      invariant Closed(edge, before) ==> connected == before
      invariant connected == before ==>
                  forall x, y :: 0 <= x < a && 0 <= y < |rows| && rows[x] in before && edge(rows[x], rows[y]) ==> rows[y] in before
    {
      for b := 0 to |rows|
        invariant before <= connected && forall id :: id in connected ==> id in rows && Reaches(edge, rows[0], id)
        invariant Closed(edge, before) ==> connected == before
        invariant connected == before ==>
                    forall x, y :: 0 <= x < a && 0 <= y < |rows| && rows[x] in before && edge(rows[x], rows[y]) ==> rows[y] in before
        invariant connected == before ==>
                    forall y :: 0 <= y < b && rows[a] in before && edge(rows[a], rows[y]) ==> rows[y] in before
      {
        if rows[a] != rows[b] && rows[a] in connected
           && j.cross(c, rows[a], rows[b]).None? && j.cross(c, rows[b], rows[a]).None? {
          assert edge(rows[a], rows[b]);
          ReachesNext(edge, rows[0], rows[a], rows[b]);
          connected := connected + {rows[b]};
        }
      }
    }
  }

  /** The members strong evidence connects to the first. Each pass may only add members, so after as
      many passes as there are members no further pass could. */
  method ConnectedRows(j: Judge, c: Catalog, rows: seq<Id>) returns (connected: set<Id>)
    requires rows != [] && Distinct(rows)
    ensures forall id :: id in connected <==> Reaches(StrongLinks(j, c, rows), rows[0], id)
    ensures |connected| == |rows| <==> forall id :: id in rows ==> Reaches(StrongLinks(j, c, rows), rows[0], id)
  {
    hide Reaches;
    ghost var edge := StrongLinks(j, c, rows);
    ghost var all := Elements(rows);
    DistinctCount(rows);
    connected := {rows[0]};
    ReachesItself(edge, rows[0]);
    for pass := 0 to |rows|
      invariant rows[0] in connected && connected <= all
      invariant forall id :: id in connected ==> Reaches(edge, rows[0], id)
      invariant |connected| > pass || Closed(edge, connected)
    {
      ghost var before := connected;
      connected := OnePass(j, c, rows, connected);
      SubsetSize(before, connected);
    }
    SubsetSize(connected, all);
    ClosedHoldsReachable(edge, connected, rows[0]);
  }

  // --- Merging the members ------------------------------------------------------------------

  lemma {:induction false} MergeAllOneMore(fold: string -> string, c: Catalog, order: seq<Id>, t: Id, s: Id)
    requires MergeAll(fold, c, order, t).Some? && Compatible(fold, MergeAll(fold, c, order, t).value, s, t)
    ensures Mergeable(MergeAll(fold, c, order, t).value, s, t)
    ensures MergeAll(fold, c, order + [s], t) == Some(Merge(MergeAll(fold, c, order, t).value, s, t))
    decreases |order|
  {
    hide Compatible, Merge, Mergeable;
    CompatibleEditions(fold, MergeAll(fold, c, order, t).value, s, t);
    if order == [] {
      assert ([] + [s])[1..] == [];
    } else {
      CompatibleEditions(fold, c, order[0], t);
      MergeAllOneMore(fold, Merge(c, order[0], t), order[1..], t, s);
      assert (order + [s])[1..] == order[1..] + [s];
    }
  }

  /** Merging a group loses no source reference. */
  lemma {:induction false} GroupConservesReferences(fold: string -> string, c: Catalog, order: seq<Id>, t: Id)
    requires MergeAll(fold, c, order, t).Some?
    ensures Identities(MergeAll(fold, c, order, t).value.references) == Identities(c.references)
    decreases |order|
  {
    hide Compatible, Mergeable, Merge, Identities;
    if order != [] {
      CompatibleEditions(fold, c, order[0], t);
      MergeConservesReferences(c, order[0], t);
      GroupConservesReferences(fold, Merge(c, order[0], t), order[1..], t);
    }
  }

  /** Merging a group retires exactly its other members and leads each of them to the target. */
  lemma {:induction false} GroupLeadsToTarget(fold: string -> string, c: Catalog, order: seq<Id>, t: Id)
    requires MergeAll(fold, c, order, t).Some?
    ensures var d := MergeAll(fold, c, order, t).value;
            && d.events.Keys == c.events.Keys - Elements(order)
            && (forall x :: x in order || (x in c.aliases && c.aliases[x].target == t) ==> x in d.aliases && d.aliases[x].target == t)
    decreases |order|
  {
    hide Compatible, Mergeable, Merge, MergedEvent, MovedAudits;
    if order != [] {
      var s, rest := order[0], order[1..];
      CompatibleEditions(fold, c, s, t);
      MergeView(c, s, t);
      GroupLeadsToTarget(fold, Merge(c, s, t), rest, t);
      assert order == [s] + rest;
      assert Elements(order) == {s} + Elements(rest);
    } else {
      assert Elements(order) == {};
    }
  }

  /** Choosing any remaining member next leaves the others pairwise compatible with the result. */
  lemma GroupAfterChoice(fold: string -> string, c: Catalog, t: Id, remaining: seq<Id>, k: nat)
    requires k < |remaining| && PairwiseCompatible(fold, c, [t] + remaining)
    ensures Compatible(fold, c, remaining[k], t) && Mergeable(c, remaining[k], t)
    ensures PairwiseCompatible(fold, Merge(c, remaining[k], t), [t] + (remaining[..k] + remaining[k + 1..]))
  {
    hide Compatible, Mergeable, Merge;
    var group := [t] + remaining;
    var s := remaining[k];
    assert s == group[k + 1] && t == group[0];
    assert Compatible(fold, c, group[k + 1], group[0]);
    CompatibleEditions(fold, c, s, t);
    var rest := remaining[..k] + remaining[k + 1..];
    var chosen := [t, s] + rest;
    forall i, m | 0 <= i < |chosen| && 0 <= m < |chosen| && i != m
      ensures Compatible(fold, c, chosen[i], chosen[m])
    {
      var a := if i == 0 then 0 else if i == 1 then k + 1 else if i - 2 < k then i - 1 else i;
      var b := if m == 0 then 0 else if m == 1 then k + 1 else if m - 2 < k then m - 1 else m;
      assert chosen[i] == group[a] && chosen[m] == group[b] && a != b;
    }
    forall i, m | 0 <= i < |[t] + rest| && 0 <= m < |[t] + rest| && i != m
      ensures Compatible(fold, Merge(c, s, t), ([t] + rest)[i], ([t] + rest)[m])
    {
      RemainingPairKept(fold, c, chosen, i, m);
      assert [chosen[0]] + chosen[2..] == [t] + rest;
    }
  }
}
