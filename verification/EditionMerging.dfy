/** What merging two editions preserves. */
module EditionMerging {
  import opened Wrappers
  import opened EditionCatalog
  import Evidence = EditionEvidence

  lemma MergeView(c: Catalog, s: Id, t: Id)
    requires Mergeable(c, s, t)
    ensures s in c.events && t in c.events && s != t
    ensures Merge(c, s, t).events.Keys == c.events.Keys - {s}
    ensures forall e :: e in c.events && e != s && e != t ==> Merge(c, s, t).events[e] == c.events[e]
    ensures Merge(c, s, t).events[t] == MergedEvent(c, s, t)
    ensures Merge(c, s, t).events[t].slug == c.events[t].slug
    ensures Complete(Merge(c, s, t).events[t].fields)
    ensures Merge(c, s, t).aliases.Keys == c.aliases.Keys + {s}
    ensures Merge(c, s, t).aliases[s] == Alias(c.events[s].slug, t)
    ensures forall a :: a in c.aliases && a != s ==>
              Merge(c, s, t).aliases[a] == c.aliases[a].(target := Move(c.aliases[a].target, s, t))
    ensures Merge(c, s, t).audits == MovedAudits(c.audits, s, t)
  {
    hide ChosenPrimary, MovedAudits, MovedReferences, MergedField, MergedPublication, Protected, PublicationProtected, ReferencesOf;
  }

  // --- References ---------------------------------------------------------------------------

  lemma {:induction false} ReferencesOfMembers(references: seq<Reference>, id: Id, r: Reference)
    ensures r in ReferencesOf(references, id) <==> r in references && r.eventId == id
  {
    if references != [] {
      var n := |references| - 1;
      ReferencesOfMembers(references[..n], id, r);
      assert r in references <==> r in references[..n] || r == references[n];
    }
  }

  ghost predicate UniqueIdentities(references: seq<Reference>) {
    forall i, j :: 0 <= i < j < |references| ==> references[i].identity != references[j].identity
  }

  function Identities(references: seq<Reference>): (identities: seq<Identity>)
    ensures |identities| == |references| && forall i :: 0 <= i < |identities| ==> identities[i] == references[i].identity
  {
    seq(|references|, i requires 0 <= i < |references| => references[i].identity)
  }

  ghost predicate SolePrimary(references: seq<Reference>, id: Id, i: nat) {
    && i < |references| && references[i].eventId == id && references[i].primary
    && (forall j :: 0 <= j < |references| && references[j].eventId == id && references[j].primary ==> j == i)
  }

  /** A merge loses no source reference and leaves none on the source. */
  lemma MergeConservesReferences(c: Catalog, s: Id, t: Id)
    requires Mergeable(c, s, t)
    ensures Identities(Merge(c, s, t).references) == Identities(c.references)
    ensures ReferencesOf(Merge(c, s, t).references, s) == []
  {
    hide MergedEvent, MovedAudits, MovedAliases, ChosenPrimary;
    var moved := Merge(c, s, t).references;
    if ReferencesOf(moved, s) != [] {
      ReferencesOfMembers(moved, s, ReferencesOf(moved, s)[0]);
    }
  }

  /** It leaves exactly one primary reference on the target: one of the highest priority among
      both editions' references, which also names the merged event. */
  lemma MergeLeavesOnePrimary(c: Catalog, s: Id, t: Id) returns (i: nat)
    requires Mergeable(c, s, t) && UniqueIdentities(c.references)
    ensures SolePrimary(Merge(c, s, t).references, t, i)
    ensures t in Merge(c, s, t).events && Merge(c, s, t).events[t].identity == Some(Merge(c, s, t).references[i].identity)
    ensures forall r :: r in c.references && (r.eventId == s || r.eventId == t) ==>
              Priority(r.identity.sourceType) <= Priority(Merge(c, s, t).references[i].identity.sourceType)
  {
    hide MovedAudits, MovedAliases, Protected, PublicationProtected, ReferencesOf, Primary;
    var chosen := ChosenPrimary(c, s, t);
    ReferencesOfMembers(c.references, s, chosen);
    ReferencesOfMembers(c.references, t, chosen);
    i :| 0 <= i < |c.references| && c.references[i] == chosen;
    forall r | r in c.references && (r.eventId == s || r.eventId == t)
      ensures Priority(r.identity.sourceType) <= Priority(chosen.identity.sourceType)
    {
      ReferencesOfMembers(c.references, s, r);
      ReferencesOfMembers(c.references, t, r);
      assert r in ReferencesOf(c.references, t) + ReferencesOf(c.references, s);
    }
  }

  /** The target's references after a merge carry exactly the identities of both editions. */
  lemma MergedReferenceOrigin(c: Catalog, s: Id, t: Id, primary: Identity, r: Reference)
    requires r in ReferencesOf(MovedReferences(c.references, s, t, primary), t)
    ensures exists q :: (q in ReferencesOf(c.references, s) || q in ReferencesOf(c.references, t)) && q.identity == r.identity
  {
    var moved := MovedReferences(c.references, s, t, primary);
    ReferencesOfMembers(moved, t, r);
    var i :| 0 <= i < |moved| && moved[i] == r;
    ReferencesOfMembers(c.references, s, c.references[i]);
    ReferencesOfMembers(c.references, t, c.references[i]);
  }

  lemma {:induction false} OthersReferencesKept(references: seq<Reference>, s: Id, t: Id, primary: Identity, r: Id)
    requires r != s && r != t
    ensures ReferencesOf(MovedReferences(references, s, t, primary), r) == ReferencesOf(references, r)
  {
    if references != [] {
      var n := |references| - 1;
      assert MovedReferences(references, s, t, primary)[..n] == MovedReferences(references[..n], s, t, primary);
      OthersReferencesKept(references[..n], s, t, primary, r);
    }
  }

  lemma TargetKeepsReferences(references: seq<Reference>, s: Id, t: Id, primary: Identity)
    requires ReferencesOf(references, t) != []
    ensures ReferencesOf(MovedReferences(references, s, t, primary), t) != []
  {
    var r := ReferencesOf(references, t)[0];
    ReferencesOfMembers(references, t, r);
    var i :| 0 <= i < |references| && references[i] == r;
    var moved := MovedReferences(references, s, t, primary);
    ReferencesOfMembers(moved, t, moved[i]);
  }

  // --- Protection moves with the merge ------------------------------------------------------

  lemma ProtectionMoves(audits: seq<Audit>, s: Id, t: Id, f: Field)
    requires s != t
    ensures Protected(MovedAudits(audits, s, t), t, f) <==> Protected(audits, s, f) || Protected(audits, t, f)
  {
    var moved := MovedAudits(audits, s, t);
    forall i | 0 <= i < |audits|
      ensures Names(moved[i], t, f) <==> Names(audits[i], s, f) || Names(audits[i], t, f)
    {
    }
  }

  lemma OthersProtectionKept(audits: seq<Audit>, s: Id, t: Id, id: Id, f: Field)
    requires id != s && id != t
    ensures Protected(MovedAudits(audits, s, t), id, f) <==> Protected(audits, id, f)
  {
    var moved := MovedAudits(audits, s, t);
    forall i | 0 <= i < |audits|
      ensures Names(moved[i], id, f) <==> Names(audits[i], id, f)
    {
    }
  }

  lemma PublicationProtectionMoves(audits: seq<Audit>, s: Id, t: Id)
    requires s != t
    ensures PublicationProtected(MovedAudits(audits, s, t), t) <==> PublicationProtected(audits, s) || PublicationProtected(audits, t)
  {
    var moved := MovedAudits(audits, s, t);
    forall i | 0 <= i < |audits|
      ensures NamesPublication(moved[i], t) <==> NamesPublication(audits[i], s) || NamesPublication(audits[i], t)
    {
    }
  }

  lemma OthersPublicationKept(audits: seq<Audit>, s: Id, t: Id, id: Id)
    requires id != s && id != t
    ensures PublicationProtected(MovedAudits(audits, s, t), id) <==> PublicationProtected(audits, id)
  {
    var moved := MovedAudits(audits, s, t);
    forall i | 0 <= i < |audits|
      ensures NamesPublication(moved[i], id) <==> NamesPublication(audits[i], id)
    {
    }
  }

  // --- Compatibility is preserved -----------------------------------------------------------

  lemma MergedLocation(fold: string -> string, c: Catalog, s: Id, t: Id, r: Id)
    requires Compatible(fold, c, s, t) && Compatible(fold, c, r, s) && Compatible(fold, c, r, t)
    ensures Evidence.SamePlaceAndDay(fold, LocationOf(c.events[r].fields), LocationOf(MergedEvent(c, s, t).fields))
  {
    hide ManualConflict, IdentitiesConflict, ReferencesOf, ChosenPrimary, Protected, PublicationProtected;
    var merged := MergedEvent(c, s, t).fields;
    forall f: Field
      ensures merged[f] == c.events[s].fields[f] || merged[f] == c.events[t].fields[f]
    {
    }
  }

  lemma MergedIdentities(fold: string -> string, c: Catalog, s: Id, t: Id, r: Id)
    requires Compatible(fold, c, s, t) && Compatible(fold, c, r, s) && Compatible(fold, c, r, t) && r != s && r != t
    ensures var moved := Merge(c, s, t).references;
            !IdentitiesConflict(ReferencesOf(moved, r) + ReferencesOf(moved, t))
  {
    hide ManualConflict, ReferencesOf, LocationOf, Complete, Restricted;
    var primary := ChosenPrimary(c, s, t).identity;
    var moved := MovedReferences(c.references, s, t, primary);
    OthersReferencesKept(c.references, s, t, primary, r);
    var all := ReferencesOf(moved, r) + ReferencesOf(moved, t);
    forall i, j | 0 <= i < |all| && 0 <= j < |all|
      ensures !(all[i].identity.sourceType == all[j].identity.sourceType && all[i].identity.externalId != all[j].identity.externalId)
    {
      var p := OriginOf(c, s, t, r, primary, all[i]);
      var q := OriginOf(c, s, t, r, primary, all[j]);
      NoConflictBetween(fold, c, s, t, r, p, q);
    }
  }

  lemma OriginOf(c: Catalog, s: Id, t: Id, r: Id, primary: Identity, x: Reference) returns (q: Reference)
    requires r != s && r != t
    requires x in ReferencesOf(MovedReferences(c.references, s, t, primary), r)
             || x in ReferencesOf(MovedReferences(c.references, s, t, primary), t)
    ensures q.identity == x.identity
    ensures q in ReferencesOf(c.references, r) || q in ReferencesOf(c.references, s) || q in ReferencesOf(c.references, t)
  {
    OthersReferencesKept(c.references, s, t, primary, r);
    if x in ReferencesOf(c.references, r) {
      q := x;
    } else {
      MergedReferenceOrigin(c, s, t, primary, x);
      q :| (q in ReferencesOf(c.references, s) || q in ReferencesOf(c.references, t)) && q.identity == x.identity;
    }
  }

  lemma NoConflictBetween(fold: string -> string, c: Catalog, s: Id, t: Id, r: Id, p: Reference, q: Reference)
    requires Compatible(fold, c, s, t) && Compatible(fold, c, r, s) && Compatible(fold, c, r, t)
    requires p in ReferencesOf(c.references, r) || p in ReferencesOf(c.references, s) || p in ReferencesOf(c.references, t)
    requires q in ReferencesOf(c.references, r) || q in ReferencesOf(c.references, s) || q in ReferencesOf(c.references, t)
    ensures p.identity.sourceType == q.identity.sourceType ==> p.identity.externalId == q.identity.externalId
  {
    hide ManualConflict, ReferencesOf, LocationOf, Complete, Restricted;
    var a, b, d := ReferencesOf(c.references, r), ReferencesOf(c.references, s), ReferencesOf(c.references, t);
    Together(b, d, p, q);
    Together(a, b, p, q);
    Together(a, d, p, q);
  }

  lemma Together(a: seq<Reference>, b: seq<Reference>, p: Reference, q: Reference)
    requires !IdentitiesConflict(a + b)
    ensures (p in a || p in b) && (q in a || q in b) && p.identity.sourceType == q.identity.sourceType ==>
              p.identity.externalId == q.identity.externalId
  {
    if (p in a || p in b) && (q in a || q in b) {
      assert p in a + b && q in a + b;
      var i :| 0 <= i < |a + b| && (a + b)[i] == p;
      var j :| 0 <= j < |a + b| && (a + b)[j] == q;
    }
  }

  lemma MergedManual(fold: string -> string, c: Catalog, s: Id, t: Id, r: Id)
    requires Compatible(fold, c, s, t) && Compatible(fold, c, r, s) && Compatible(fold, c, r, t) && r != s && r != t
    ensures r in Merge(c, s, t).events && t in Merge(c, s, t).events
    ensures Complete(Merge(c, s, t).events[r].fields) && Complete(Merge(c, s, t).events[t].fields)
    ensures !ManualConflict(Merge(c, s, t), r, t)
  {
    hide IdentitiesConflict, ReferencesOf, LocationOf, Restricted, ChosenPrimary, Protected, PublicationProtected;
    forall f: Field
      ensures !(Protected(Merge(c, s, t).audits, r, f) && Protected(Merge(c, s, t).audits, t, f)
                && Merge(c, s, t).events[r].fields[f] != Merge(c, s, t).events[t].fields[f])
    {
      ProtectionMoves(c.audits, s, t, f);
      OthersProtectionKept(c.audits, s, t, r, f);
    }
    PublicationProtectionMoves(c.audits, s, t);
    OthersPublicationKept(c.audits, s, t, r);
  }

  /** If three editions are pairwise compatible, merging one into another leaves the third still
      compatible with the result. */
  lemma MergeKeepsCompatible(fold: string -> string, c: Catalog, s: Id, t: Id, r: Id)
    requires Compatible(fold, c, s, t) && Compatible(fold, c, r, s) && Compatible(fold, c, r, t) && r != s && r != t
    ensures Compatible(fold, Merge(c, s, t), r, t)
  {
    hide ReferencesOf, LocationOf, ManualConflict, IdentitiesConflict, Protected, PublicationProtected, ChosenPrimary;
    MergedLocation(fold, c, s, t, r);
    MergedIdentities(fold, c, s, t, r);
    MergedManual(fold, c, s, t, r);
    OthersReferencesKept(c.references, s, t, ChosenPrimary(c, s, t).identity, r);
    TargetKeepsReferences(c.references, s, t, ChosenPrimary(c, s, t).identity);
  }

  /** An edition the merge does not touch keeps its row, its references and its audits as they were. */
  lemma OtherEditionKept(c: Catalog, s: Id, t: Id, r: Id)
    requires Mergeable(c, s, t) && r in c.events && r != s && r != t
    ensures var d := Merge(c, s, t);
            && r in d.events && d.events[r] == c.events[r]
            && ReferencesOf(d.references, r) == ReferencesOf(c.references, r)
            && (forall a :: a in c.aliases && a != s && c.aliases[a].target == r ==> d.aliases[a] == c.aliases[a])
            && (forall f: Field :: Protected(d.audits, r, f) <==> Protected(c.audits, r, f))
            && (PublicationProtected(d.audits, r) <==> PublicationProtected(c.audits, r))
            && (forall i :: 0 <= i < |c.audits| ==> (d.audits[i].eventId == r <==> c.audits[i].eventId == r)
                                                    && (c.audits[i].eventId == r ==> d.audits[i] == c.audits[i]))
            && (forall i :: 0 <= i < |c.references| ==> (d.references[i].eventId == r <==> c.references[i].eventId == r)
                                                        && (c.references[i].eventId == r ==> d.references[i] == c.references[i]))
            && (forall k :: k in c.owned && c.owned[k].eventId == r ==> d.owned[k] == c.owned[k])
  {
    hide ReferencesOf, MergedEvent, ChosenPrimary, Protected, PublicationProtected;
    OthersReferencesKept(c.references, s, t, ChosenPrimary(c, s, t).identity, r);
    forall f: Field
      ensures Protected(Merge(c, s, t).audits, r, f) <==> Protected(c.audits, r, f)
    {
      OthersProtectionKept(c.audits, s, t, r, f);
    }
    OthersPublicationKept(c.audits, s, t, r);
  }

  /** A merge changes nothing between two editions it does not touch. */
  lemma OtherPairsKept(fold: string -> string, c: Catalog, s: Id, t: Id, r: Id, q: Id)
    requires Mergeable(c, s, t) && r in c.events && q in c.events && r != s && r != t && q != s && q != t
    ensures Compatible(fold, Merge(c, s, t), r, q) <==> Compatible(fold, c, r, q)
  {
    hide ReferencesOf, LocationOf, IdentitiesConflict, Protected, PublicationProtected, ChosenPrimary, Merge, MergedEvent;
    OtherEditionKept(c, s, t, r);
    OtherEditionKept(c, s, t, q);
  }

  // --- Merging a whole group ----------------------------------------------------------------

  ghost predicate PairwiseCompatible(fold: string -> string, c: Catalog, group: seq<Id>) {
    forall i, j :: 0 <= i < |group| && 0 <= j < |group| && i != j ==> Compatible(fold, c, group[i], group[j])
  }

  lemma CompatibleEditions(fold: string -> string, c: Catalog, s: Id, t: Id)
    requires Compatible(fold, c, s, t)
    ensures Mergeable(c, s, t) && s != t
  {
  }

  /** Merge the members into the target one after the other, each only if still compatible. */
  ghost function MergeAll(fold: string -> string, c: Catalog, order: seq<Id>, t: Id): Option<Catalog>
    decreases |order|
  {
    if order == [] then Some(c)
    else if !Compatible(fold, c, order[0], t) then None
    else
      CompatibleEditions(fold, c, order[0], t);
      MergeAll(fold, Merge(c, order[0], t), order[1..], t)
  }

  lemma CompatibleSymmetric(fold: string -> string, c: Catalog, s: Id, t: Id)
    requires Compatible(fold, c, s, t)
    ensures Compatible(fold, c, t, s)
  {
    hide ReferencesOf, LocationOf, Protected, PublicationProtected;
    var a, b := ReferencesOf(c.references, s), ReferencesOf(c.references, t);
    var swapped: seq<Reference> := b + a;
    forall i, j | 0 <= i < |swapped| && 0 <= j < |swapped|
      ensures !(swapped[i].identity.sourceType == swapped[j].identity.sourceType
                && swapped[i].identity.externalId != swapped[j].identity.externalId)
    {
      Together(a, b, swapped[i], swapped[j]);
    }
  }

  /** Once every pair of a group is compatible, the group can be merged into its target in any
      order: no merge ever turns a remaining member away. */
  lemma {:induction false} GroupMergesInAnyOrder(fold: string -> string, c: Catalog, order: seq<Id>, t: Id)
    requires PairwiseCompatible(fold, c, [t] + order)
    ensures MergeAll(fold, c, order, t).Some?
    decreases |order|
  {
    hide Compatible, Merge, Mergeable;
    if order != [] {
      var group, rest := [t] + order, [t] + order[1..];
      var s := order[0];
      assert Compatible(fold, c, group[1], group[0]);
      CompatibleEditions(fold, c, s, t);
      assert rest == [group[0]] + group[2..];
      forall i, j | 0 <= i < |rest| && 0 <= j < |rest| && i != j
        ensures Compatible(fold, Merge(c, s, t), rest[i], rest[j])
      {
        RemainingPairKept(fold, c, group, i, j);
      }
      GroupMergesInAnyOrder(fold, Merge(c, s, t), order[1..], t);
    }
  }

  lemma RemainingPairKept(fold: string -> string, c: Catalog, group: seq<Id>, i: nat, j: nat)
    requires |group| >= 2 && PairwiseCompatible(fold, c, group) && Mergeable(c, group[1], group[0])
    requires i < |group| - 1 && j < |group| - 1 && i != j
    ensures var rest := [group[0]] + group[2..];
            Compatible(fold, Merge(c, group[1], group[0]), rest[i], rest[j])
  {
    hide Merge, Compatible, Mergeable;
    var t, s := group[0], group[1];
    var a, b := if i == 0 then 0 else i + 1, if j == 0 then 0 else j + 1;
    assert ([t] + group[2..])[i] == group[a] && ([t] + group[2..])[j] == group[b];
    assert Compatible(fold, c, s, t);
    if b == 0 {
      ThirdMember(fold, c, group, a);
      MergeKeepsCompatible(fold, c, s, t, group[a]);
    } else if a == 0 {
      ThirdMember(fold, c, group, b);
      MergeKeepsCompatible(fold, c, s, t, group[b]);
      CompatibleSymmetric(fold, Merge(c, s, t), group[b], t);
    } else {
      ThirdMember(fold, c, group, a);
      ThirdMember(fold, c, group, b);
      CompatibleEditions(fold, c, group[a], group[b]);
      OtherPairsKept(fold, c, s, t, group[a], group[b]);
    }
  }

  lemma ThirdMember(fold: string -> string, c: Catalog, group: seq<Id>, a: nat)
    requires PairwiseCompatible(fold, c, group) && 2 <= a < |group|
    ensures Compatible(fold, c, group[a], group[0]) && Compatible(fold, c, group[a], group[1])
    ensures group[a] != group[0] && group[a] != group[1]
  {
    hide Compatible;
    CompatibleEditions(fold, c, group[a], group[0]);
    CompatibleEditions(fold, c, group[a], group[1]);
  }
}
