/** A preview's revision holds all that a merge depends on, so a confirmed merge is the one previewed. */
module EditionPreviews {
  import opened Wrappers
  import opened EditionCatalog
  import opened EditionMerging
  import opened EditionHistory
  import opened EditionStore
  import opened EditionConditions

  lemma {:induction false} AuditsOfProtect(audits: seq<Audit>, s: Id, t: Id, id: Id, f: Field)
    requires id == s || id == t
    ensures WasReviewed(AuditsOf(audits, s, t), id, f) <==> WasReviewed(audits, id, f)
    ensures WasDecided(AuditsOf(audits, s, t), id) <==> WasDecided(audits, id)
  {
    forall a
      ensures a in AuditsOf(audits, s, t) <==> a in audits && (a.eventId == s || a.eventId == t)
    {
      AuditsOfMembers(audits, s, t, a);
    }
    ReviewedMembers(audits, id, f);
    ReviewedMembers(AuditsOf(audits, s, t), id, f);
  }

  lemma {:induction false} AuditsOfMembers(audits: seq<Audit>, s: Id, t: Id, a: Audit)
    ensures a in AuditsOf(audits, s, t) <==> a in audits && (a.eventId == s || a.eventId == t)
  {
    if audits != [] {
      var n := |audits| - 1;
      AuditsOfMembers(audits[..n], s, t, a);
      assert audits == audits[..n] + [audits[n]];
    }
  }

  lemma ReviewedMembers(audits: seq<Audit>, id: Id, f: Field)
    ensures WasReviewed(audits, id, f) <==> exists a :: a in audits && a.Review? && a.eventId == id && f in a.changes
    ensures WasDecided(audits, id) <==> exists a :: a in audits && a.eventId == id && (a.PublicationDecision? || a.publication.Some?)
  {
    if a :| a in audits && a.Review? && a.eventId == id && f in a.changes {
      var i :| 0 <= i < |audits| && audits[i] == a;
    }
    if a :| a in audits && a.eventId == id && (a.PublicationDecision? || a.publication.Some?) {
      var i :| 0 <= i < |audits| && audits[i] == a;
    }
  }

  lemma SplitByEdition(a: seq<Reference>, b: seq<Reference>, x: seq<Reference>, y: seq<Reference>, s: Id, t: Id)
    requires s != t && a + b == x + y
    requires (forall i :: 0 <= i < |a| ==> a[i].eventId == s) && (forall i :: 0 <= i < |x| ==> x[i].eventId == s)
    requires (forall i :: 0 <= i < |b| ==> b[i].eventId == t) && (forall i :: 0 <= i < |y| ==> y[i].eventId == t)
    ensures a == x && b == y
  {
    assert |a| < |a + b| ==> (a + b)[|a|].eventId == t;
    assert |x| < |x + y| ==> (x + y)[|x|].eventId == t;
    assert forall k :: 0 <= k < |a| ==> (a + b)[k].eventId == s;
    assert forall k :: 0 <= k < |x| ==> (x + y)[k].eventId == s;
    assert a == (a + b)[..|a|] && b == (a + b)[|a|..];
    assert x == (x + y)[..|x|] && y == (x + y)[|x|..];
  }

  lemma SameRevision(c: Catalog, d: Catalog, s: Id, t: Id)
    requires s in c.events && t in c.events && s in d.events && t in d.events && s != t
    requires RevisionOf(c, s, t) == RevisionOf(d, s, t)
    ensures c.events[s] == d.events[s] && c.events[t] == d.events[t]
    ensures ReferencesOf(c.references, s) == ReferencesOf(d.references, s) && ReferencesOf(c.references, t) == ReferencesOf(d.references, t)
    ensures forall f: Field :: (WasReviewed(c.audits, s, f) <==> WasReviewed(d.audits, s, f))
                               && (WasReviewed(c.audits, t, f) <==> WasReviewed(d.audits, t, f))
    ensures (WasDecided(c.audits, s) <==> WasDecided(d.audits, s)) && (WasDecided(c.audits, t) <==> WasDecided(d.audits, t))
    ensures forall a :: (a in c.aliases && c.aliases[a].target in {s, t}) <==> (a in d.aliases && d.aliases[a].target in {s, t})
  {
    hide WasReviewed, WasDecided, ReferencesOf, AuditsOf;
    SplitByEdition(ReferencesOf(c.references, s), ReferencesOf(c.references, t), ReferencesOf(d.references, s), ReferencesOf(d.references, t), s, t);
    forall f: Field
      ensures (WasReviewed(c.audits, s, f) <==> WasReviewed(d.audits, s, f)) && (WasReviewed(c.audits, t, f) <==> WasReviewed(d.audits, t, f))
    {
      AuditsOfProtect(c.audits, s, t, s, f);
      AuditsOfProtect(c.audits, s, t, t, f);
      AuditsOfProtect(d.audits, s, t, s, f);
      AuditsOfProtect(d.audits, s, t, t, f);
    }
    AuditsOfProtect(c.audits, s, t, s, Name);
    AuditsOfProtect(c.audits, s, t, t, Name);
    AuditsOfProtect(d.audits, s, t, s, Name);
    AuditsOfProtect(d.audits, s, t, t, Name);
    SameAliases(c, d, s, t);
  }

  lemma SameAliases(c: Catalog, d: Catalog, s: Id, t: Id)
    requires s in c.events && t in c.events && s in d.events && t in d.events && RevisionOf(c, s, t) == RevisionOf(d, s, t)
    ensures forall a :: (a in c.aliases && c.aliases[a].target in {s, t}) <==> (a in d.aliases && d.aliases[a].target in {s, t})
  {
    forall a
      ensures (a in c.aliases && c.aliases[a].target in {s, t}) <==> (a in d.aliases && d.aliases[a].target in {s, t})
    {
      assert a in RevisionOf(c, s, t).aliases <==> a in RevisionOf(d, s, t).aliases;
    }
  }

  /** While the revision is the one previewed, whatever else changed in the catalogue, the two editions may be
      merged exactly as before, and the merge makes of them the very same edition under the same primary. */
  lemma PreviewDecides(fold: string -> string, c: Catalog, d: Catalog, s: Id, t: Id)
    requires s in c.events && t in c.events && s in d.events && t in d.events && s != t
    requires Complete(c.events[s].fields) && Complete(c.events[t].fields) && RevisionOf(c, s, t) == RevisionOf(d, s, t)
    ensures Compatible(fold, c, s, t) <==> Compatible(fold, d, s, t)
    ensures Mergeable(c, s, t) <==> Mergeable(d, s, t)
    ensures Mergeable(c, s, t) ==> MergedEvent(c, s, t) == MergedEvent(d, s, t) && ChosenPrimary(c, s, t) == ChosenPrimary(d, s, t)
  {
    hide RevisionOf, ReferencesOf, Primary, Protected, PublicationProtected, WasReviewed, WasDecided, IdentitiesConflict, MergedField;
    SameRevision(c, d, s, t);
    forall f: Field
      ensures (Protected(c.audits, s, f) <==> Protected(d.audits, s, f)) && (Protected(c.audits, t, f) <==> Protected(d.audits, t, f))
      ensures PublicationProtected(c.audits, s) <==> PublicationProtected(d.audits, s)
      ensures PublicationProtected(c.audits, t) <==> PublicationProtected(d.audits, t)
    {
      SameProtection(c.audits, s, f);
      SameProtection(c.audits, t, f);
      SameProtection(d.audits, s, f);
      SameProtection(d.audits, t, f);
    }
  }
}
