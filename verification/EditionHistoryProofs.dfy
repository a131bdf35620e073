/** The invariants of the edition catalogue hold in every run, and what they mean for its users. */
module EditionHistoryProofs {
  import opened Wrappers
  import opened EditionCatalog
  import opened EditionMerging
  import opened EditionHistory

  // --- References and derived ids -----------------------------------------------------------

  lemma KnownWhenAmong(references: seq<Reference>, moved: seq<Reference>, k: Identity)
    requires |references| <= |moved|
    requires forall i :: 0 <= i < |references| ==> moved[i].identity == references[i].identity
    ensures Known(references, k) ==> Known(moved, k)
  {
    if i :| 0 <= i < |references| && references[i].identity == k {
      assert moved[i].identity == k;
    }
  }

  lemma UpsertKeepsReferences(references: seq<Reference>, identity: Identity, id: Id, url: string, primary: bool, k: Identity)
    requires UniqueIdentities(references)
    ensures UniqueIdentities(UpsertReference(references, identity, id, url, primary))
    ensures Known(references, k) ==> Known(UpsertReference(references, identity, id, url, primary), k)
    ensures Known(UpsertReference(references, identity, id, url, primary), identity)
    ensures forall i :: 0 <= i < |UpsertReference(references, identity, id, url, primary)| ==>
              UpsertReference(references, identity, id, url, primary)[i].eventId == id
              || UpsertReference(references, identity, id, url, primary)[i] in references
  {
    var upserted := UpsertReference(references, identity, id, url, primary);
    KnownWhenAmong(references, upserted, k);
    if Known(references, identity) {
      KnownWhenAmong(references, upserted, identity);
    } else {
      assert upserted[|references|].identity == identity;
    }
  }

  lemma StepKeepsReferences(c: Catalog, a: Action)
    requires EventsInv(c) && ReferencesInv(c)
    ensures ReferencesInv(Step(c, a))
  {
    hide Compatible, Mergeable, Merge, Crawl, ReferencesOf, ChosenPrimary, MovedAudits, Protected, PublicationProtected,
      SlugFree, IsBearer, UpsertReference, Known;
    var d := Step(c, a);
    match a
    case DoCreate(_, _) =>
    case DoCrawl(identity, bearer, event, url) =>
      if Commits(c, a) {
        CrawlKeepsReferences(c, identity, bearer, event, url);
      }
    case DoReference(identity, id, url, primary) =>
      if Commits(c, a) {
        forall k
          ensures Known(c.references, k) ==> Known(d.references, k)
        {
          UpsertKeepsReferences(c.references, identity, id, url, primary, k);
        }
        UpsertKeepsReferences(c.references, identity, id, url, primary, identity);
      }
    case DoMerge(fold, source, target) =>
      if Commits(c, a) {
        CompatibleEditions(fold, c, Resolve(c.aliases, source), Resolve(c.aliases, target));
        MergeKeepsReferences(c, Resolve(c.aliases, source), Resolve(c.aliases, target));
      }
    case DoLink(id, _, _, _, _, _, _) =>
      DemotionKeepsIdentities(c.references, id);
      assert d.aliases == c.aliases && d.events.Keys == c.events.Keys;
      assert d.references == c.references || d.references == Demoted(c.references, id);
    case _ =>
      assert d.references == c.references && d.aliases == c.aliases && d.events.Keys == c.events.Keys;
  }

  lemma DemotionKeepsIdentities(references: seq<Reference>, id: Id)
    requires UniqueIdentities(references)
    ensures UniqueIdentities(Demoted(references, id))
    ensures forall k :: Known(references, k) ==> Known(Demoted(references, id), k)
    ensures forall i :: 0 <= i < |references| ==> Demoted(references, id)[i].eventId == references[i].eventId
  {
    forall k
      ensures Known(references, k) ==> Known(Demoted(references, id), k)
    {
      KnownWhenAmong(references, Demoted(references, id), k);
    }
  }

  /** A promoted source that then links its reference as primary leaves the edition with that reference
      as its one primary, the one that names the event. */
  lemma PromotionLeavesOnePrimary(c: Catalog, link: Action, identity: Identity, url: string)
    requires EventsInv(c) && ReferencesInv(c) && link.DoLink? && link.promote && link.identity == identity && Commits(c, link)
    ensures var linked := Step(c, link);
            && EventsInv(linked)
            && var d := Step(linked, DoReference(identity, link.id, url, true));
               && d.events[link.id].identity == Some(identity)
               && Known(d.references, identity)
               && (forall i :: 0 <= i < |d.references| && d.references[i].identity == identity ==> d.references[i].eventId == link.id)
               && (forall i :: 0 <= i < |d.references| && d.references[i].eventId == link.id ==>
                     (d.references[i].primary <==> d.references[i].identity == identity))
  {
    hide Step, Commits, ReferencesInv, UniqueIdentities;
    StepKeepsEvents(c, link);
    StepKeepsReferences(c, link);
    PromotionDemotes(c, link);
    var linked := Step(c, link);
    ReferenceUpserts(linked, identity, link.id, url);
    OnePrimary(linked.references, identity, link.id, url);
  }

  lemma PromotionDemotes(c: Catalog, link: Action)
    requires EventsInv(c) && link.DoLink? && link.promote && Commits(c, link)
    ensures var d := Step(c, link);
            link.id in d.events && d.events[link.id].identity == Some(link.identity) && d.references == Demoted(c.references, link.id)
  {
    hide Demoted, Preserved, Proposal, KeptPublication;
  }

  lemma ReferenceUpserts(c: Catalog, identity: Identity, id: Id, url: string)
    requires EventsInv(c) && id in c.events
    ensures var d := Step(c, DoReference(identity, id, url, true));
            d.events == c.events && d.references == UpsertReference(c.references, identity, id, url, true)
  {
    hide UpsertReference;
  }

  lemma OnePrimary(references: seq<Reference>, identity: Identity, id: Id, url: string)
    requires forall i :: 0 <= i < |references| && references[i].eventId == id ==> !references[i].primary
    ensures var upserted := UpsertReference(references, identity, id, url, true);
            && Known(upserted, identity)
            && (forall i :: 0 <= i < |upserted| && upserted[i].identity == identity ==> upserted[i].eventId == id)
            && (forall i :: 0 <= i < |upserted| && upserted[i].eventId == id ==>
                  (upserted[i].primary <==> upserted[i].identity == identity))
  {
    var upserted := UpsertReference(references, identity, id, url, true);
    if Known(references, identity) {
      KnownWhenAmong(references, upserted, identity);
    } else {
      assert upserted[|references|].identity == identity;
    }
  }

  lemma CrawlKeepsReferences(c: Catalog, identity: Identity, bearer: Option<Id>, event: Event, url: string)
    requires EventsInv(c) && ReferencesInv(c) && IsBearer(c, identity, bearer)
    ensures ReferencesInv(Crawl(c, identity, bearer, event, url))
  {
    var d := Crawl(c, identity, bearer, event, url);
    forall k
      ensures Known(c.references, k) ==> Known(d.references, k)
    {
      KnownWhenAmong(c.references, d.references, k);
    }
    if CrawlOutcome(c, identity, bearer).Created? {
      assert d.references[|c.references|].identity == identity;
    }
  }

  lemma MergeKeepsReferences(c: Catalog, s: Id, t: Id)
    requires EventsInv(c) && ReferencesInv(c) && Mergeable(c, s, t)
    ensures ReferencesInv(Merge(c, s, t))
  {
    hide MergedEvent, MovedAudits, ReferencesOf, ChosenPrimary, Mergeable, Merge;
    MergeView(c, s, t);
    var d := Merge(c, s, t);
    assert d.references == MovedReferences(c.references, s, t, ChosenPrimary(c, s, t).identity) by {
      MergedReferences(c, s, t);
    }
    forall k
      ensures Known(c.references, k) ==> Known(d.references, k)
    {
      KnownWhenAmong(c.references, d.references, k);
    }
    forall k | Derived(k) in d.events || Derived(k) in d.aliases
      ensures Known(d.references, k)
    {
      assert Derived(k) in c.events || Derived(k) in c.aliases;
    }
  }

  lemma MergedReferences(c: Catalog, s: Id, t: Id)
    requires Mergeable(c, s, t)
    ensures Merge(c, s, t).references == MovedReferences(c.references, s, t, ChosenPrimary(c, s, t).identity)
  {
  }

  lemma MergeableEvents(c: Catalog, s: Id, t: Id)
    requires Mergeable(c, s, t)
    ensures s in c.events && t in c.events && s != t
  {
  }

  // --- Rows and slugs -----------------------------------------------------------------------

  lemma StepKeepsOwned(c: Catalog, a: Action)
    requires EventsInv(c) && OwnedInv(c)
    ensures OwnedInv(Step(c, a))
  {
    hide Compatible, ReferencesOf, ChosenPrimary, MovedAudits, Protected, PublicationProtected, SlugFree, IsBearer,
      MovedReferences, UpsertReference, Mergeable, MergedEvent;
    if a.DoMerge? && Commits(c, a) {
      CompatibleEditions(a.fold, c, Resolve(c.aliases, a.source), Resolve(c.aliases, a.target));
      MergeableEvents(c, Resolve(c.aliases, a.source), Resolve(c.aliases, a.target));
    }
    match a
    case DoCreate(n, _) =>
    case DoCrawl(_, _, _, _) =>
    case DoMerge(_, _, _) =>
    case _ =>
  }

  lemma StepKeepsSlugs(c: Catalog, a: Action)
    requires EventsInv(c) && SlugsInv(c)
    ensures SlugsInv(Step(c, a))
  {
    hide Compatible, IsBearer, UpsertReference, Mergeable, Merge, SavedEvent, LinkedEvent, EnrichedEvent, ReviewedEvent,
      SlugsInv, SlugFree, Known;
    if Commits(c, a) {
      match a
      case DoCreate(n, event) => NewSlug(c, Step(c, a), Generated(n), event.slug);
      case DoCrawl(identity, _, event, _) =>
        if CrawlOutcome(c, identity, a.bearer).Created? {
          NewSlug(c, Step(c, a), Derived(identity), event.slug);
        } else {
          SameSlugs(c, Step(c, a));
        }
      case DoMerge(fold, source, target) =>
        CompatibleEditions(fold, c, Resolve(c.aliases, source), Resolve(c.aliases, target));
        MergeKeepsSlugs(c, Resolve(c.aliases, source), Resolve(c.aliases, target));
      case _ =>
        WritesKeepSlugs(c, a);
        SameSlugs(c, Step(c, a));
    }
  }

  lemma WritesKeepSlugs(c: Catalog, a: Action)
    requires EventsInv(c) && Commits(c, a) && !a.DoCreate? && !a.DoCrawl? && !a.DoMerge?
    ensures Step(c, a).aliases == c.aliases && Step(c, a).events.Keys == c.events.Keys
    ensures forall e :: e in c.events ==> Step(c, a).events[e].slug == c.events[e].slug
  {
    hide UpsertReference, Preserved, Proposal, EnrichedField, KeptPublication, Protected, SlugFree;
  }

  lemma SameSlugs(c: Catalog, d: Catalog)
    requires SlugsInv(c) && d.aliases == c.aliases && d.events.Keys == c.events.Keys
    requires forall e :: e in c.events ==> d.events[e].slug == c.events[e].slug
    ensures SlugsInv(d)
  {
  }

  lemma NewSlug(c: Catalog, d: Catalog, id: Id, slug: string)
    requires SlugsInv(c) && SlugFree(c, slug) && d.aliases == c.aliases && d.events.Keys == c.events.Keys + {id}
    requires d.events[id].slug == slug && id !in c.events
    requires forall e :: e in c.events ==> d.events[e] == c.events[e]
    ensures SlugsInv(d)
  {
  }

  lemma MergeKeepsSlugs(c: Catalog, s: Id, t: Id)
    requires EventsInv(c) && SlugsInv(c) && Mergeable(c, s, t)
    ensures SlugsInv(Merge(c, s, t))
  {
    hide Merge, Mergeable, MergedEvent, EventsInv, SlugsInv;
    MergeView(c, s, t);
    LiveSlugs(c, s);
    SlugRetired(c, Merge(c, s, t), s);
  }

  lemma SlugRetired(c: Catalog, d: Catalog, s: Id)
    requires SlugsInv(c) && s in c.events && s !in c.aliases
    requires d.events.Keys == c.events.Keys - {s} && d.aliases.Keys == c.aliases.Keys + {s}
    requires forall e :: e in d.events ==> d.events[e].slug == c.events[e].slug
    requires forall a :: a in d.aliases ==> d.aliases[a].oldSlug == if a == s then c.events[s].slug else c.aliases[a].oldSlug
    ensures SlugsInv(d)
  {
  }

  lemma LiveSlugs(c: Catalog, s: Id)
    requires EventsInv(c) && SlugsInv(c) && s in c.events
    ensures s !in c.aliases
  {
  }

  // --- Merges -------------------------------------------------------------------------------

  lemma JoinedInMore(merges: seq<(Id, Id)>, more: seq<(Id, Id)>, x: Id, y: Id)
    requires Joined(merges, x, y)
    ensures Joined(merges + more, x, y)
  {
    var i :| 0 <= i < |merges| && (merges[i] == (x, y) || merges[i] == (y, x));
    assert (merges + more)[i] == merges[i];
  }

  lemma ConnectedInMore(merges: seq<(Id, Id)>, more: seq<(Id, Id)>, x: Id, y: Id)
    requires Connected(merges, x, y)
    ensures Connected(merges + more, x, y)
  {
    var chain :| IsChain(merges, chain) && chain[0] == x && chain[|chain| - 1] == y;
    forall i, j | 0 <= i < j < |chain| && j == i + 1
      ensures Joined(merges + more, chain[i], chain[j])
    {
      JoinedInMore(merges, more, chain[i], chain[j]);
    }
    assert IsChain(merges + more, chain);
  }

  lemma ConnectedThroughJoin(merges: seq<(Id, Id)>, x: Id, y: Id, z: Id)
    requires Connected(merges, x, y) && Joined(merges, y, z)
    ensures Connected(merges, x, z)
  {
    var chain :| IsChain(merges, chain) && chain[0] == x && chain[|chain| - 1] == y;
    var longer := chain + [z];
    forall i, j | 0 <= i < j < |longer| && j == i + 1
      ensures Joined(merges, longer[i], longer[j])
    {
      assert longer[i] == chain[i];
    }
    assert IsChain(merges, longer);
  }

  lemma ConnectedToItself(merges: seq<(Id, Id)>, x: Id)
    ensures Connected(merges, x, x)
  {
    assert IsChain(merges, [x]);
  }

  lemma {:induction false} ConnectedBackwards(merges: seq<(Id, Id)>, chain: seq<Id>)
    requires IsChain(merges, chain)
    ensures Connected(merges, chain[|chain| - 1], chain[0])
    decreases |chain|
  {
    if |chain| == 1 {
      ConnectedToItself(merges, chain[0]);
    } else {
      var tail := chain[1..];
      forall i, j | 0 <= i < j < |tail| && j == i + 1
        ensures Joined(merges, tail[i], tail[j])
      {
        assert tail[i] == chain[i + 1] && tail[j] == chain[j + 1];
      }
      ConnectedBackwards(merges, tail);
      assert Joined(merges, chain[0], chain[1]);
      assert Joined(merges, chain[1], chain[0]);
      ConnectedThroughJoin(merges, chain[|chain| - 1], chain[1], chain[0]);
    }
  }

  lemma {:induction false} ConnectedAlong(merges: seq<(Id, Id)>, x: Id, chain: seq<Id>)
    requires IsChain(merges, chain) && Connected(merges, x, chain[0])
    ensures Connected(merges, x, chain[|chain| - 1])
    decreases |chain|
  {
    if |chain| > 1 {
      var front := chain[..|chain| - 1];
      forall i, j | 0 <= i < j < |front| && j == i + 1
        ensures Joined(merges, front[i], front[j])
      {
        assert front[i] == chain[i] && front[j] == chain[j];
      }
      ConnectedAlong(merges, x, front);
      assert Joined(merges, chain[|chain| - 2], chain[|chain| - 1]);
      ConnectedThroughJoin(merges, x, front[|front| - 1], chain[|chain| - 1]);
    }
  }

  lemma StepKeepsMerges(c: Catalog, a: Action)
    requires EventsInv(c) && MergesInv(c)
    ensures MergesInv(Step(c, a))
  {
    hide Compatible, ReferencesOf, ChosenPrimary, MovedAudits, Protected, PublicationProtected, IsBearer,
      MovedReferences, UpsertReference, Mergeable, Preserved, SlugFree, Connected;
    if a.DoMerge? && Commits(c, a) {
      var s, t := Resolve(c.aliases, a.source), Resolve(c.aliases, a.target);
      CompatibleEditions(a.fold, c, s, t);
      MergeKeepsMerges(c, s, t);
    } else {
      assert Step(c, a).aliases == c.aliases && Step(c, a).reconciliations == c.reconciliations;
    }
  }

  lemma MergeKeepsMerges(c: Catalog, s: Id, t: Id)
    requires EventsInv(c) && MergesInv(c) && Mergeable(c, s, t)
    ensures MergesInv(Merge(c, s, t))
  {
    hide MergedEvent, MovedAudits, ReferencesOf, ChosenPrimary, Mergeable, Connected, MovedReferences;
    MergeableEvents(c, s, t);
    var d := Merge(c, s, t);
    forall x
      ensures Resolve(d.aliases, x) == Move(Resolve(c.aliases, x), s, t)
    {
    }
    forall i | 0 <= i < |d.reconciliations|
      ensures Resolve(d.aliases, d.reconciliations[i].0) == Resolve(d.aliases, d.reconciliations[i].1)
    {
      if i < |c.reconciliations| {
        assert d.reconciliations[i] == c.reconciliations[i];
      }
    }
    assert Joined(d.reconciliations, s, t) by {
      assert d.reconciliations[|c.reconciliations|] == (s, t);
    }
    forall x | x in d.aliases
      ensures Connected(d.reconciliations, x, d.aliases[x].target)
    {
      if x == s {
        ConnectedToItself(d.reconciliations, s);
        ConnectedThroughJoin(d.reconciliations, s, s, t);
      } else {
        ConnectedInMore(c.reconciliations, [(s, t)], x, c.aliases[x].target);
        if c.aliases[x].target == s {
          ConnectedThroughJoin(d.reconciliations, x, s, t);
        }
      }
    }
  }

  // --- Reviewed values ----------------------------------------------------------------------

  lemma {:induction false} ReviewedIsProtected(audits: seq<Audit>, id: Id, f: Field)
    ensures Protected(audits, id, f) <==> LastReviewed(audits, id, f).Some?
  {
    if audits != [] {
      var n := |audits| - 1;
      ReviewedIsProtected(audits[..n], id, f);
      assert forall i :: 0 <= i < n ==> audits[..n][i] == audits[i];
      if Names(audits[n], id, f) {
        assert Protected(audits, id, f);
      } else if i :| 0 <= i < |audits| && Names(audits[i], id, f) {
        assert Names(audits[..n][i], id, f);
      }
    }
  }

  lemma {:induction false} DecidedIsProtected(audits: seq<Audit>, id: Id)
    ensures PublicationProtected(audits, id) <==> LastDecided(audits, id).Some?
  {
    if audits != [] {
      var n := |audits| - 1;
      DecidedIsProtected(audits[..n], id);
      assert forall i :: 0 <= i < n ==> audits[..n][i] == audits[i];
      if NamesPublication(audits[n], id) {
        assert PublicationProtected(audits, id);
      } else if i :| 0 <= i < |audits| && NamesPublication(audits[i], id) {
        assert NamesPublication(audits[..n][i], id);
      }
    }
  }

  /** After a merge the target's last review is the last of either edition's. */
  lemma {:induction false} LastReviewMoves(audits: seq<Audit>, s: Id, t: Id, f: Field)
    requires s != t
    ensures var moved := LastReviewed(MovedAudits(audits, s, t), t, f);
            && (moved == LastReviewed(audits, s, f) || moved == LastReviewed(audits, t, f))
            && (LastReviewed(audits, s, f).Some? || LastReviewed(audits, t, f).Some? ==> moved.Some?)
  {
    if audits != [] {
      var n := |audits| - 1;
      assert MovedAudits(audits, s, t)[..n] == MovedAudits(audits[..n], s, t);
      LastReviewMoves(audits[..n], s, t, f);
    }
  }

  lemma {:induction false} LastDecisionMoves(audits: seq<Audit>, s: Id, t: Id)
    requires s != t
    ensures var moved := LastDecided(MovedAudits(audits, s, t), t);
            && (moved == LastDecided(audits, s) || moved == LastDecided(audits, t))
            && (LastDecided(audits, s).Some? || LastDecided(audits, t).Some? ==> moved.Some?)
  {
    if audits != [] {
      var n := |audits| - 1;
      assert MovedAudits(audits, s, t)[..n] == MovedAudits(audits[..n], s, t);
      LastDecisionMoves(audits[..n], s, t);
    }
  }

  lemma {:induction false} OthersReviewsKept(audits: seq<Audit>, s: Id, t: Id, id: Id, f: Field)
    requires id != s && id != t
    ensures LastReviewed(MovedAudits(audits, s, t), id, f) == LastReviewed(audits, id, f)
    ensures LastDecided(MovedAudits(audits, s, t), id) == LastDecided(audits, id)
  {
    if audits != [] {
      var n := |audits| - 1;
      assert MovedAudits(audits, s, t)[..n] == MovedAudits(audits[..n], s, t);
      OthersReviewsKept(audits[..n], s, t, id, f);
    }
  }

  /** A compatible merge gives the target exactly what was last reviewed on either edition. */
  lemma MergedFieldIsReviewed(fold: string -> string, c: Catalog, s: Id, t: Id, f: Field)
    requires EventsInv(c) && ReviewedInv(c) && Compatible(fold, c, s, t)
    requires LastReviewed(c.audits, s, f).Some? || LastReviewed(c.audits, t, f).Some?
    ensures LastReviewed(MovedAudits(c.audits, s, t), t, f) == Some(MergedEvent(c, s, t).fields[f])
    ensures LastReviewed(c.audits, s, f).Some? ==> MergedEvent(c, s, t).fields[f] == LastReviewed(c.audits, s, f).value
    ensures LastReviewed(c.audits, t, f).Some? ==> MergedEvent(c, s, t).fields[f] == LastReviewed(c.audits, t, f).value
  {
    hide IdentitiesConflict, ReferencesOf, LocationOf, Restricted, ChosenPrimary, Protected, LastReviewed;
    ReviewedIsProtected(c.audits, s, f);
    ReviewedIsProtected(c.audits, t, f);
    LastReviewMoves(c.audits, s, t, f);
  }

  lemma MergedPublicationIsDecided(fold: string -> string, c: Catalog, s: Id, t: Id)
    requires EventsInv(c) && ReviewedInv(c) && Compatible(fold, c, s, t)
    requires LastDecided(c.audits, s).Some? || LastDecided(c.audits, t).Some?
    ensures LastDecided(MovedAudits(c.audits, s, t), t) == Some(MergedEvent(c, s, t).publication)
    ensures MergedEvent(c, s, t).administrativeReview
  {
    hide IdentitiesConflict, ReferencesOf, LocationOf, Restricted, ChosenPrimary, PublicationProtected, LastDecided;
    DecidedIsProtected(c.audits, s);
    DecidedIsProtected(c.audits, t);
    LastDecisionMoves(c.audits, s, t);
  }

  lemma MergeKeepsReviewed(fold: string -> string, c: Catalog, s: Id, t: Id)
    requires EventsInv(c) && ReviewedInv(c) && Compatible(fold, c, s, t)
    ensures Mergeable(c, s, t) && ReviewedInv(Merge(c, s, t))
  {
    hide Compatible, ReviewHeld, MergedEvent, Mergeable, Merge, EventsInv;
    CompatibleEditions(fold, c, s, t);
    MergeView(c, s, t);
    var d := Merge(c, s, t);
    forall i | 0 <= i < |d.audits|
      ensures d.audits[i].eventId in d.events
    {
      assert c.audits[i].eventId in c.events;
    }
    MergedReviewHeld(fold, c, s, t);
    forall e | e in d.events && e != t
      ensures ReviewHeld(d.audits, e, d.events[e])
    {
      OtherReviewHeld(c.audits, s, t, e, c.events[e]);
    }
  }

  lemma MergedReviewHeld(fold: string -> string, c: Catalog, s: Id, t: Id)
    requires EventsInv(c) && ReviewedInv(c) && Compatible(fold, c, s, t) && Mergeable(c, s, t)
    ensures ReviewHeld(MovedAudits(c.audits, s, t), t, MergedEvent(c, s, t))
  {
    hide Compatible, LastReviewed, LastDecided, Mergeable, MergedField, MergedPublication, ChosenPrimary, Protected,
      PublicationProtected, DayOnly, MovedAudits;
    MergeableEvents(c, s, t);
    forall f: Field | LastReviewed(MovedAudits(c.audits, s, t), t, f).Some?
      ensures LastReviewed(MovedAudits(c.audits, s, t), t, f) == Some(MergedEvent(c, s, t).fields[f])
    {
      LastReviewMoves(c.audits, s, t, f);
      MergedFieldIsReviewed(fold, c, s, t, f);
    }
    LastReviewMoves(c.audits, s, t, Date);
    LastDecisionMoves(c.audits, s, t);
    if LastDecided(MovedAudits(c.audits, s, t), t).Some? {
      MergedPublicationIsDecided(fold, c, s, t);
    }
  }

  lemma OtherReviewHeld(audits: seq<Audit>, s: Id, t: Id, id: Id, e: Event)
    requires id != s && id != t && ReviewHeld(audits, id, e)
    ensures ReviewHeld(MovedAudits(audits, s, t), id, e)
  {
    hide LastReviewed, LastDecided, DayOnly, MovedAudits;
    forall f: Field
      ensures LastReviewed(MovedAudits(audits, s, t), id, f) == LastReviewed(audits, id, f)
      ensures LastDecided(MovedAudits(audits, s, t), id) == LastDecided(audits, id)
    {
      OthersReviewsKept(audits, s, t, id, f);
    }
  }

  /** Automatic writes leave every reviewed field and every decided publication as they are. */
  lemma SaveHoldsReview(c: Catalog, id: Id, incoming: map<Field, Value>, missingName: bool, computed: Publication)
    requires EventsInv(c) && ReviewedInv(c) && id in c.events && Complete(incoming)
    ensures ReviewHeld(c.audits, id, SavedEvent(c, id, incoming, missingName, computed))
  {
    hide LastReviewed, LastDecided, Protected, DayOnly;
    assert ReviewHeld(c.audits, id, c.events[id]);
    forall f: Field
      ensures Protected(c.audits, id, f) <==> LastReviewed(c.audits, id, f).Some?
    {
      ReviewedIsProtected(c.audits, id, f);
    }
  }

  lemma LinkHoldsReview(c: Catalog, id: Id, promote: bool, earlier: map<Field, Value>, incoming: map<Field, Value>,
                        missingName: bool, computed: Publication, identity: Identity)
    requires EventsInv(c) && ReviewedInv(c) && id in c.events && Complete(earlier) && Complete(incoming)
    ensures ReviewHeld(c.audits, id, LinkedEvent(c, id, promote, earlier, incoming, missingName, computed, identity))
  {
    hide LastReviewed, LastDecided, Protected, DayOnly, Proposed;
    assert ReviewHeld(c.audits, id, c.events[id]);
    forall f: Field
      ensures Protected(c.audits, id, f) <==> LastReviewed(c.audits, id, f).Some?
    {
      ReviewedIsProtected(c.audits, id, f);
    }
  }

  lemma EnrichHoldsReview(c: Catalog, id: Id, primary: bool, incoming: map<Field, Value>)
    requires EventsInv(c) && ReviewedInv(c) && id in c.events && Complete(incoming)
    ensures ReviewHeld(c.audits, id, EnrichedEvent(c, id, primary, incoming))
  {
    hide LastReviewed, LastDecided, Protected, DayOnly;
    assert ReviewHeld(c.audits, id, c.events[id]);
    forall f: Field
      ensures Protected(c.audits, id, f) <==> LastReviewed(c.audits, id, f).Some?
    {
      ReviewedIsProtected(c.audits, id, f);
    }
  }

  lemma {:induction false} AppendedReview(audits: seq<Audit>, a: Audit, id: Id, f: Field)
    ensures LastReviewed(audits + [a], id, f) ==
            if Names(a, id, f) then Some(a.changes[f]) else LastReviewed(audits, id, f)
    ensures LastDecided(audits + [a], id) ==
            if !NamesPublication(a, id) then LastDecided(audits, id)
            else if a.Review? then a.publication else Some(a.decided)
  {
    assert (audits + [a])[..|audits|] == audits;
  }

  lemma NewIdHasNoAudits(audits: seq<Audit>, events: map<Id, Event>, id: Id, f: Field)
    requires forall i :: 0 <= i < |audits| ==> audits[i].eventId in events
    requires id !in events
    ensures LastReviewed(audits, id, f) == None && LastDecided(audits, id) == None
  {
    ReviewedIsProtected(audits, id, f);
    DecidedIsProtected(audits, id);
  }

  lemma OneEventWritten(c: Catalog, d: Catalog, id: Id)
    requires ReviewedInv(c) && d.audits == c.audits && d.events.Keys == c.events.Keys + {id}
    requires forall e :: e in c.events && e != id ==> d.events[e] == c.events[e]
    requires ReviewHeld(c.audits, id, d.events[id])
    ensures ReviewedInv(d)
  {
    hide ReviewHeld;
  }

  lemma NewEventHoldsReview(c: Catalog, id: Id, e: Event)
    requires ReviewedInv(c) && id !in c.events
    ensures ReviewHeld(c.audits, id, e)
  {
    hide LastReviewed, LastDecided, DayOnly;
    forall f: Field
      ensures LastReviewed(c.audits, id, f) == None && LastDecided(c.audits, id) == None
    {
      NewIdHasNoAudits(c.audits, c.events, id, f);
    }
  }

  /** A review or a publication decision makes the value it sets the last reviewed one. */
  lemma AdministrativeKeepsReviewed(c: Catalog, d: Catalog, audit: Audit)
    requires ReviewedInv(c) && audit.eventId in c.events && d.audits == c.audits + [audit]
    requires audit.eventId in d.events && d.events == c.events[audit.eventId := d.events[audit.eventId]]
    requires audit.Review? ==> (Date in audit.changes ==> DayOnly(audit.changes[Date]) == audit.changes[Date])
                               && d.events[audit.eventId] == ReviewedEvent(c.events[audit.eventId], audit.changes, audit.publication)
    requires audit.PublicationDecision? ==>
               d.events[audit.eventId] == c.events[audit.eventId].(publication := audit.decided, administrativeReview := true)
    ensures ReviewedInv(d)
  {
    hide LastReviewed, LastDecided, DayOnly;
    forall e | e in d.events
      ensures ReviewHeld(d.audits, e, d.events[e])
    {
      assert ReviewHeld(c.audits, e, c.events[e]);
      forall f: Field
        ensures LastReviewed(d.audits, e, f) == if Names(audit, e, f) then Some(audit.changes[f]) else LastReviewed(c.audits, e, f)
        ensures LastDecided(d.audits, e) ==
                if !NamesPublication(audit, e) then LastDecided(c.audits, e)
                else if audit.Review? then audit.publication else Some(audit.decided)
      {
        AppendedReview(c.audits, audit, e, f);
      }
    }
  }

  lemma StepKeepsReviewed(c: Catalog, a: Action)
    requires EventsInv(c) && ReviewedInv(c)
    ensures ReviewedInv(Step(c, a))
  {
    hide Compatible, ReviewHeld, MovedReferences, Mergeable, IsBearer, SlugFree, UpsertReference, DayOnly, Merge,
      SavedEvent, LinkedEvent, EnrichedEvent, ReviewedInv, ReviewedEvent, Crawl, Demoted;
    if Commits(c, a) {
      match a
      case DoMerge(fold, source, target) =>
        MergeKeepsReviewed(fold, c, Resolve(c.aliases, source), Resolve(c.aliases, target));
      case DoSave(id, incoming, missingName, computed) =>
        SaveHoldsReview(c, id, incoming, missingName, computed);
        OneEventWritten(c, Step(c, a), id);
      case DoLink(id, promote, earlier, incoming, missingName, computed, identity) =>
        LinkHoldsReview(c, id, promote, earlier, incoming, missingName, computed, identity);
        OneEventWritten(c, Step(c, a), id);
      case DoEnrich(id, primary, incoming) =>
        EnrichHoldsReview(c, id, primary, incoming);
        OneEventWritten(c, Step(c, a), id);
      case DoReview(_, _, _) => AdministrativeKeepsReviewed(c, Step(c, a), Step(c, a).audits[|c.audits|]);
      case DoDecide(_, _) => AdministrativeKeepsReviewed(c, Step(c, a), Step(c, a).audits[|c.audits|]);
      case DoCreate(_, _) => CreationKeepsReviewed(c, a);
      case DoCrawl(_, _, _, _) => CreationKeepsReviewed(c, a);
      case _ => SameEventsAndAudits(c, Step(c, a));
    }
  }

  lemma CreationKeepsReviewed(c: Catalog, a: Action)
    requires EventsInv(c) && ReviewedInv(c) && Commits(c, a) && (a.DoCreate? || a.DoCrawl?)
    ensures ReviewedInv(Step(c, a))
  {
    hide ReviewHeld, IsBearer, SlugFree, DayOnly, ReviewedInv;
    match a
    case DoCreate(n, event) =>
      NewEventHoldsReview(c, Generated(n), event);
      OneEventWritten(c, Step(c, a), Generated(n));
    case DoCrawl(identity, _, event, _) =>
      if CrawlOutcome(c, identity, a.bearer).Created? {
        NewEventHoldsReview(c, Derived(identity), event.(identity := Some(identity)));
        OneEventWritten(c, Step(c, a), Derived(identity));
      } else {
        SameEventsAndAudits(c, Step(c, a));
      }
  }

  lemma SameEventsAndAudits(c: Catalog, d: Catalog)
    requires ReviewedInv(c) && d.events == c.events && d.audits == c.audits
    ensures ReviewedInv(d)
  {
  }

  // --- Every run ----------------------------------------------------------------------------

  lemma StepKeepsInv(c: Catalog, a: Action)
    requires Inv(c)
    ensures Inv(Step(c, a))
  {
    hide Step, ReferencesInv, OwnedInv, SlugsInv, MergesInv, ReviewedInv;
    StepKeepsEvents(c, a);
    StepKeepsReferences(c, a);
    StepKeepsOwned(c, a);
    StepKeepsSlugs(c, a);
    StepKeepsMerges(c, a);
    StepKeepsReviewed(c, a);
  }

  lemma {:induction false} RunKeepsInv(actions: seq<Action>)
    ensures Inv(Run(actions))
  {
    hide Step;
    if actions != [] {
      RunKeepsInv(actions[..|actions| - 1]);
      StepKeepsInv(Run(actions[..|actions| - 1]), actions[|actions| - 1]);
    }
  }

  // --- The promises -------------------------------------------------------------------------

  /** One hop of the alias table decides whether two ids were ever merged together, directly or
      through others; the hop always lands on a live edition when the id ever existed. */
  lemma AliasTableIsUnionFind(actions: seq<Action>, x: Id, y: Id)
    ensures var c := Run(actions);
            && (Resolve(c.aliases, x) == Resolve(c.aliases, y) <==> Connected(c.reconciliations, x, y))
            && Resolve(c.aliases, Resolve(c.aliases, x)) == Resolve(c.aliases, x)
            && (x in c.aliases || x in c.events ==> Resolve(c.aliases, x) in c.events)
            && !(x in c.aliases && x in c.events)
  {
    hide Run, ReferencesInv, OwnedInv, SlugsInv, ReviewedInv, Connected;
    RunKeepsInv(actions);
    var c := Run(actions);
    if Connected(c.reconciliations, x, y) {
      ConnectedResolveAlike(c, x, y);
    }
    if Resolve(c.aliases, x) == Resolve(c.aliases, y) {
      ResolvedAlikeConnected(c, x, y);
    }
  }

  lemma ConnectedResolveAlike(c: Catalog, x: Id, y: Id)
    requires MergesInv(c) && Connected(c.reconciliations, x, y)
    ensures Resolve(c.aliases, x) == Resolve(c.aliases, y)
  {
    var chain :| IsChain(c.reconciliations, chain) && chain[0] == x && chain[|chain| - 1] == y;
    ChainResolvesAlike(c, chain, |chain| - 1);
  }

  lemma {:induction false} ChainResolvesAlike(c: Catalog, chain: seq<Id>, n: nat)
    requires MergesInv(c) && IsChain(c.reconciliations, chain) && n < |chain|
    ensures Resolve(c.aliases, chain[0]) == Resolve(c.aliases, chain[n])
  {
    hide Connected;
    if n > 0 {
      ChainResolvesAlike(c, chain, n - 1);
      assert Joined(c.reconciliations, chain[n - 1], chain[n]);
    }
  }

  lemma ResolvedAlikeConnected(c: Catalog, x: Id, y: Id)
    requires MergesInv(c) && Resolve(c.aliases, x) == Resolve(c.aliases, y)
    ensures Connected(c.reconciliations, x, y)
  {
    ConnectedToResolution(c, x);
    ConnectedToResolution(c, y);
    var chain :| IsChain(c.reconciliations, chain) && chain[0] == y && chain[|chain| - 1] == Resolve(c.aliases, y);
    ChainBackTo(c.reconciliations, x, chain);
  }

  lemma ChainBackTo(merges: seq<(Id, Id)>, x: Id, chain: seq<Id>)
    requires IsChain(merges, chain) && Connected(merges, x, chain[|chain| - 1])
    ensures Connected(merges, x, chain[0])
  {
    ConnectedBackwards(merges, chain);
    var back :| IsChain(merges, back) && back[0] == chain[|chain| - 1] && back[|back| - 1] == chain[0];
    ConnectedAlong(merges, x, back);
  }

  lemma ConnectedToResolution(c: Catalog, x: Id)
    requires MergesInv(c)
    ensures Connected(c.reconciliations, x, Resolve(c.aliases, x))
  {
    if x !in c.aliases {
      ConnectedToItself(c.reconciliations, x);
    }
  }

  /** Results, checkpoints, exports and every other row stay on the edition that the id they were
      created for resolves to. */
  lemma RowsFollowTheirEdition(actions: seq<Action>, row: string)
    requires row in Run(actions).owned
    ensures var c := Run(actions);
            c.owned[row].eventId == Resolve(c.aliases, c.owned[row].createdFor) && c.owned[row].eventId in c.events
  {
    hide Run;
    RunKeepsInv(actions);
  }

  /** The edition a public slug leads to: a live event's own slug, or a merged edition's old one. */
  ghost predicate LeadsTo(c: Catalog, slug: string, id: Id) {
    || (id in c.events && c.events[id].slug == slug)
    || ((forall e :: e in c.events ==> c.events[e].slug != slug)
        && exists a :: a in c.aliases && c.aliases[a].oldSlug == slug && c.aliases[a].target == id)
  }

  /** A slug leads to at most one edition, and a merged edition's slug leads where its id does. */
  lemma SlugsFollowTheirEdition(actions: seq<Action>, slug: string, a: Id, x: Id, y: Id)
    ensures var c := Run(actions);
            && (LeadsTo(c, slug, x) && LeadsTo(c, slug, y) ==> x == y)
            && (a in c.aliases ==> LeadsTo(c, c.aliases[a].oldSlug, Resolve(c.aliases, a)))
  {
    hide Run, MergesInv, ReviewedInv, OwnedInv, ReferencesInv;
    RunKeepsInv(actions);
  }

  /** A crawler never meets a reserved id: once an identity has been crawled its reference exists
      for good, so the crawl takes the existing-reference branch even after merges. */
  lemma CrawlIsNeverRefused(actions: seq<Action>, identity: Identity, bearer: Option<Id>)
    ensures var c := Run(actions);
            && !CrawlOutcome(c, identity, bearer).Refused?
            && (Derived(identity) in c.aliases ==> CrawlOutcome(c, identity, bearer).Seen?)
  {
    hide Run, MergesInv, ReviewedInv, OwnedInv, SlugsInv, UniqueIdentities;
    RunKeepsInv(actions);
  }

  predicate Automatic(a: Action) {
    !a.DoReview? && !a.DoDecide?
  }

  lemma QuietStep(c: Catalog, a: Action)
    requires EventsInv(c) && Automatic(a) && !(a.DoMerge? && Commits(c, a))
    ensures Step(c, a).audits == c.audits && Step(c, a).aliases == c.aliases
    ensures c.events.Keys <= Step(c, a).events.Keys
  {
    hide Compatible, IsBearer, SlugFree, UpsertReference, SavedEvent, LinkedEvent, EnrichedEvent, Known;
  }

  lemma MergeMovesReview(fold: string -> string, c: Catalog, s: Id, t: Id, id: Id, f: Field, v: Value)
    requires Inv(c) && Compatible(fold, c, s, t)
    requires Resolve(c.aliases, id) in c.events && LastReviewed(c.audits, Resolve(c.aliases, id), f) == Some(v)
    ensures Mergeable(c, s, t)
    ensures var d := Merge(c, s, t);
            Resolve(d.aliases, id) in d.events && LastReviewed(d.audits, Resolve(d.aliases, id), f) == Some(v)
  {
    hide LastReviewed, LastDecided, Compatible, Mergeable, MergedEvent, Merge, ReferencesInv, OwnedInv, SlugsInv, MergesInv, ReviewedInv;
    CompatibleEditions(fold, c, s, t);
    MergeView(c, s, t);
    var e := Resolve(c.aliases, id);
    if e == s || e == t {
      MergedFieldIsReviewed(fold, c, s, t, f);
    } else {
      OthersReviewsKept(c.audits, s, t, e, f);
    }
  }

  lemma AutomaticStepKeepsReview(c: Catalog, a: Action, id: Id, f: Field, v: Value)
    requires Inv(c) && Automatic(a)
    requires Resolve(c.aliases, id) in c.events && LastReviewed(c.audits, Resolve(c.aliases, id), f) == Some(v)
    ensures Inv(Step(c, a))
    ensures Resolve(Step(c, a).aliases, id) in Step(c, a).events
    ensures LastReviewed(Step(c, a).audits, Resolve(Step(c, a).aliases, id), f) == Some(v)
  {
    StepKeepsInv(c, a);
    hide LastReviewed, Compatible, Mergeable, Merge, Inv, SavedEvent, LinkedEvent, EnrichedEvent, Crawl, SlugFree, IsBearer,
      Demoted, UpsertReference, ReviewedEvent;
    if a.DoMerge? && Commits(c, a) {
      MergeMovesReview(a.fold, c, Resolve(c.aliases, a.source), Resolve(c.aliases, a.target), id, f, v);
    } else {
      QuietStep(c, a);
    }
  }

  ghost function Continue(c: Catalog, actions: seq<Action>): (d: Catalog)
    requires EventsInv(c)
    ensures EventsInv(d)
  {
    if actions == [] then c
    else
      var before := Continue(c, actions[..|actions| - 1]);
      StepKeepsEvents(before, actions[|actions| - 1]);
      Step(before, actions[|actions| - 1])
  }

  /** A reviewed field, deliberate nulls included, keeps its reviewed value through every sequence
      of automatic actions, on whatever edition the reviewed one has become. */
  lemma {:induction false} ReviewedFieldSurvives(c: Catalog, actions: seq<Action>, id: Id, f: Field, v: Value)
    requires Inv(c) && id in c.events && LastReviewed(c.audits, id, f) == Some(v)
    requires forall n :: 0 <= n < |actions| ==> Automatic(actions[n])
    ensures var d := Continue(c, actions);
            && Inv(d)
            && Resolve(d.aliases, id) in d.events
            && LastReviewed(d.audits, Resolve(d.aliases, id), f) == Some(v)
            && f in d.events[Resolve(d.aliases, id)].fields && d.events[Resolve(d.aliases, id)].fields[f] == v
  {
    hide Step, LastReviewed, LastDecided, ReferencesInv, OwnedInv, SlugsInv, MergesInv;
    if actions != [] {
      var n := |actions| - 1;
      ReviewedFieldSurvives(c, actions[..n], id, f, v);
      AutomaticStepKeepsReview(Continue(c, actions[..n]), actions[n], id, f, v);
    }
  }

  /** Publications decided by an administrator survive every sequence of automatic actions too. */
  lemma DecidedPublicationHolds(actions: seq<Action>, id: Id)
    requires id in Run(actions).events && LastDecided(Run(actions).audits, id).Some?
    ensures Run(actions).events[id].publication == LastDecided(Run(actions).audits, id).value
  {
    hide Run, LastDecided;
    RunKeepsInv(actions);
  }
}
