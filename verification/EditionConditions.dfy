/**
 What each change of the catalogue leaves in an edition, value by value and said of the stored rows alone:
 which values a merge keeps, what an extraction may replace, and what nobody but a review touches.
 */
module EditionConditions {
  import opened Wrappers
  import opened EditionCatalog
  import opened EditionMerging
  import opened EditionHistory
  import Evidence = EditionEvidence

  /** A value that says something: not missing, empty or unknown. */
  ghost predicate Says(v: Value) {
    v.Some? && v.value != "" && v.value != "unknown"
  }

  /** Some review of the edition set the field. */
  ghost predicate WasReviewed(audits: seq<Audit>, id: Id, f: Field) {
    exists i :: 0 <= i < |audits| && audits[i].Review? && audits[i].eventId == id && f in audits[i].changes
  }

  /** Some review or decision settled the edition's publication. */
  ghost predicate WasDecided(audits: seq<Audit>, id: Id) {
    exists i :: 0 <= i < |audits| && audits[i].eventId == id && (audits[i].PublicationDecision? || audits[i].publication.Some?)
  }

  lemma SameProtection(audits: seq<Audit>, id: Id, f: Field)
    ensures WasReviewed(audits, id, f) <==> Protected(audits, id, f)
    ensures WasDecided(audits, id) <==> PublicationProtected(audits, id)
  {
    if i :| 0 <= i < |audits| && audits[i].Review? && audits[i].eventId == id && f in audits[i].changes {
      assert Names(audits[i], id, f);
    }
    if i :| 0 <= i < |audits| && audits[i].eventId == id && (audits[i].PublicationDecision? || audits[i].publication.Some?) {
      assert NamesPublication(audits[i], id);
    }
  }

  // --- Merging ------------------------------------------------------------------------------

  /** The reference that is left as the target's one primary was, before the merge, the reference it chose. */
  lemma SolePrimaryWasChosen(c: Catalog, s: Id, t: Id, i: nat)
    requires Mergeable(c, s, t) && UniqueIdentities(c.references) && SolePrimary(Merge(c, s, t).references, t, i)
    ensures i < |c.references| && c.references[i] == ChosenPrimary(c, s, t)
    ensures c.references[i].eventId == s || c.references[i].eventId == t
  {
    hide MovedAudits, MovedAliases, Protected, PublicationProtected, ReferencesOf, Primary;
    var chosen := ChosenPrimary(c, s, t);
    ReferencesOfMembers(c.references, s, chosen);
    ReferencesOfMembers(c.references, t, chosen);
    var k :| 0 <= k < |c.references| && c.references[k] == chosen;
    assert Merge(c, s, t).references[i] == MovedReference(c.references[i], s, t, chosen.identity);
  }

  /** An unreviewed field of the merged edition: what the owner of the one primary reference says; failing
      that, what the other edition says. So what either edition said is never lost to silence. */
  lemma MergeKeepsWhatIsSaid(c: Catalog, s: Id, t: Id, i: nat, f: Field)
    requires Mergeable(c, s, t) && UniqueIdentities(c.references) && SolePrimary(Merge(c, s, t).references, t, i)
    requires !WasReviewed(c.audits, s, f) && !WasReviewed(c.audits, t, f)
    ensures i < |c.references| && t in Merge(c, s, t).events && f in Merge(c, s, t).events[t].fields
    ensures var owner, merged := c.references[i].eventId, Merge(c, s, t).events[t].fields[f];
            && (owner == s || owner == t)
            && var other := if owner == s then t else s;
            && (Says(c.events[owner].fields[f]) ==> merged == c.events[owner].fields[f])
            && (!Says(c.events[owner].fields[f]) && Says(c.events[other].fields[f]) ==> merged == c.events[other].fields[f])
            && (!Says(c.events[owner].fields[f]) && !Says(c.events[other].fields[f]) ==> merged == c.events[s].fields[f])
            && (Says(c.events[s].fields[f]) || Says(c.events[t].fields[f]) ==> Says(merged))
  {
    hide ReferencesOf, Primary, Protected, PublicationProtected, SolePrimary, UniqueIdentities, WasReviewed, MovedReferences,
      ChosenPrimary;
    SolePrimaryWasChosen(c, s, t, i);
    SameProtection(c.audits, s, f);
    SameProtection(c.audits, t, f);
    MergeView(c, s, t);
  }

  /** A reviewed field keeps the target's reviewed value or, if only the source was reviewed, the source's. */
  lemma MergeKeepsReviewed(c: Catalog, s: Id, t: Id, f: Field)
    requires Mergeable(c, s, t) && (WasReviewed(c.audits, s, f) || WasReviewed(c.audits, t, f))
    ensures t in Merge(c, s, t).events && f in Merge(c, s, t).events[t].fields
    ensures Merge(c, s, t).events[t].fields[f] == c.events[if WasReviewed(c.audits, t, f) then t else s].fields[f]
  {
    hide ReferencesOf, Primary, Protected, PublicationProtected, WasReviewed, MovedReferences, ChosenPrimary;
    SameProtection(c.audits, s, f);
    SameProtection(c.audits, t, f);
    MergeView(c, s, t);
  }

  /** A decided publication stands, the target's before the source's; otherwise the merged edition is
      published if and only if either was, and stands as the target did if not. */
  lemma MergedPublicationIs(c: Catalog, s: Id, t: Id)
    requires Mergeable(c, s, t)
    ensures t in Merge(c, s, t).events
    ensures var merged, source, target := Merge(c, s, t).events[t], c.events[s], c.events[t];
            && (WasDecided(c.audits, t) ==> merged.publication == target.publication)
            && (!WasDecided(c.audits, t) && WasDecided(c.audits, s) ==> merged.publication == source.publication)
            && (!WasDecided(c.audits, t) && !WasDecided(c.audits, s) ==>
                  && (merged.publication == Published <==> source.publication == Published || target.publication == Published)
                  && (merged.publication != Published ==> merged.publication == target.publication))
            && (merged.administrativeReview <==> source.administrativeReview || target.administrativeReview)
            && merged.slug == target.slug
  {
    hide ReferencesOf, Primary, Protected, PublicationProtected, WasDecided, MovedReferences, ChosenPrimary, MergedField;
    SameProtection(c.audits, s, Name);
    SameProtection(c.audits, t, Name);
    MergeView(c, s, t);
  }

  lemma {:induction false} PrimaryIsFirst(references: seq<Reference>) returns (k: nat)
    requires references != []
    ensures k < |references| && references[k] == Primary(references)
    ensures forall j :: 0 <= j < k ==> Priority(references[j].identity.sourceType) < Priority(references[k].identity.sourceType)
  {
    var n := |references| - 1;
    if n == 0 {
      k := 0;
    } else {
      k := PrimaryIsFirst(references[..n]);
      assert forall j :: 0 <= j < n ==> references[..n][j] == references[j] && references[j] in references[..n];
      if Priority(references[n].identity.sourceType) > Priority(references[k].identity.sourceType) {
        k := n;
      }
    }
  }

  /** Among the references of both editions a TicketSports one becomes the primary, failing that an official
      one, failing that a CorridasBR one; and a reference of the source only if the target has none of
      that kind. */
  lemma PrimaryBySource(c: Catalog, s: Id, t: Id, i: nat)
    requires Mergeable(c, s, t) && UniqueIdentities(c.references) && SolePrimary(Merge(c, s, t).references, t, i)
    ensures i < |c.references|
    ensures var kind := c.references[i].identity.sourceType;
            && (kind != "ticketsports" ==> !HasKind(c, s, "ticketsports") && !HasKind(c, t, "ticketsports"))
            && (kind != "ticketsports" && kind != "official" ==> !HasKind(c, s, "official") && !HasKind(c, t, "official"))
            && (kind != "ticketsports" && kind != "official" && kind != "corridasbr" ==>
                  !HasKind(c, s, "corridasbr") && !HasKind(c, t, "corridasbr"))
            && (c.references[i].eventId == s ==> !HasKind(c, t, kind))
  {
    hide Primary, Merge, UniqueIdentities, SolePrimary, ReferencesOf, Priority;
    SolePrimaryWasChosen(c, s, t, i);
    forall r | r in c.references && (r.eventId == s || r.eventId == t)
      ensures Priority(r.identity.sourceType) <= Priority(c.references[i].identity.sourceType)
      ensures c.references[i].eventId == s && r.eventId == t ==>
                Priority(r.identity.sourceType) < Priority(c.references[i].identity.sourceType)
    {
      TargetFirst(c, s, t, r);
    }
    PrioritiesRank();
  }

  lemma PrioritiesRank()
    ensures forall kind :: kind == "ticketsports" <==> Priority(kind) == 100
    ensures forall kind :: kind == "official" <==> Priority(kind) == 80
    ensures forall kind :: kind == "corridasbr" <==> Priority(kind) == 50
    ensures forall kind :: Priority(kind) in {100, 80, 50, 10}
  {
    assert "official"[0] != "ticketsports"[0] && "corridasbr"[0] != "ticketsports"[0] && "corridasbr"[0] != "official"[0];
  }

  lemma TargetFirst(c: Catalog, s: Id, t: Id, r: Reference)
    requires Mergeable(c, s, t) && r in c.references && (r.eventId == s || r.eventId == t)
    ensures Priority(r.identity.sourceType) <= Priority(ChosenPrimary(c, s, t).identity.sourceType)
    ensures ChosenPrimary(c, s, t).eventId == s && r.eventId == t ==>
              Priority(r.identity.sourceType) < Priority(ChosenPrimary(c, s, t).identity.sourceType)
  {
    hide Primary, Priority;
    var own, others := ReferencesOf(c.references, t), ReferencesOf(c.references, s);
    ReferencesOfMembers(c.references, s, r);
    ReferencesOfMembers(c.references, t, r);
    assert r in own + others;
    var k := PrimaryIsFirst(own + others);
    if ChosenPrimary(c, s, t).eventId == s && r.eventId == t {
      var j :| 0 <= j < |own| && own[j] == r;
      assert (own + others)[j] == r;
      assert k >= |own|;
    }
  }

  ghost predicate HasKind(c: Catalog, id: Id, kind: string) {
    exists r :: r in c.references && r.eventId == id && r.identity.sourceType == kind
  }

  // --- Extractions --------------------------------------------------------------------------

  /** The first ten characters of a stored date; other values as they are. */
  ghost predicate StaysAs(f: Field, stored: Value, result: Value) {
    if f.Date? && stored.Some? && |stored.value| > 10 then result == Some(stored.value[..10]) else result == stored
  }

  ghost predicate Filled(v: Value) {
    v.Some? && v.value != ""
  }

  /** A present value replaces the stored one, except a name reported missing and an unknown modality over
      a known one. */
  ghost predicate Replaces(f: Field, offered: Value, stored: Value, missingName: bool) {
    && Filled(offered)
    && !(f.Name? && missingName && stored.Some?)
    && !(f.Modality? && offered.value == "unknown" && stored.Some? && stored.value != "unknown")
  }

  /** What an unreviewed field holds after an extraction offered a value. */
  ghost predicate Refreshed(f: Field, offered: Value, stored: Value, missingName: bool, result: Value) {
    && (Replaces(f, offered, stored, missingName) ==> result == offered)
    && (!Replaces(f, offered, stored, missingName) && stored.Some? ==> StaysAs(f, stored, result))
    && (!Replaces(f, offered, stored, missingName) && stored.None? ==> result == offered)
    && (Filled(stored) ==> Filled(result))
  }

  lemma PreservedRefreshes(audits: seq<Audit>, id: Id, f: Field, offered: map<Field, Value>, stored: map<Field, Value>, missingName: bool)
    requires Complete(stored) && Complete(offered)
    ensures !WasReviewed(audits, id, f) ==>
              Refreshed(f, offered[f], stored[f], missingName, Preserved(audits, id, stored, offered, missingName)[f])
    ensures WasReviewed(audits, id, f) ==> StaysAs(f, stored[f], Preserved(audits, id, stored, offered, missingName)[f])
  {
    hide Protected, WasReviewed;
    SameProtection(audits, id, f);
  }

  /** Only this edition's row changed, and of it only fields, publication and identity. */
  ghost predicate OnlyRow(c: Catalog, d: Catalog, id: Id) {
    && id in c.events && id in d.events && d.events == c.events[id := d.events[id]]
    && d == c.(events := d.events, references := d.references)
    && d.events[id].slug == c.events[id].slug && d.events[id].administrativeReview == c.events[id].administrativeReview
    && Complete(d.events[id].fields)
  }

  ghost predicate Shielded(e: Event) {
    e.administrativeReview || e.publication == Hidden || e.publication == Rejected
  }

  /** A later extraction of the same source refreshes each unreviewed field, leaves each reviewed one, and
      changes the publication unless it was reviewed, hidden or rejected. */
  lemma SaveLeaves(c: Catalog, a: Action, f: Field)
    requires EventsInv(c) && a.DoSave? && Commits(c, a)
    ensures var d := Step(c, a);
            && OnlyRow(c, d, a.id) && d.references == c.references && d.events[a.id].identity == c.events[a.id].identity
            && var stored, result := c.events[a.id].fields[f], d.events[a.id].fields[f];
            && (!WasReviewed(c.audits, a.id, f) ==> Refreshed(f, a.incoming[f], stored, a.missingName, result))
            && (WasReviewed(c.audits, a.id, f) ==> StaysAs(f, stored, result))
            && d.events[a.id].publication == if Shielded(c.events[a.id]) then c.events[a.id].publication else a.computed
  {
    hide Preserved, Refreshed, WasReviewed, StaysAs, Complete;
    PreservedRefreshes(c.audits, a.id, f, a.incoming, c.events[a.id].fields, a.missingName);
    KeptComplete(c.audits, a.id, c.events[a.id].fields, a.incoming, a.missingName);
  }

  lemma KeptComplete(audits: seq<Audit>, id: Id, stored: map<Field, Value>, offered: map<Field, Value>, missingName: bool)
    requires Complete(stored) && Complete(offered)
    ensures Complete(Preserved(audits, id, stored, offered, missingName))
  {
  }

  /** What a promoted source offers: its own value, or the value read earlier where it has none; a name,
      modality and status it offers as they come. */
  ghost predicate OfferedByPromotion(f: Field, earlier: Value, incoming: Value, offered: Value) {
    if f == Name || f == Modality || f == EventStatus || incoming.Some? then offered == incoming else offered == earlier
  }

  /** A promoted source refreshes each unreviewed field, names the event, and takes the primary role from
      every reference of the edition, and from no other. */
  lemma PromotionLeaves(c: Catalog, a: Action, f: Field) returns (offered: Value)
    requires EventsInv(c) && a.DoLink? && a.promote && Commits(c, a)
    ensures OfferedByPromotion(f, a.earlier[f], a.incoming[f], offered)
    ensures var d := Step(c, a);
            && OnlyRow(c, d, a.id) && d.events[a.id].identity == Some(a.identity)
            && var stored, result := c.events[a.id].fields[f], d.events[a.id].fields[f];
            && (!WasReviewed(c.audits, a.id, f) ==> Refreshed(f, offered, stored, a.missingName, result))
            && (WasReviewed(c.audits, a.id, f) ==> StaysAs(f, stored, result))
            && d.events[a.id].publication == (if Shielded(c.events[a.id]) then c.events[a.id].publication else a.computed)
            && |d.references| == |c.references|
            && (forall i :: 0 <= i < |c.references| ==>
                  d.references[i] == if c.references[i].eventId == a.id then c.references[i].(primary := false) else c.references[i])
  {
    hide Preserved, Refreshed, WasReviewed, StaysAs, Complete;
    var proposal := Proposal(true, a.earlier, a.incoming);
    offered := ProposedAt(true, a.earlier, a.incoming, f);
    PreservedRefreshes(c.audits, a.id, f, proposal, c.events[a.id].fields, a.missingName);
    KeptComplete(c.audits, a.id, c.events[a.id].fields, proposal, a.missingName);
  }

  lemma ProposedAt(promote: bool, earlier: map<Field, Value>, incoming: map<Field, Value>, f: Field) returns (offered: Value)
    requires Complete(earlier) && Complete(incoming)
    ensures Complete(Proposal(promote, earlier, incoming)) && offered == Proposal(promote, earlier, incoming)[f]
    ensures offered == Proposed(f, promote, earlier[f], incoming[f])
  {
    offered := Proposal(promote, earlier, incoming)[f];
  }

  /** A supplemental source leaves name, date, modality and status alone and offers the other fields only
      where the edition had no value when it was read; nothing else of the edition changes. */
  lemma SupplementLeaves(c: Catalog, a: Action, f: Field)
    requires EventsInv(c) && a.DoLink? && !a.promote && Commits(c, a)
    ensures var d := Step(c, a);
            && OnlyRow(c, d, a.id) && d.references == c.references
            && d.events[a.id] == c.events[a.id].(fields := d.events[a.id].fields)
            && var stored, result := c.events[a.id].fields[f], d.events[a.id].fields[f];
            && (f in {Name, Date, Modality, EventStatus} || WasReviewed(c.audits, a.id, f) ==> result == stored)
            && (f !in {Name, Date, Modality, EventStatus} && !WasReviewed(c.audits, a.id, f) ==>
                  Refreshed(f, if a.earlier[f].Some? then a.earlier[f] else a.incoming[f], stored, a.missingName, result))
  {
    hide Preserved, Refreshed, WasReviewed, Complete;
    var proposal := Proposal(false, a.earlier, a.incoming);
    var offered := ProposedAt(false, a.earlier, a.incoming, f);
    PreservedRefreshes(c.audits, a.id, f, proposal, c.events[a.id].fields, a.missingName);
    SupplementComplete(c, a);
  }

  lemma SupplementComplete(c: Catalog, a: Action)
    requires EventsInv(c) && a.DoLink? && !a.promote && Commits(c, a)
    ensures a.id in Step(c, a).events && Complete(Step(c, a).events[a.id].fields)
  {
    hide Preserved;
  }

  /** So a supplemental source, when nothing changed since it read the edition, only fills gaps. */
  lemma SupplementFillsGaps(c: Catalog, a: Action, f: Field)
    requires EventsInv(c) && a.DoLink? && !a.promote && Commits(c, a)
    requires a.earlier[f] == c.events[a.id].fields[f]
    ensures a.id in Step(c, a).events && f in Step(c, a).events[a.id].fields
    ensures c.events[a.id].fields[f].Some? ==> Step(c, a).events[a.id].fields[f] == c.events[a.id].fields[f]
    ensures c.events[a.id].fields[f].None? && f !in {Name, Date, Modality, EventStatus} && !WasReviewed(c.audits, a.id, f)
            && Filled(a.incoming[f]) ==>
              Step(c, a).events[a.id].fields[f] == a.incoming[f]
  {
    hide Step, WasReviewed;
    SupplementLeaves(c, a, f);
  }

  /** OpenResults metadata writes ten fields only, never a reviewed one and never with nothing: as primary
      source it replaces, otherwise it fills a missing value or an unknown modality. */
  lemma EnrichmentLeaves(c: Catalog, a: Action, f: Field)
    requires EventsInv(c) && a.DoEnrich? && Commits(c, a)
    ensures var d := Step(c, a);
            && OnlyRow(c, d, a.id) && d.references == c.references
            && d.events[a.id] == c.events[a.id].(fields := d.events[a.id].fields)
            && var stored, offered, result := c.events[a.id].fields[f], a.incoming[f], d.events[a.id].fields[f];
            && var written :=
                 && f in {Name, Date, City, State, Country, Modality, Description, MainImageUrl, LocationName, Address}
                 && !WasReviewed(c.audits, a.id, f) && Filled(offered)
                 && (a.primary || (if f == Modality then stored == Some("unknown") else stored.None?));
            && result == if written then offered else stored
  {
    hide EnrichedField, WasReviewed;
    EnrichedFieldIs(c.audits, a.id, f, a.primary, a.incoming[f], c.events[a.id].fields[f]);
  }

  lemma EnrichedFieldIs(audits: seq<Audit>, id: Id, f: Field, primary: bool, offered: Value, stored: Value)
    ensures EnrichedField(f, Protected(audits, id, f), primary, offered, stored) ==
            if f in {Name, Date, City, State, Country, Modality, Description, MainImageUrl, LocationName, Address}
               && !WasReviewed(audits, id, f) && Filled(offered)
               && (primary || (if f == Modality then stored == Some("unknown") else stored.None?))
            then offered else stored
  {
    hide Protected, WasReviewed;
    SameProtection(audits, id, f);
  }

  // --- Reviews and crawls -------------------------------------------------------------------

  /** A review sets exactly the fields it names, and the publication if it names one, on the edition its id
      leads to, and is recorded there. */
  lemma ReviewLeaves(c: Catalog, a: Action, id: Id, f: Field)
    requires EventsInv(c) && a.DoReview? && Commits(c, a)
    requires if a.requested in c.aliases then id == c.aliases[a.requested].target else id == a.requested
    ensures id in c.events
    ensures var d := Step(c, a);
            && id in d.events && f in d.events[id].fields
            && d == c.(events := c.events[id := d.events[id]], audits := c.audits + [Review(id, a.changes, a.publication)])
            && d.events[id].fields[f] == (if f in a.changes then a.changes[f] else c.events[id].fields[f])
            && d.events[id] == c.events[id].(fields := d.events[id].fields, administrativeReview := true,
                                             publication := if a.publication.Some? then a.publication.value else c.events[id].publication)
  {
  }

  /** A crawled identity that has a reference changes nothing. Otherwise it gets one, supplemental, on the
      event that bears the identity or, if none does, on a new event under its own id. */
  lemma CrawlLeaves(c: Catalog, a: Action)
    requires EventsInv(c) && ReferencesInv(c) && a.DoCrawl? && Commits(c, a)
    ensures var d := Step(c, a);
            && d.aliases == c.aliases && d.owned == c.owned && d.audits == c.audits && d.reconciliations == c.reconciliations
            && ((exists i :: 0 <= i < |c.references| && c.references[i].identity == a.identity) ==> d == c)
            && ((forall i :: 0 <= i < |c.references| ==> c.references[i].identity != a.identity) ==>
                  && |d.references| == |c.references| + 1 && d.references[..|c.references|] == c.references
                  && var new' := d.references[|c.references|];
                  && new'.identity == a.identity && new'.url == a.url && !new'.primary && new'.eventId in d.events
                  && d.events[new'.eventId].identity == Some(a.identity)
                  && (a.bearer.Some? ==> d.events == c.events && new'.eventId == a.bearer.value)
                  && (a.bearer.None? ==>
                        && new'.eventId == Derived(a.identity) && new'.eventId !in c.events && new'.eventId !in c.aliases
                        && d.events == c.events[new'.eventId := a.event.(identity := Some(a.identity))]))
  {
    hide UniqueIdentities, Complete, SlugFree;
  }

  /** Linking a reference puts the identity's one reference on the event with the given address and role. */
  lemma ReferenceLeaves(c: Catalog, a: Action)
    requires EventsInv(c) && ReferencesInv(c) && a.DoReference? && Commits(c, a)
    ensures var d, linked := Step(c, a), Reference(a.identity, a.id, a.url, a.primary);
            && d == c.(references := d.references)
            && (forall i :: 0 <= i < |c.references| ==>
                  i < |d.references| && d.references[i] == if c.references[i].identity == a.identity then linked else c.references[i])
            && (if exists i :: 0 <= i < |c.references| && c.references[i].identity == a.identity then |d.references| == |c.references|
                else |d.references| == |c.references| + 1 && d.references[|c.references|] == linked)
  {
    hide UniqueIdentities;
  }

  // --- Compatibility ------------------------------------------------------------------------

  /** Two editions may be merged exactly when both are live and named by some reference, their days agree and
      their places agree, none is hidden or rejected, no source names them differently, and no two reviews
      of a field or decisions of the publication disagree. */
  lemma CompatibleIff(fold: string -> string, c: Catalog, s: Id, t: Id)
    requires s in c.events && t in c.events && Complete(c.events[s].fields) && Complete(c.events[t].fields)
    ensures Compatible(fold, c, s, t) <==>
              && s != t
              && (exists r :: r in c.references && r.eventId == s) && (exists r :: r in c.references && r.eventId == t)
              && SameDay(c.events[s].fields[Date], c.events[t].fields[Date])
              && SamePlaceName(fold, c.events[s].fields[City], c.events[t].fields[City])
              && SamePlaceName(fold, c.events[s].fields[State], c.events[t].fields[State])
              && SamePlaceName(fold, c.events[s].fields[Country], c.events[t].fields[Country])
              && c.events[s].publication !in {Hidden, Rejected} && c.events[t].publication !in {Hidden, Rejected}
              && (forall q, r :: q in c.references && r in c.references && OfEither(q, s, t) && OfEither(r, s, t) ==> !Clash(q, r))
              && (forall f: Field :: WasReviewed(c.audits, s, f) && WasReviewed(c.audits, t, f) ==>
                                       c.events[s].fields[f] == c.events[t].fields[f])
              && (WasDecided(c.audits, s) && WasDecided(c.audits, t) ==> c.events[s].publication == c.events[t].publication)
  {
    hide ReferencesOf, Protected, PublicationProtected, WasReviewed, WasDecided, SameDay, SamePlaceName, Evidence.SamePlaceAndDay;
    forall f: Field
      ensures WasReviewed(c.audits, s, f) <==> Protected(c.audits, s, f)
      ensures WasReviewed(c.audits, t, f) <==> Protected(c.audits, t, f)
    {
      SameProtection(c.audits, s, f);
      SameProtection(c.audits, t, f);
    }
    SameProtection(c.audits, s, Name);
    SameProtection(c.audits, t, Name);
    HasReferences(c.references, s);
    HasReferences(c.references, t);
    ConflictIff(c.references, s, t);
    PlaceAndDayIff(fold, LocationOf(c.events[s].fields), LocationOf(c.events[t].fields));
  }

  /** Both dates are known and begin with the same ten characters. */
  ghost predicate SameDay(a: Value, b: Value) {
    && Filled(a) && Filled(b)
    && (if |a.value| > 10 then a.value[..10] else a.value) == (if |b.value| > 10 then b.value[..10] else b.value)
  }

  /** Both names are known and fold to the same text. */
  ghost predicate SamePlaceName(fold: string -> string, a: Value, b: Value) {
    a.Some? && b.Some? && fold(a.value) == fold(b.value) && fold(a.value) != ""
  }

  lemma PlaceAndDayIff(fold: string -> string, a: Evidence.Location, b: Evidence.Location)
    ensures Evidence.SamePlaceAndDay(fold, a, b) <==>
              && SameDay(a.date, b.date) && SamePlaceName(fold, a.city, b.city) && SamePlaceName(fold, a.state, b.state)
              && SamePlaceName(fold, a.country, b.country)
  {
  }

  lemma HasReferences(references: seq<Reference>, id: Id)
    ensures ReferencesOf(references, id) != [] <==> exists r :: r in references && r.eventId == id
  {
    if ReferencesOf(references, id) != [] {
      var r := ReferencesOf(references, id)[0];
      ReferencesOfMembers(references, id, r);
    }
    if r :| r in references && r.eventId == id {
      ReferencesOfMembers(references, id, r);
    }
  }

  ghost predicate OfEither(r: Reference, s: Id, t: Id) {
    r.eventId == s || r.eventId == t
  }

  /** One source names two different things. */
  ghost predicate Clash(q: Reference, r: Reference) {
    q.identity.sourceType == r.identity.sourceType && q.identity.externalId != r.identity.externalId
  }

  lemma ConflictIff(references: seq<Reference>, s: Id, t: Id)
    ensures IdentitiesConflict(ReferencesOf(references, s) + ReferencesOf(references, t)) <==>
            exists q, r :: q in references && r in references && OfEither(q, s, t) && OfEither(r, s, t) && Clash(q, r)
  {
    hide OfEither, Clash, ReferencesOf, IdentitiesConflict;
    var both := ReferencesOf(references, s) + ReferencesOf(references, t);
    forall r
      ensures r in both <==> r in references && OfEither(r, s, t)
    {
      InEither(references, s, t, r);
    }
    ConflictMembers(both);
  }

  lemma InEither(references: seq<Reference>, s: Id, t: Id, r: Reference)
    ensures r in ReferencesOf(references, s) + ReferencesOf(references, t) <==> r in references && OfEither(r, s, t)
  {
    ReferencesOfMembers(references, s, r);
    ReferencesOfMembers(references, t, r);
  }

  lemma ConflictMembers(both: seq<Reference>)
    ensures IdentitiesConflict(both) <==> exists q, r :: q in both && r in both && Clash(q, r)
  {
    if IdentitiesConflict(both) {
      var i, j :| 0 <= i < |both| && 0 <= j < |both| && both[i].identity.sourceType == both[j].identity.sourceType
        && both[i].identity.externalId != both[j].identity.externalId;
      assert both[i] in both && both[j] in both && Clash(both[i], both[j]);
    }
    if q, r :| q in both && r in both && Clash(q, r) {
      var i :| 0 <= i < |both| && both[i] == q;
      var j :| 0 <= j < |both| && both[j] == r;
    }
  }
}
