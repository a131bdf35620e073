/**
 Every way the catalogue of editions changes, and what every run of those changes keeps: one hop
 of the alias table is union-find over the performed merges, every row follows its edition, no
 crawled identity is ever created twice, and reviewed fields survive every automatic action.
 */
module EditionHistory {
  import opened Wrappers
  import opened EditionCatalog
  import opened EditionMerging

  // --- Saving extracted metadata ------------------------------------------------------------

  /** Stored dates come back as a calendar day. */
  function DayOnly(v: Value): Value {
    if v.Some? && |v.value| > 10 then Some(v.value[..10]) else v
  }

  /** One field of preserveValidatedMetadata: what an incoming value may replace. */
  function PreservedField(f: Field, isProtected: bool, incoming: Value, current: Value, missingName: bool): Value {
    var keep := isProtected || incoming.None? || incoming.value == "" || (f.Name? && missingName)
                || (f.Modality? && incoming.value == "unknown" && current != Some("unknown"));
    if keep && (isProtected || current.Some?) then (if f.Date? then DayOnly(current) else current) else incoming
  }

  function Preserved(audits: seq<Audit>, id: Id, current: map<Field, Value>, incoming: map<Field, Value>, missingName: bool)
    : (kept: map<Field, Value>)
    requires Complete(current) && Complete(incoming)
    ensures Complete(kept)
  {
    map f: Field | true :: PreservedField(f, Protected(audits, id, f), incoming[f], current[f], missingName)
  }

  function KeptPublication(e: Event, computed: Publication): Publication {
    if e.administrativeReview || Restricted(e.publication) then e.publication else computed
  }

  /** A later extraction of the same source. */
  function SavedEvent(c: Catalog, id: Id, incoming: map<Field, Value>, missingName: bool, computed: Publication): Event
    requires id in c.events && Complete(c.events[id].fields) && Complete(incoming)
  {
    var e := c.events[id];
    e.(fields := Preserved(c.audits, id, e.fields, incoming, missingName), publication := KeptPublication(e, computed))
  }

  /** Fields a promoted source takes as they come, without falling back on the stored value. */
  predicate TakenAsIs(f: Field) {
    f.Name? || f.Modality? || f.EventStatus?
  }

  /** Fields a supplemental source never touches. */
  predicate Untouched(f: Field) {
    f.Name? || f.Date? || f.Modality? || f.EventStatus?
  }

  /** The canonical event proposed from an earlier read of the row and the incoming extraction. */
  function Proposed(f: Field, promote: bool, earlier: Value, incoming: Value): Value {
    if promote then (if TakenAsIs(f) || incoming.Some? then incoming else earlier)
    else if TakenAsIs(f) || earlier.Some? then earlier
    else incoming
  }

  function Proposal(promote: bool, earlier: map<Field, Value>, incoming: map<Field, Value>): (p: map<Field, Value>)
    requires Complete(earlier) && Complete(incoming)
    ensures Complete(p)
  {
    map f: Field | true :: Proposed(f, promote, earlier[f], incoming[f])
  }

  /** An extraction of another source linked to the edition; only a higher-priority source promotes. */
  function LinkedEvent(c: Catalog, id: Id, promote: bool, earlier: map<Field, Value>, incoming: map<Field, Value>,
                       missingName: bool, computed: Publication, identity: Identity): Event
    requires id in c.events && Complete(c.events[id].fields) && Complete(earlier) && Complete(incoming)
  {
    var e := c.events[id];
    var kept := Preserved(c.audits, id, e.fields, Proposal(promote, earlier, incoming), missingName);
    if promote then e.(fields := kept, publication := KeptPublication(e, computed), identity := Some(identity))
    else e.(fields := map f: Field | true :: if Untouched(f) then e.fields[f] else kept[f])
  }

  /** A promotion takes the primary role from every reference the edition has. */
  function Demoted(references: seq<Reference>, id: Id): (demoted: seq<Reference>)
    ensures |demoted| == |references|
    ensures forall i :: 0 <= i < |demoted| ==>
              demoted[i] == if references[i].eventId == id then references[i].(primary := false) else references[i]
  {
    seq(|references|, i requires 0 <= i < |references| =>
      if references[i].eventId == id then references[i].(primary := false) else references[i])
  }

  /** The fields OpenResults metadata can supply. */
  predicate Enriched(f: Field) {
    f.Name? || f.Date? || f.City? || f.State? || f.Country? || f.Modality? || f.Description? || f.MainImageUrl?
    || f.LocationName? || f.Address?
  }

  function EnrichedField(f: Field, isProtected: bool, primary: bool, incoming: Value, current: Value): Value {
    if !Enriched(f) || isProtected || incoming.None? || incoming.value == "" then current
    else if f.Modality? && !primary then (if current == Some("unknown") then incoming else current)
    else if primary || current.None? then incoming
    else current
  }

  function EnrichedEvent(c: Catalog, id: Id, primary: bool, incoming: map<Field, Value>): Event
    requires id in c.events && Complete(c.events[id].fields) && Complete(incoming)
  {
    var e := c.events[id];
    e.(fields := map f: Field | true :: EnrichedField(f, Protected(c.audits, id, f), primary, incoming[f], e.fields[f]))
  }

  function ReviewedEvent(e: Event, changes: map<Field, Value>, publication: Option<Publication>): Event {
    e.(fields := e.fields + changes, administrativeReview := true,
       publication := if publication.Some? then publication.value else e.publication)
  }

  // --- Crawling -----------------------------------------------------------------------------

  predicate Known(references: seq<Reference>, identity: Identity) {
    exists i :: 0 <= i < |references| && references[i].identity == identity
  }

  /** Link the identity to its reference's event: move an existing reference or add a new one. */
  function UpsertReference(references: seq<Reference>, identity: Identity, id: Id, url: string, primary: bool)
    : (upserted: seq<Reference>)
  {
    if Known(references, identity) then
      seq(|references|, i requires 0 <= i < |references| =>
        if references[i].identity == identity then Reference(identity, id, url, primary) else references[i])
    else references + [Reference(identity, id, url, primary)]
  }

  datatype Crawled = Seen | Linked(id: Id) | Created | Refused

  /** What a crawler does with one candidate: refresh its reference, link the event that already
      bears the identity, or create the event under its derived id. Refused is the database
      rejecting an id that a merge reserved or that already exists. */
  function CrawlOutcome(c: Catalog, identity: Identity, bearer: Option<Id>): Crawled {
    if Known(c.references, identity) then Seen
    else if bearer.Some? then Linked(bearer.value)
    else if Derived(identity) in c.aliases || Derived(identity) in c.events then Refused
    else Created
  }

  /** The lookup by (source type, external id) that the upsert performs. */
  ghost predicate IsBearer(c: Catalog, identity: Identity, bearer: Option<Id>) {
    if bearer.Some? then bearer.value in c.events && c.events[bearer.value].identity == Some(identity)
    else forall e :: e in c.events ==> c.events[e].identity != Some(identity)
  }

  function Crawl(c: Catalog, identity: Identity, bearer: Option<Id>, event: Event, url: string): Catalog {
    match CrawlOutcome(c, identity, bearer)
    case Seen => c
    case Linked(id) => c.(references := c.references + [Reference(identity, id, url, false)])
    case Created =>
      c.(events := c.events[Derived(identity) := event.(identity := Some(identity))],
         references := c.references + [Reference(identity, Derived(identity), url, false)])
    case Refused => c
  }

  predicate SlugFree(c: Catalog, slug: string) {
    && (forall e :: e in c.events ==> c.events[e].slug != slug)
    && (forall a :: a in c.aliases ==> c.aliases[a].oldSlug != slug)
  }

  // --- Runs ---------------------------------------------------------------------------------

  datatype Action =
    | DoCreate(n: nat, event: Event)
    | DoCrawl(identity: Identity, bearer: Option<Id>, event: Event, url: string)
    | DoReference(identity: Identity, id: Id, url: string, primary: bool)
    | DoAttach(row: string, requested: Id)
    | DoSave(id: Id, incoming: map<Field, Value>, missingName: bool, computed: Publication)
    | DoLink(id: Id, promote: bool, earlier: map<Field, Value>, incoming: map<Field, Value>, missingName: bool,
             computed: Publication, identity: Identity)
    | DoEnrich(id: Id, primary: bool, incoming: map<Field, Value>)
    | DoMerge(fold: string -> string, source: Id, target: Id)
    | DoReview(requested: Id, changes: map<Field, Value>, publication: Option<Publication>)
    | DoDecide(requested: Id, decided: Publication)

  /** When the transaction commits; otherwise it fails and changes nothing. */
  ghost predicate Commits(c: Catalog, a: Action) {
    match a
    case DoCreate(n, event) =>
      Generated(n) !in c.events && Generated(n) !in c.aliases && Complete(event.fields) && SlugFree(c, event.slug)
    case DoCrawl(identity, bearer, event, _) =>
      Complete(event.fields) && SlugFree(c, event.slug) && IsBearer(c, identity, bearer)
    case DoReference(_, id, _, _) => id in c.events
    case DoAttach(row, requested) => row !in c.owned && Resolve(c.aliases, requested) in c.events
    case DoSave(id, incoming, _, _) => id in c.events && Complete(incoming)
    case DoLink(id, _, earlier, incoming, _, _, _) => id in c.events && Complete(earlier) && Complete(incoming)
    case DoEnrich(id, _, incoming) => id in c.events && Complete(incoming)
    case DoMerge(fold, source, target) => Compatible(fold, c, Resolve(c.aliases, source), Resolve(c.aliases, target))
    case DoReview(requested, changes, _) =>
      Resolve(c.aliases, requested) in c.events && (Date in changes ==> DayOnly(changes[Date]) == changes[Date])
    case DoDecide(requested, _) => Resolve(c.aliases, requested) in c.events
  }

  ghost function Step(c: Catalog, a: Action): Catalog
    requires forall e :: e in c.events ==> Complete(c.events[e].fields)
  {
    if !Commits(c, a) then c
    else
      match a
      case DoCreate(n, event) => c.(events := c.events[Generated(n) := event])
      case DoCrawl(identity, bearer, event, url) => Crawl(c, identity, bearer, event, url)
      case DoReference(identity, id, url, primary) =>
        c.(references := UpsertReference(c.references, identity, id, url, primary))
      case DoAttach(row, requested) => c.(owned := c.owned[row := Owned(requested, Resolve(c.aliases, requested))])
      case DoSave(id, incoming, missingName, computed) =>
        c.(events := c.events[id := SavedEvent(c, id, incoming, missingName, computed)])
      case DoLink(id, promote, earlier, incoming, missingName, computed, identity) =>
        c.(events := c.events[id := LinkedEvent(c, id, promote, earlier, incoming, missingName, computed, identity)],
           references := if promote then Demoted(c.references, id) else c.references)
      case DoEnrich(id, primary, incoming) => c.(events := c.events[id := EnrichedEvent(c, id, primary, incoming)])
      case DoMerge(fold, source, target) => Merge(c, Resolve(c.aliases, source), Resolve(c.aliases, target))
      case DoReview(requested, changes, publication) =>
        var id := Resolve(c.aliases, requested);
        c.(events := c.events[id := ReviewedEvent(c.events[id], changes, publication)],
           audits := c.audits + [Review(id, changes, publication)])
      case DoDecide(requested, decided) =>
        var id := Resolve(c.aliases, requested);
        c.(events := c.events[id := c.events[id].(publication := decided, administrativeReview := true)],
           audits := c.audits + [PublicationDecision(id, decided)])
  }

  const EMPTY: Catalog := Catalog(map[], [], map[], map[], [], [])

  // --- Invariant: identifiers, references and rows ------------------------------------------

  ghost predicate EventsInv(c: Catalog) {
    && (forall e :: e in c.events ==> Complete(c.events[e].fields))
    && (forall e :: e in c.events ==> e !in c.aliases)
    && (forall a :: a in c.aliases ==> c.aliases[a].target in c.events)
  }

  ghost predicate ReferencesInv(c: Catalog) {
    && UniqueIdentities(c.references)
    && (forall i :: 0 <= i < |c.references| ==> c.references[i].eventId in c.events)
    && (forall k :: Derived(k) in c.events || Derived(k) in c.aliases ==> Known(c.references, k))
  }

  ghost predicate OwnedInv(c: Catalog) {
    forall k :: k in c.owned ==> c.owned[k].eventId == Resolve(c.aliases, c.owned[k].createdFor) && c.owned[k].eventId in c.events
  }

  ghost predicate SlugsInv(c: Catalog) {
    && (forall e, f :: e in c.events && f in c.events && e != f ==> c.events[e].slug != c.events[f].slug)
    && (forall e, a :: e in c.events && a in c.aliases ==> c.events[e].slug != c.aliases[a].oldSlug)
    && (forall a, b :: a in c.aliases && b in c.aliases && a != b ==> c.aliases[a].oldSlug != c.aliases[b].oldSlug)
  }

  // --- Invariant: the alias table and the performed merges ----------------------------------

  ghost predicate Joined(merges: seq<(Id, Id)>, x: Id, y: Id) {
    exists i :: 0 <= i < |merges| && (merges[i] == (x, y) || merges[i] == (y, x))
  }

  ghost predicate IsChain(merges: seq<(Id, Id)>, chain: seq<Id>) {
    chain != [] && forall i, j :: 0 <= i < j < |chain| && j == i + 1 ==> Joined(merges, chain[i], chain[j])
  }

  /** Two ids are connected when a chain of performed merges leads from one to the other. */
  ghost predicate Connected(merges: seq<(Id, Id)>, x: Id, y: Id) {
    exists chain :: IsChain(merges, chain) && chain[0] == x && chain[|chain| - 1] == y
  }

  ghost predicate MergesInv(c: Catalog) {
    && (forall i :: 0 <= i < |c.reconciliations| ==>
          Resolve(c.aliases, c.reconciliations[i].0) == Resolve(c.aliases, c.reconciliations[i].1))
    && (forall a :: a in c.aliases ==> Connected(c.reconciliations, a, c.aliases[a].target))
  }

  // --- Invariant: reviewed values -----------------------------------------------------------

  /** The value the last review of this edition gave the field, if any review named it. */
  function LastReviewed(audits: seq<Audit>, id: Id, f: Field): Option<Value> {
    if audits == [] then None
    else
      var last := audits[|audits| - 1];
      if last.Review? && last.eventId == id && f in last.changes then Some(last.changes[f])
      else LastReviewed(audits[..|audits| - 1], id, f)
  }

  function LastDecided(audits: seq<Audit>, id: Id): Option<Publication> {
    if audits == [] then None
    else
      var last := audits[|audits| - 1];
      if last.eventId == id && last.PublicationDecision? then Some(last.decided)
      else if last.eventId == id && last.publication.Some? then last.publication
      else LastDecided(audits[..|audits| - 1], id)
  }

  /** The event holds what its last reviews set, and a reviewed date is a calendar day. */
  ghost predicate ReviewHeld(audits: seq<Audit>, id: Id, e: Event) {
    && (forall f: Field :: LastReviewed(audits, id, f).Some? ==>
          f in e.fields && e.fields[f] == LastReviewed(audits, id, f).value)
    && (LastReviewed(audits, id, Date).Some? ==>
          DayOnly(LastReviewed(audits, id, Date).value) == LastReviewed(audits, id, Date).value)
    && (LastDecided(audits, id).Some? ==> e.publication == LastDecided(audits, id).value && e.administrativeReview)
  }

  ghost predicate ReviewedInv(c: Catalog) {
    && (forall i :: 0 <= i < |c.audits| ==> c.audits[i].eventId in c.events)
    && (forall e :: e in c.events ==> ReviewHeld(c.audits, e, c.events[e]))
  }

  ghost predicate Inv(c: Catalog) {
    EventsInv(c) && ReferencesInv(c) && OwnedInv(c) && SlugsInv(c) && MergesInv(c) && ReviewedInv(c)
  }

  ghost function Run(actions: seq<Action>): (c: Catalog)
    ensures EventsInv(c)
  {
    if actions == [] then EMPTY
    else
      var before := Run(actions[..|actions| - 1]);
      StepKeepsEvents(before, actions[|actions| - 1]);
      Step(before, actions[|actions| - 1])
  }

  lemma StepKeepsEvents(c: Catalog, a: Action)
    requires EventsInv(c)
    ensures EventsInv(Step(c, a))
  {
    hide Compatible, Mergeable, Merge, EventsInv, IsBearer, SlugFree, UpsertReference, Crawl, SavedEvent, LinkedEvent, EnrichedEvent;
    if Commits(c, a) {
      if a.DoMerge? {
        CompatibleEditions(a.fold, c, Resolve(c.aliases, a.source), Resolve(c.aliases, a.target));
        MergeKeepsEvents(c, Resolve(c.aliases, a.source), Resolve(c.aliases, a.target));
      } else {
        WriteKeepsEvents(c, a);
      }
    }
  }

  lemma MergeKeepsEvents(c: Catalog, s: Id, t: Id)
    requires EventsInv(c) && Mergeable(c, s, t)
    ensures EventsInv(Merge(c, s, t))
  {
    hide Mergeable, Merge, MergedEvent;
    MergeView(c, s, t);
  }

  lemma WriteKeepsEvents(c: Catalog, a: Action)
    requires EventsInv(c) && Commits(c, a) && !a.DoMerge?
    ensures EventsInv(Step(c, a))
  {
    hide IsBearer, SlugFree, UpsertReference, PreservedField, Proposed, EnrichedField, KeptPublication, Known, Demoted;
  }
}
