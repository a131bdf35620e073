/**
 The catalogue of editions: events, the source references that name them, the aliases left by
 merges, the rows that belong to an event, and the administrative audits. Each transaction on it
 is a function from one state to the next.
 */
module EditionCatalog {
  import opened Wrappers
  import Evidence = EditionEvidence

  datatype Field =
    | Name | Description | Date | StartTime | EndTime | City | State | Country | LocationName | Address
    | Latitude | Longitude | Modality | EventStatus | RegistrationUrl | OfficialUrl | RegulationUrl
    | OrganizerName | OrganizerUrl | MainImageUrl

  function ScalarFields(): (fields: seq<Field>)
    ensures |fields| == 20
  {
    [Name, Description, Date, StartTime, EndTime, City, State, Country, LocationName, Address,
     Latitude, Longitude, Modality, EventStatus, RegistrationUrl, OfficialUrl, RegulationUrl,
     OrganizerName, OrganizerUrl, MainImageUrl]
  }

  type Value = Option<string>

  datatype Publication = Draft | PendingReview | Published | Hidden | Rejected

  datatype Identity = Identity(sourceType: string, externalId: string)

  /** Crawled events get an id derived from their identity by an injective hash. */
  datatype Id = Derived(identity: Identity) | Generated(n: nat)

  datatype Event =
    Event(slug: string, fields: map<Field, Value>, publication: Publication, administrativeReview: bool,
          identity: Option<Identity>)

  datatype Reference = Reference(identity: Identity, eventId: Id, url: string, primary: bool)

  /** What a merged edition leaves behind: its old slug and where its id now leads. */
  datatype Alias = Alias(oldSlug: string, target: Id)

  /** A row of any table that belongs to an event, with the id it was created for. */
  datatype Owned = Owned(createdFor: Id, eventId: Id)

  /** A review names the fields it set; a publication decision only the publication. */
  datatype Audit =
    | Review(eventId: Id, changes: map<Field, Value>, publication: Option<Publication>)
    | PublicationDecision(eventId: Id, decided: Publication)

  /** `reconciliations` is the audit trail of performed merges, oldest first. */
  datatype Catalog =
    Catalog(events: map<Id, Event>, references: seq<Reference>, aliases: map<Id, Alias>,
            owned: map<string, Owned>, audits: seq<Audit>, reconciliations: seq<(Id, Id)>)

  predicate Complete(fields: map<Field, Value>) {
    forall f: Field :: f in fields
  }

  // --- resolveEventId -----------------------------------------------------------------------

  function Resolve(aliases: map<Id, Alias>, id: Id): Id {
    if id in aliases then aliases[id].target else id
  }

  // --- Administrative protection ------------------------------------------------------------

  predicate Names(a: Audit, id: Id, f: Field) {
    a.Review? && a.eventId == id && f in a.changes
  }

  predicate Protected(audits: seq<Audit>, id: Id, f: Field) {
    exists i :: 0 <= i < |audits| && Names(audits[i], id, f)
  }

  predicate NamesPublication(a: Audit, id: Id) {
    a.eventId == id && (a.Review? ==> a.publication.Some?)
  }

  predicate PublicationProtected(audits: seq<Audit>, id: Id) {
    exists i :: 0 <= i < |audits| && NamesPublication(audits[i], id)
  }

  // --- inspect ------------------------------------------------------------------------------

  function ReferencesOf(references: seq<Reference>, id: Id): (own: seq<Reference>)
    ensures forall i :: 0 <= i < |own| ==> own[i].eventId == id && own[i] in references
  {
    if references == [] then []
    else
      var last := references[|references| - 1];
      ReferencesOf(references[..|references| - 1], id) + (if last.eventId == id then [last] else [])
  }

  function LocationOf(fields: map<Field, Value>): Evidence.Location
    requires Complete(fields)
  {
    Evidence.Location(fields[Date], fields[City], fields[State], fields[Country])
  }

  /** One source with two different identities among the references. */
  predicate IdentitiesConflict(references: seq<Reference>) {
    exists i, j :: 0 <= i < |references| && 0 <= j < |references|
                   && references[i].identity.sourceType == references[j].identity.sourceType
                   && references[i].identity.externalId != references[j].identity.externalId
  }

  predicate Restricted(p: Publication) {
    p.Hidden? || p.Rejected?
  }

  predicate ManualConflict(c: Catalog, s: Id, t: Id)
    requires s in c.events && t in c.events && Complete(c.events[s].fields) && Complete(c.events[t].fields)
  {
    || (exists f: Field :: Protected(c.audits, s, f) && Protected(c.audits, t, f) && c.events[s].fields[f] != c.events[t].fields[f])
    || (PublicationProtected(c.audits, s) && PublicationProtected(c.audits, t) && c.events[s].publication != c.events[t].publication)
  }

  /** Two different live editions, each named by some reference. */
  predicate Mergeable(c: Catalog, s: Id, t: Id) {
    && s in c.events && t in c.events && s != t
    && Complete(c.events[s].fields) && Complete(c.events[t].fields)
    && ReferencesOf(c.references, s) != [] && ReferencesOf(c.references, t) != []
  }

  /** No reason against merging the two editions, running tasks aside. */
  ghost predicate Compatible(fold: string -> string, c: Catalog, s: Id, t: Id) {
    && Mergeable(c, s, t)
    && Evidence.SamePlaceAndDay(fold, LocationOf(c.events[s].fields), LocationOf(c.events[t].fields))
    && !Restricted(c.events[s].publication) && !Restricted(c.events[t].publication)
    && !IdentitiesConflict(ReferencesOf(c.references, s) + ReferencesOf(c.references, t))
    && !ManualConflict(c, s, t)
  }

  // --- applyReconciliation ------------------------------------------------------------------

  function Priority(sourceType: string): nat {
    if sourceType == "ticketsports" then 100
    else if sourceType == "official" then 80
    else if sourceType == "corridasbr" then 50
    else 10
  }

  /** The first reference of the highest priority. */
  function Primary(references: seq<Reference>): (primary: Reference)
    requires references != []
    ensures primary in references
    ensures forall r :: r in references ==> Priority(r.identity.sourceType) <= Priority(primary.identity.sourceType)
  {
    if |references| == 1 then references[0]
    else
      var best, last := Primary(references[..|references| - 1]), references[|references| - 1];
      assert forall r :: r in references ==> r in references[..|references| - 1] || r == last;
      if Priority(last.identity.sourceType) > Priority(best.identity.sourceType) then last else best
  }

  predicate Absent(v: Value) {
    v.None? || v.value == "" || v.value == "unknown"
  }

  function MergedField(targetProtected: bool, sourceProtected: bool, target: Value, source: Value, preferred: Value): Value {
    if targetProtected then target
    else if sourceProtected then source
    else if !Absent(preferred) then preferred
    else if !Absent(target) then target
    else source
  }

  function MergedPublication(targetProtected: bool, sourceProtected: bool, target: Publication, source: Publication): Publication {
    if targetProtected then target
    else if sourceProtected then source
    else if target.Published? || source.Published? then Published
    else target
  }

  function ChosenPrimary(c: Catalog, s: Id, t: Id): Reference
    requires Mergeable(c, s, t)
  {
    Primary(ReferencesOf(c.references, t) + ReferencesOf(c.references, s))
  }

  function MergedEvent(c: Catalog, s: Id, t: Id): Event
    requires Mergeable(c, s, t)
  {
    var source, target := c.events[s], c.events[t];
    var primary := ChosenPrimary(c, s, t);
    var preferred := if primary.eventId == s then source else target;
    Event(target.slug,
          map f: Field | true ::
            MergedField(Protected(c.audits, t, f), Protected(c.audits, s, f), target.fields[f], source.fields[f],
                        if primary.eventId == s then source.fields[f] else target.fields[f]),
          MergedPublication(PublicationProtected(c.audits, t), PublicationProtected(c.audits, s),
                            target.publication, source.publication),
          source.administrativeReview || target.administrativeReview,
          Some(primary.identity))
  }

  function Move(id: Id, s: Id, t: Id): Id {
    if id == s then t else id
  }

  /** Both editions' references end on the target, with the chosen one alone as primary. */
  function MovedReference(r: Reference, s: Id, t: Id, primary: Identity): Reference {
    if r.eventId == s || r.eventId == t then r.(eventId := t, primary := r.identity == primary) else r
  }

  function MovedReferences(references: seq<Reference>, s: Id, t: Id, primary: Identity): (moved: seq<Reference>)
    ensures |moved| == |references|
    ensures forall i :: 0 <= i < |moved| ==> moved[i] == MovedReference(references[i], s, t, primary)
  {
    seq(|references|, i requires 0 <= i < |references| => MovedReference(references[i], s, t, primary))
  }

  function MovedAudits(audits: seq<Audit>, s: Id, t: Id): (moved: seq<Audit>)
    ensures |moved| == |audits|
    ensures forall i :: 0 <= i < |moved| ==> moved[i] == audits[i].(eventId := Move(audits[i].eventId, s, t))
  {
    seq(|audits|, i requires 0 <= i < |audits| => audits[i].(eventId := Move(audits[i].eventId, s, t)))
  }

  function MovedAliases(aliases: map<Id, Alias>, s: Id, t: Id, slug: string): (moved: map<Id, Alias>)
    ensures moved.Keys == aliases.Keys + {s} && moved[s] == Alias(slug, t)
    ensures forall a :: a in aliases && a != s ==> moved[a] == aliases[a].(target := Move(aliases[a].target, s, t))
  {
    (map a | a in aliases :: aliases[a].(target := Move(aliases[a].target, s, t)))[s := Alias(slug, t)]
  }

  /** Merge the source edition into the target. Its slug stays reserved and its id becomes an alias. */
  function Merge(c: Catalog, s: Id, t: Id): Catalog
    requires Mergeable(c, s, t)
  {
    Catalog(
      (map e | e in c.events && e != s :: if e == t then MergedEvent(c, s, t) else c.events[e]),
      MovedReferences(c.references, s, t, ChosenPrimary(c, s, t).identity),
      MovedAliases(c.aliases, s, t, c.events[s].slug),
      (map k | k in c.owned :: c.owned[k].(eventId := Move(c.owned[k].eventId, s, t))),
      MovedAudits(c.audits, s, t),
      c.reconciliations + [(s, t)])
  }
}
