/** The transactions of the edition catalogue as the statements that run on its tables. */
module EditionStore {
  import opened Wrappers
  import opened Sequences
  import opened EditionCatalog
  import opened EditionMerging
  import opened EditionHistory
  import opened EditionGroups
  import opened Reachability
  import Evidence = EditionEvidence

  datatype Refusal =
    | EventNotFound | AlreadyUnified | PreviewStale | NotConfirmed | NotPublishable | Because(reason: Evidence.Reason)

  /** Everything a preview showed; the stored hash stands for it. */
  datatype Revision =
    Revision(source: Event, target: Event, references: seq<Reference>, aliases: map<Id, Alias>, audits: seq<Audit>)

  datatype Inspection =
    Inspection(reasons: seq<Evidence.Reason>, automatic: Option<Evidence.Reason>, revision: Revision,
               sourceProtected: set<Field>, targetProtected: set<Field>, sourceDecided: bool, targetDecided: bool)

  function AuditsOf(audits: seq<Audit>, s: Id, t: Id): seq<Audit> {
    if audits == [] then []
    else
      var last := audits[|audits| - 1];
      AuditsOf(audits[..|audits| - 1], s, t) + (if last.eventId == s || last.eventId == t then [last] else [])
  }

  function RevisionOf(c: Catalog, s: Id, t: Id): Revision
    requires s in c.events && t in c.events
  {
    Revision(c.events[s], c.events[t], ReferencesOf(c.references, s) + ReferencesOf(c.references, t),
             map a | a in c.aliases && (c.aliases[a].target == s || c.aliases[a].target == t) :: c.aliases[a],
             AuditsOf(c.audits, s, t))
  }

  /** Whether the reason stands against unifying the two editions, running tasks aside. */
  ghost predicate Objects(fold: string -> string, c: Catalog, s: Id, t: Id, reason: Evidence.Reason)
    requires s in c.events && t in c.events && Complete(c.events[s].fields) && Complete(c.events[t].fields)
  {
    match reason
    case AdministrativelyRestricted => Restricted(c.events[s].publication) || Restricted(c.events[t].publication)
    case LinkUnconfirmed => ReferencesOf(c.references, s) == [] || ReferencesOf(c.references, t) == []
    case SourceIdentityConflict => IdentitiesConflict(ReferencesOf(c.references, s) + ReferencesOf(c.references, t))
    case ManualConflict => ManualConflict(c, s, t)
    case _ => Evidence.LocationObjection(fold, LocationOf(c.events[s].fields), LocationOf(c.events[t].fields), reason)
  }

  /** The order in which reasons are found. */
  function Rank(reason: Evidence.Reason): nat {
    match reason
    case AdministrativelyRestricted => 1
    case LinkUnconfirmed => 2
    case SourceIdentityConflict => 3
    case ManualConflict => 4
    case _ => 0
  }

  ghost predicate FirstObjection(fold: string -> string, c: Catalog, s: Id, t: Id, first: Evidence.Reason)
    requires s in c.events && t in c.events && Complete(c.events[s].fields) && Complete(c.events[t].fields)
  {
    && Objects(fold, c, s, t, first)
    && forall reason :: Objects(fold, c, s, t, reason) ==> reason == first || Rank(first) < Rank(reason)
  }

  ghost predicate Inspected(j: Judge, c: Catalog, s: Id, t: Id, i: Inspection)
    requires s in c.events && t in c.events && Complete(c.events[s].fields) && Complete(c.events[t].fields)
  {
    && (i.reasons == [] <==> Compatible(j.fold, c, s, t) && !j.busy(c, s, t))
    && (forall reason :: reason in i.reasons <==> Objects(j.fold, c, s, t, reason) || (reason.InUse? && j.busy(c, s, t)))
    && (i.automatic.None? <==> Compatible(j.fold, c, s, t) && Evident(j, c, s, t))
    && (!Compatible(j.fold, c, s, t) ==> i.automatic.Some? && FirstObjection(j.fold, c, s, t, i.automatic.value))
    && i.revision == RevisionOf(c, s, t)
    && (forall f: Field :: f in i.sourceProtected <==> Protected(c.audits, s, f))
    && (forall f: Field :: f in i.targetProtected <==> Protected(c.audits, t, f))
    && i.sourceDecided == PublicationProtected(c.audits, s)
    && i.targetDecided == PublicationProtected(c.audits, t)
  }

  /** When one reconciliation request is carried out. */
  ghost predicate Admits(j: Judge, c: Catalog, s: Id, t: Id, revision: Revision, confirmed: bool, automatic: bool) {
    && s in c.events && t in c.events && s != t
    && revision == RevisionOf(c, s, t)
    && Compatible(j.fold, c, s, t) && !j.busy(c, s, t)
    && confirmed && (automatic ==> Evident(j, c, s, t))
  }

  /** When a whole group is taken up: two or three live Brazilian editions, every pair compatible and
      idle, all connected by strong evidence. */
  ghost predicate Admitted(j: Judge, c: Catalog, ids: set<Id>, rows: seq<Id>) {
    && 2 <= |ids| <= 3 && |rows| == |ids|
    && (forall x :: x in rows ==> x in c.events && Country in c.events[x].fields && c.events[x].fields[Country] == Some("BR"))
    && PairwiseCompatible(j.fold, c, rows)
    && (forall i, k :: 0 <= i < |rows| && 0 <= k < |rows| && i != k ==> !j.busy(c, rows[i], rows[k]))
    && (forall x :: x in rows ==> Reaches(StrongLinks(j, c, rows), rows[0], x))
  }

  /** `d` is `c` with the members in `order` merged into `t`, and those in `left` still to come. */
  ghost predicate MergedSoFar(fold: string -> string, c: Catalog, members: seq<Id>, order: seq<Id>, left: seq<Id>, t: Id, d: Catalog) {
    multiset(order) + multiset(left) == multiset(members) && MergeAll(fold, c, order, t) == Some(d)
  }

  ghost predicate AllMerged(fold: string -> string, c: Catalog, rows: seq<Id>, d: Catalog)
    requires rows != []
  {
    exists order :: MergedSoFar(fold, c, rows[1..], order, [], rows[0], d)
  }

  /** Some members are left, and each of them lacks evidence or is in use. */
  ghost predicate Stuck(j: Judge, c: Catalog, rows: seq<Id>, d: Catalog)
    requires rows != []
  {
    exists order, left ::
      && left != [] && MergedSoFar(j.fold, c, rows[1..], order, left, rows[0], d)
      && forall x :: x in left ==> !Evident(j, d, x, rows[0]) || j.busy(d, x, rows[0])
  }

  function Update<T>(rows: seq<T>, where: T -> bool, data: T -> T): (updated: seq<T>)
    ensures |updated| == |rows|
    ensures forall i :: 0 <= i < |rows| ==> updated[i] == if where(rows[i]) then data(rows[i]) else rows[i]
  {
    seq(|rows|, i requires 0 <= i < |rows| => if where(rows[i]) then data(rows[i]) else rows[i])
  }

  function Position(f: Field): (n: nat)
    ensures n < |ScalarFields()| && ScalarFields()[n] == f
  {
    match f
    case Name => 0 case Description => 1 case Date => 2 case StartTime => 3 case EndTime => 4 case City => 5
    case State => 6 case Country => 7 case LocationName => 8 case Address => 9 case Latitude => 10
    case Longitude => 11 case Modality => 12 case EventStatus => 13 case RegistrationUrl => 14
    case OfficialUrl => 15 case RegulationUrl => 16 case OrganizerName => 17 case OrganizerUrl => 18
    case MainImageUrl => 19
  }

  /** The field list names every field exactly once. */
  lemma FieldsListed(n: nat)
    requires n < |ScalarFields()|
    ensures Position(ScalarFields()[n]) == n
  {
  }

  class Editions {
    var events: map<Id, Event>
    var references: seq<Reference>
    var aliases: map<Id, Alias>
    var owned: map<string, Owned>
    var audits: seq<Audit>
    var reconciliations: seq<(Id, Id)>

    function Tables(): Catalog
      reads this
    {
      Catalog(events, references, aliases, owned, audits, reconciliations)
    }

    constructor ()
      ensures Tables() == EMPTY
    {
      events, references, aliases, owned, audits, reconciliations := map[], [], map[], map[], [], [];
    }

    /** The fields some review of the edition names, and whether its publication was decided. */
    method ProtectedFields(id: Id) returns (fields: set<Field>, decided: bool)
      ensures forall f: Field :: f in fields <==> Protected(audits, id, f)
      ensures decided == PublicationProtected(audits, id)
    {
      fields, decided := {}, false;
      for n := 0 to |audits|
        invariant forall f: Field :: f in fields <==> exists i :: 0 <= i < n && Names(audits[i], id, f)
        invariant decided <==> exists i :: 0 <= i < n && NamesPublication(audits[i], id)
      {
        if audits[n].eventId == id {
          if audits[n].Review? {
            fields := fields + audits[n].changes.Keys;
            decided := decided || audits[n].publication.Some?;
          } else {
            decided := true;
          }
        }
      }
    }

    method HasIdentityConflict(own: seq<Reference>) returns (conflict: bool)
      ensures conflict <==> IdentitiesConflict(own)
    {
      conflict := false;
      for n := 0 to |own|
        invariant conflict ==> IdentitiesConflict(own)
        invariant !conflict ==> forall i, k :: 0 <= i < n && 0 <= k < |own| && own[i].identity.sourceType == own[k].identity.sourceType
                                  ==> own[i].identity.externalId == own[k].identity.externalId
      {
        if exists k :: 0 <= k < |own| && own[k].identity.sourceType == own[n].identity.sourceType
                       && own[k].identity.externalId != own[n].identity.externalId {
          conflict := true;
        }
      }
    }

    method HasManualConflict(s: Id, t: Id, sourceProtected: set<Field>, targetProtected: set<Field>, decided: bool)
      returns (conflict: bool)
      requires s in events && t in events && Complete(events[s].fields) && Complete(events[t].fields)
      requires forall f: Field :: f in sourceProtected <==> Protected(audits, s, f)
      requires forall f: Field :: f in targetProtected <==> Protected(audits, t, f)
      requires decided == (PublicationProtected(audits, s) && PublicationProtected(audits, t))
      ensures conflict <==> ManualConflict(Tables(), s, t)
    {
      hide Protected, PublicationProtected;
      conflict := false;
      for n := 0 to |ScalarFields()|
        invariant conflict <==> exists k :: 0 <= k < n && ScalarFields()[k] in sourceProtected && ScalarFields()[k] in targetProtected
                                            && events[s].fields[ScalarFields()[k]] != events[t].fields[ScalarFields()[k]]
      {
        var field := ScalarFields()[n];
        if field in sourceProtected && field in targetProtected && events[s].fields[field] != events[t].fields[field] {
          conflict := true;
        }
      }
      if f: Field :| Protected(audits, s, f) && Protected(audits, t, f) && events[s].fields[f] != events[t].fields[f] {
        assert ScalarFields()[Position(f)] == f;
      }
      if decided && events[s].publication != events[t].publication {
        conflict := true;
      }
    }

    /** The reasons against unifying two editions, running tasks aside, in the order they are found. */
    method Objections(fold: string -> string, s: Id, t: Id, sourceProtected: set<Field>, targetProtected: set<Field>, decided: bool)
      returns (reasons: seq<Evidence.Reason>)
      requires s in events && t in events && s != t && Complete(events[s].fields) && Complete(events[t].fields)
      requires forall f: Field :: f in sourceProtected <==> Protected(audits, s, f)
      requires forall f: Field :: f in targetProtected <==> Protected(audits, t, f)
      requires decided == (PublicationProtected(audits, s) && PublicationProtected(audits, t))
      ensures reasons == [] <==> Compatible(fold, Tables(), s, t)
      ensures forall reason :: reason in reasons <==> Objects(fold, Tables(), s, t, reason)
      ensures reasons != [] ==> FirstObjection(fold, Tables(), s, t, reasons[0])
    {
      hide Protected, PublicationProtected, ManualConflict, ReferencesOf, IdentitiesConflict, Restricted,
        Evidence.SamePlaceAndDay, LocationOf, Complete, Compatible, Mergeable;
      CompatibleWhen(fold, Tables(), s, t);
      var location := Evidence.EditionLocationEvidence(fold, LocationOf(events[s].fields), LocationOf(events[t].fields));
      var mine, theirs := ReferencesOf(references, s), ReferencesOf(references, t);
      var identities := HasIdentityConflict(mine + theirs);
      var manual := HasManualConflict(s, t, sourceProtected, targetProtected, decided);
      reasons := Collected(location, Restricted(events[s].publication) || Restricted(events[t].publication),
                           mine == [] || theirs == [], identities, manual);
    }

    static method Collected(location: Option<Evidence.Reason>, restricted: bool, unlinked: bool, identities: bool, manual: bool)
      returns (reasons: seq<Evidence.Reason>)
      requires location.Some? ==> location.value in {Evidence.DateUnconfirmed, Evidence.DateMismatch,
                                                      Evidence.LocationUnconfirmed, Evidence.LocationConflict}
      ensures reasons == [] <==> location.None? && !restricted && !unlinked && !identities && !manual
      ensures forall reason :: reason in reasons <==>
                || location == Some(reason) || (reason.AdministrativelyRestricted? && restricted) || (reason.LinkUnconfirmed? && unlinked)
                || (reason.SourceIdentityConflict? && identities) || (reason.ManualConflict? && manual)
      ensures reasons != [] ==> forall reason :: reason in reasons ==> reason == reasons[0] || Rank(reasons[0]) < Rank(reason)
    {
      reasons := [];
      if location.Some? {
        reasons := reasons + [location.value];
      }
      if restricted {
        reasons := reasons + [Evidence.AdministrativelyRestricted];
      }
      if unlinked {
        reasons := reasons + [Evidence.LinkUnconfirmed];
      }
      if identities {
        reasons := reasons + [Evidence.SourceIdentityConflict];
      }
      if manual {
        reasons := reasons + [Evidence.ManualConflict];
      }
    }

    method Inspect(j: Judge, s: Id, t: Id) returns (r: Result<Inspection, Refusal>)
      requires EventsInv(Tables())
      ensures s !in events || t !in events ==> r == Failure(EventNotFound)
      ensures s in events && s == t ==> r == Failure(AlreadyUnified)
      ensures s in events && t in events && s != t ==> r.Success? && Inspected(j, Tables(), s, t, r.value)
    {
      hide Protected, PublicationProtected, ManualConflict, ReferencesOf, IdentitiesConflict, Restricted,
        Compatible, RevisionOf, Complete;
      if s !in events || t !in events {
        return Failure(EventNotFound);
      }
      if s == t {
        return Failure(AlreadyUnified);
      }
      var sourceProtected, sourceDecided := ProtectedFields(s);
      var targetProtected, targetDecided := ProtectedFields(t);
      var reasons := Objections(j.fold, s, t, sourceProtected, targetProtected, sourceDecided && targetDecided);
      var automatic :=
        if reasons != [] then Some(reasons[0])
        else if j.cross(Tables(), s, t).Some? then j.cross(Tables(), s, t)
        else if j.cross(Tables(), t, s).Some? then j.cross(Tables(), t, s)
        else if j.ambiguous(Tables(), s, t) then Some(Evidence.LinkAmbiguous)
        else None;
      if j.busy(Tables(), s, t) {
        reasons := reasons + [Evidence.InUse];
      }
      r := Success(Inspection(reasons, automatic, RevisionOf(Tables(), s, t),
                              sourceProtected, targetProtected, sourceDecided, targetDecided));
    }

    /** The value of every field after the merge. */
    method ChosenFields(source: Event, target: Event, preferred: Event, sourceProtected: set<Field>, targetProtected: set<Field>)
      returns (changes: map<Field, Value>)
      requires Complete(source.fields) && Complete(target.fields) && Complete(preferred.fields)
      ensures changes == map f: Field | true :: MergedField(f in targetProtected, f in sourceProtected,
                                                            target.fields[f], source.fields[f], preferred.fields[f])
    {
      changes := map[];
      for n := 0 to |ScalarFields()|
        invariant forall k :: 0 <= k < n ==> ScalarFields()[k] in changes
        invariant forall f :: f in changes ==>
                    changes[f] == MergedField(f in targetProtected, f in sourceProtected, target.fields[f], source.fields[f], preferred.fields[f])
      {
        var field := ScalarFields()[n];
        changes := changes[field :=
          if field in targetProtected then target.fields[field]
          else if field in sourceProtected then source.fields[field]
          else if !Absent(preferred.fields[field]) then preferred.fields[field]
          else if !Absent(target.fields[field]) then target.fields[field]
          else source.fields[field]];
      }
      forall f: Field
        ensures f in changes
      {
        assert ScalarFields()[Position(f)] == f;
      }
    }

    /** Both editions' references move to the target as supplemental; then the chosen one is primary. */
    method MoveReferences(s: Id, t: Id, primary: Identity)
      modifies this`references
      ensures references == MovedReferences(old(references), s, t, primary)
    {
      references := Update(references, (r: Reference) => r.eventId == s, (r: Reference) => r.(eventId := t, primary := false));
      references := Update(references, (r: Reference) => r.eventId == t, (r: Reference) => r.(primary := false));
      references := Update(references, (r: Reference) => r.eventId == t && r.identity == primary, (r: Reference) => r.(primary := true));
    }

    /** The target's row after the merge and the reference that names it. */
    method MergedRow(s: Id, t: Id, i: Inspection) returns (merged: Event, primary: Reference)
      requires Mergeable(Tables(), s, t)
      requires forall f: Field :: f in i.sourceProtected <==> Protected(audits, s, f)
      requires forall f: Field :: f in i.targetProtected <==> Protected(audits, t, f)
      requires i.sourceDecided == PublicationProtected(audits, s) && i.targetDecided == PublicationProtected(audits, t)
      ensures merged == MergedEvent(Tables(), s, t) && primary == ChosenPrimary(Tables(), s, t)
    {
      hide Protected, PublicationProtected, ReferencesOf, Primary, MergedField, Complete, ScalarFields;
      var source, target := events[s], events[t];
      primary := Primary(ReferencesOf(references, t) + ReferencesOf(references, s));
      var preferred := if primary.eventId == s then source else target;
      var changes := ChosenFields(source, target, preferred, i.sourceProtected, i.targetProtected);
      var publication :=
        if i.targetDecided then target.publication
        else if i.sourceDecided then source.publication
        else if target.publication.Published? || source.publication.Published? then Published
        else target.publication;
      merged := Event(target.slug, changes, publication, source.administrativeReview || target.administrativeReview, Some(primary.identity));
    }

    /** The writes of one reconciliation. */
    method Unify(s: Id, t: Id, i: Inspection)
      requires Mergeable(Tables(), s, t)
      requires forall f: Field :: f in i.sourceProtected <==> Protected(audits, s, f)
      requires forall f: Field :: f in i.targetProtected <==> Protected(audits, t, f)
      requires i.sourceDecided == PublicationProtected(audits, s) && i.targetDecided == PublicationProtected(audits, t)
      modifies this
      ensures Tables() == Merge(old(Tables()), s, t)
    {
      hide Protected, PublicationProtected, ReferencesOf, ChosenPrimary, MergedEvent, Merge, MovedReferences;
      ghost var before := Tables();
      var source := events[s];
      var merged, primary := MergedRow(s, t, i);
      events := events[s := source.(identity := None)];
      events := events[t := merged];
      MoveReferences(s, t, primary.identity);
      owned := map k | k in owned :: if owned[k].eventId == s then owned[k].(eventId := t) else owned[k];
      audits := Update(audits, (a: Audit) => a.eventId == s, (a: Audit) => a.(eventId := t));
      aliases := map a | a in aliases :: if aliases[a].target == s then aliases[a].(target := t) else aliases[a];
      events := events - {s};
      aliases := aliases[s := Alias(source.slug, t)];
      reconciliations := reconciliations + [(s, t)];
      UnifiedTables(before, Tables(), s, t, merged, primary);
    }

    /** Carry out one request, or refuse it and write nothing. */
    method ApplyReconciliation(j: Judge, requestedSource: Id, requestedTarget: Id, revision: Revision, confirmed: bool, automatic: bool)
      returns (r: Result<Id, Refusal>)
      requires EventsInv(Tables())
      modifies this
      ensures EventsInv(Tables())
      ensures var c, s, t := old(Tables()), Resolve(old(aliases), requestedSource), Resolve(old(aliases), requestedTarget);
              && (r.Success? <==> Admits(j, c, s, t, revision, confirmed, automatic))
              && (r.Success? ==> Mergeable(c, s, t) && Tables() == Merge(c, s, t) && r.value == t)
      ensures var c, s, t := old(Tables()), Resolve(old(aliases), requestedSource), Resolve(old(aliases), requestedTarget);
              && (r.Success? ==> confirmed && !j.busy(c, s, t))
              && (r.Success? && automatic ==> j.cross(c, s, t).None? && j.cross(c, t, s).None? && !j.ambiguous(c, s, t))
      ensures r.Success? ==> Tables() == Step(old(Tables()), DoMerge(j.fold, requestedSource, requestedTarget))
      ensures r.Failure? ==> Tables() == old(Tables())
    {
      hide Merge, Compatible, Mergeable, Protected, PublicationProtected, RevisionOf, EventsInv;
      var s, t := Resolve(aliases, requestedSource), Resolve(aliases, requestedTarget);
      var preview := Inspect(j, s, t);
      if preview.Failure? {
        return Failure(preview.error);
      }
      var state := preview.value;
      if state.revision != revision {
        return Failure(PreviewStale);
      }
      if state.reasons != [] {
        return Failure(Because(state.reasons[0]));
      }
      if !confirmed {
        return Failure(NotConfirmed);
      }
      if automatic && state.automatic.Some? {
        return Failure(Because(state.automatic.value));
      }
      CompatibleEditions(j.fold, Tables(), s, t);
      MergeKeepsEvents(Tables(), s, t);
      Unify(s, t, state);
      r := Success(t);
    }

    /** Overwrite in the incoming fields what the stored edition must keep. */
    method PreserveValidatedMetadata(id: Id, extracted: map<Field, Value>, missingName: bool) returns (incoming: map<Field, Value>)
      requires id in events && Complete(events[id].fields) && Complete(extracted)
      ensures incoming == Preserved(audits, id, events[id].fields, extracted, missingName)
    {
      hide Protected, Position, ScalarFields, DayOnly;
      var isProtected, _ := ProtectedFields(id);
      var current := events[id].fields;
      incoming := extracted;
      for n := 0 to |ScalarFields()|
        invariant incoming.Keys == extracted.Keys
        invariant forall f: Field :: incoming[f] == if Position(f) < n
                                       then PreservedField(f, f in isProtected, extracted[f], current[f], missingName)
                                       else extracted[f]
      {
        var field := ScalarFields()[n];
        FieldsListed(n);
        if field in isProtected || incoming[field].None? || incoming[field].value == ""
           || (field.Name? && missingName)
           || (field.Modality? && incoming[field].value == "unknown" && current[field] != Some("unknown")) {
          if field in isProtected || current[field].Some? {
            incoming := incoming[field := if field.Date? then DayOnly(current[field]) else current[field]];
          }
        }
      }
    }

    /** Every member is Brazilian and every pair of members is compatible and idle. */
    method EveryPairUnifies(j: Judge, rows: seq<Id>) returns (refusal: Option<Refusal>)
      requires EventsInv(Tables()) && Distinct(rows) && forall x :: x in rows ==> x in events
      ensures refusal.None? <==>
                && (forall x :: x in rows ==> Country in events[x].fields && events[x].fields[Country] == Some("BR"))
                && PairwiseCompatible(j.fold, Tables(), rows)
                && (forall i, k :: 0 <= i < |rows| && 0 <= k < |rows| && i != k ==> !j.busy(Tables(), rows[i], rows[k]))
    {
      hide Compatible, Protected, PublicationProtected, RevisionOf, Evident, ManualConflict, Restricted, IdentitiesConflict, ReferencesOf;
      for a := 0 to |rows|
        invariant forall i :: 0 <= i < a ==> events[rows[i]].fields[Country] == Some("BR")
        invariant forall i, k :: 0 <= i < a && 0 <= k < |rows| && i != k ==>
                    Compatible(j.fold, Tables(), rows[i], rows[k]) && !j.busy(Tables(), rows[i], rows[k])
      {
        if events[rows[a]].fields[Country] != Some("BR") {
          assert rows[a] in rows;
          return Some(Because(Evidence.LocationUnconfirmed));
        }
        for b := 0 to |rows|
          invariant forall k :: 0 <= k < b && k != a ==>
                      Compatible(j.fold, Tables(), rows[a], rows[k]) && !j.busy(Tables(), rows[a], rows[k])
        {
          if a != b {
            var state := Inspect(j, rows[a], rows[b]);
            if state.value.reasons != [] {
              return Some(Because(state.value.reasons[0]));
            }
          }
        }
      }
      refusal := None;
    }

    /** The first remaining member with full evidence against the target, or -1. */
    method ChooseEvident(j: Judge, target: Id, remaining: seq<Id>) returns (chosen: int)
      requires EventsInv(Tables()) && forall x :: x in remaining ==> Compatible(j.fold, Tables(), x, target)
      ensures -1 <= chosen < |remaining|
      ensures chosen >= 0 ==> Evident(j, Tables(), remaining[chosen], target) && !j.busy(Tables(), remaining[chosen], target)
      ensures chosen < 0 ==> forall x :: x in remaining ==> !Evident(j, Tables(), x, target) || j.busy(Tables(), x, target)
    {
      hide Compatible, Protected, PublicationProtected, RevisionOf, Evident, ManualConflict, Restricted, IdentitiesConflict, ReferencesOf;
      for n := 0 to |remaining|
        invariant forall k :: 0 <= k < n ==> !Evident(j, Tables(), remaining[k], target) || j.busy(Tables(), remaining[k], target)
      {
        CompatibleEditions(j.fold, Tables(), remaining[n], target);
        var preview := Inspect(j, remaining[n], target);
        if preview.value.reasons == [] && preview.value.automatic.None? {
          return n;
        }
      }
      chosen := -1;
    }

    /** Merge a whole group into its oldest edition. `rows` are the stored members, oldest first. A
        refusal on the way leaves the merges done so far for the caller's savepoint to undo; it only
        ever comes from missing evidence or running tasks, never from the merged rows themselves. */
    method ReconcileCatalogGroup(j: Judge, ids: set<Id>, rows: seq<Id>) returns (r: Result<Id, Refusal>)
      requires EventsInv(Tables())
      requires Distinct(rows) && forall x :: x in rows <==> x in ids && x in events
      modifies this
      ensures EventsInv(Tables())
      ensures !Admitted(j, old(Tables()), ids, rows) ==> r.Failure? && Tables() == old(Tables())
      ensures r.Success? ==> rows != [] && r.value == rows[0] && AllMerged(j.fold, old(Tables()), rows, Tables())
      ensures r.Failure? && Admitted(j, old(Tables()), ids, rows) ==> Stuck(j, old(Tables()), rows, Tables())
    {
      hide Compatible, Merge, Mergeable, Reaches, EventsInv, RevisionOf, PairwiseCompatible, StrongLinks, MergeAll,
        Evident, Protected, PublicationProtected, ManualConflict, Restricted, IdentitiesConflict, ReferencesOf, AllMerged, Stuck;
      if |ids| < 2 || |ids| > 3 {
        return Failure(Because(Evidence.LinkAmbiguous));
      }
      if |rows| != |ids| {
        return Failure(PreviewStale);
      }
      var admitted := EveryPairUnifies(j, rows);
      if admitted.Some? {
        return Failure(admitted.value);
      }
      var connected := ConnectedRows(j, Tables(), rows);
      if |connected| != |rows| {
        return Failure(Because(Evidence.LinkUnconfirmed));
      }
      r := MergeRest(j, rows);
    }

    /** Preview an idle row with strong evidence against the target and confirm it at once. */
    method MergeEvident(j: Judge, row: Id, target: Id)
      requires EventsInv(Tables()) && Compatible(j.fold, Tables(), row, target)
      requires Evident(j, Tables(), row, target) && !j.busy(Tables(), row, target)
      modifies this
      ensures EventsInv(Tables())
      ensures Mergeable(old(Tables()), row, target) && Tables() == Merge(old(Tables()), row, target)
    {
      hide Compatible, Merge, Mergeable, EventsInv, RevisionOf, Evident, Objects, FirstObjection, Protected, PublicationProtected;
      LiveEditions(j.fold, Tables(), row, target);
      var state := Inspect(j, row, target);
      assert state.value.revision == RevisionOf(Tables(), row, target);
      var merged := ApplyReconciliation(j, row, target, state.value.revision, true, true);
    }

    /** Merge one remaining row after the other that has strong evidence against the target. */
    method MergeRest(j: Judge, rows: seq<Id>) returns (r: Result<Id, Refusal>)
      requires EventsInv(Tables()) && rows != [] && PairwiseCompatible(j.fold, Tables(), rows)
      modifies this
      ensures EventsInv(Tables())
      ensures r.Success? ==> r.value == rows[0] && AllMerged(j.fold, old(Tables()), rows, Tables())
      ensures r.Failure? ==> Stuck(j, old(Tables()), rows, Tables())
    {
      hide Compatible, Merge, Mergeable, Reaches, EventsInv, RevisionOf, PairwiseCompatible, StrongLinks, MergeAll,
        Evident, Protected, PublicationProtected, ManualConflict, Restricted, IdentitiesConflict, ReferencesOf;
      ghost var before := Tables();
      var target, remaining := rows[0], rows[1..];
      assert rows == [target] + remaining;
      ghost var order: seq<Id> := [];
      NoneMerged(j.fold, before, target);
      while remaining != []
        invariant EventsInv(Tables())
        invariant MergedSoFar(j.fold, before, rows[1..], order, remaining, target, Tables())
        invariant PairwiseCompatible(j.fold, Tables(), [target] + remaining)
        decreases |remaining|
      {
        MembersCompatible(j.fold, Tables(), target, remaining);
        var chosen := ChooseEvident(j, target, remaining);
        if chosen < 0 {
          return Failure(Because(Evidence.LinkUnconfirmed));
        }
        var row := remaining[chosen];
        GroupAfterChoice(j.fold, Tables(), target, remaining, chosen);
        MergeAllOneMore(j.fold, before, order, target, row);
        MergeEvident(j, row, target);
        assert remaining == remaining[..chosen] + [row] + remaining[chosen + 1..];
        order := order + [row];
        remaining := remaining[..chosen] + remaining[chosen + 1..];
      }
      r := Success(target);
    }

    /** The coordinator's savepoint: a refused group never stays partially unified. */
    method ReconcileGroupOrNothing(j: Judge, ids: set<Id>, rows: seq<Id>) returns (r: Result<Id, Refusal>)
      requires EventsInv(Tables())
      requires Distinct(rows) && forall x :: x in rows <==> x in ids && x in events
      modifies this
      ensures EventsInv(Tables())
      ensures r.Failure? ==> Tables() == old(Tables())
      ensures r.Success? ==> rows != [] && r.value == rows[0] && Admitted(j, old(Tables()), ids, rows)
                             && AllMerged(j.fold, old(Tables()), rows, Tables())
    {
      hide AllMerged, Admitted, Stuck, EventsInv;
      var savepoint := Tables();
      r := ReconcileCatalogGroup(j, ids, rows);
      if r.Failure? {
        events, references, aliases, owned, audits, reconciliations :=
          savepoint.events, savepoint.references, savepoint.aliases, savepoint.owned, savepoint.audits, savepoint.reconciliations;
      }
    }

    /** A later extraction of the source the edition already has. */
    method SaveExtraction(id: Id, extracted: map<Field, Value>, missingName: bool, computed: Publication)
      requires EventsInv(Tables()) && id in events && Complete(extracted)
      modifies this`events
      ensures Tables() == Step(old(Tables()), DoSave(id, extracted, missingName, computed))
    {
      hide Preserved, Protected;
      var current := events[id];
      var kept := PreserveValidatedMetadata(id, extracted, missingName);
      var publication := computed;
      if current.administrativeReview || current.publication.Hidden? || current.publication.Rejected? {
        publication := current.publication;
      }
      events := events[id := current.(fields := kept, publication := publication)];
    }

    /** An extraction of another source, proposed from an earlier read of the edition. */
    method MergeCrossSourceEvent(id: Id, promote: bool, existing: map<Field, Value>, extracted: map<Field, Value>,
                                 missingName: bool, computed: Publication, identity: Identity)
      requires EventsInv(Tables()) && id in events && Complete(existing) && Complete(extracted)
      modifies this`events, this`references
      ensures Tables() == Step(old(Tables()), DoLink(id, promote, existing, extracted, missingName, computed, identity))
    {
      hide Preserved, Protected, Proposal, Proposed, Untouched, Demoted;
      var current := events[id];
      var kept := PreserveValidatedMetadata(id, Proposal(promote, existing, extracted), missingName);
      if promote {
        var publication := computed;
        if current.administrativeReview || current.publication.Hidden? || current.publication.Rejected? {
          publication := current.publication;
        }
        events := events[id := current.(fields := kept, publication := publication, identity := Some(identity))];
        Demote(id);
      } else {
        var written := Supplemented(current.fields, kept);
        events := events[id := current.(fields := written)];
      }
    }

    /** The edition's references lose the primary role, one row after the other. */
    method Demote(id: Id)
      modifies this`references
      ensures references == Demoted(old(references), id)
    {
      for n := 0 to |references|
        invariant |references| == |old(references)|
        invariant forall i :: 0 <= i < n ==> references[i] == Demoted(old(references), id)[i]
        invariant forall i :: n <= i < |references| ==> references[i] == old(references)[i]
      {
        if references[n].eventId == id {
          references := references[n := references[n].(primary := false)];
        }
      }
    }

    /** The columns a supplemental source writes. */
    method Supplemented(current: map<Field, Value>, kept: map<Field, Value>) returns (written: map<Field, Value>)
      requires Complete(current) && Complete(kept)
      ensures written == map f: Field | true :: if Untouched(f) then current[f] else kept[f]
    {
      hide Position, ScalarFields, Untouched;
      written := current;
      for n := 0 to |ScalarFields()|
        invariant written.Keys == current.Keys
        invariant forall f: Field :: written[f] == if Position(f) < n && !Untouched(f) then kept[f] else current[f]
      {
        FieldsListed(n);
        if !Untouched(ScalarFields()[n]) {
          written := written[ScalarFields()[n] := kept[ScalarFields()[n]]];
        }
      }
    }

    /** OpenResults metadata: a problem with the edition's identity refuses the whole update. */
    method UpdateEdition(id: Id, primary: bool, observed: map<Field, Value>, problem: Option<string>)
      returns (r: Result<(), string>)
      requires EventsInv(Tables()) && id in events && Complete(observed)
      modifies this`events
      ensures problem.Some? ==> r == Failure(problem.value) && Tables() == old(Tables())
      ensures problem.None? ==> r.Success? && Tables() == Step(old(Tables()), DoEnrich(id, primary, observed))
    {
      hide Protected, EnrichedField;
      var isProtected, _ := ProtectedFields(id);
      var incoming := Unreviewed(observed, isProtected);
      var written := Refreshed(events[id].fields, incoming, primary);
      if problem.Some? {
        return Failure(problem.value);
      }
      forall f: Field
        ensures written[f] == EnrichedField(f, f in isProtected, primary, observed[f], events[id].fields[f])
      {
        UnreviewedField(f, f in isProtected, primary, observed[f], events[id].fields[f]);
      }
      assert written == EnrichedEvent(Tables(), id, primary, observed).fields;
      events := events[id := events[id].(fields := written)];
      r := Success(());
    }

    /** Observed values without those of reviewed fields. */
    method Unreviewed(observed: map<Field, Value>, isProtected: set<Field>) returns (incoming: map<Field, Value>)
      requires Complete(observed)
      ensures incoming == map f: Field | true :: if f in isProtected then None else observed[f]
    {
      hide Position, ScalarFields;
      incoming := observed;
      for n := 0 to |ScalarFields()|
        invariant incoming.Keys == observed.Keys
        invariant forall f: Field :: incoming[f] == if Position(f) < n && f in isProtected then None else observed[f]
      {
        FieldsListed(n);
        if ScalarFields()[n] in isProtected {
          incoming := incoming[ScalarFields()[n] := None];
        }
      }
    }

    /** The columns an observation refreshes: only the primary source replaces a present value. */
    method Refreshed(current: map<Field, Value>, incoming: map<Field, Value>, primary: bool) returns (written: map<Field, Value>)
      requires Complete(current) && Complete(incoming)
      ensures written == map f: Field | true :: EnrichedField(f, false, primary, incoming[f], current[f])
    {
      hide Position, ScalarFields;
      written := current;
      for n := 0 to |ScalarFields()|
        invariant written.Keys == current.Keys
        invariant forall f: Field :: written[f] == if Position(f) < n
                                       then EnrichedField(f, false, primary, incoming[f], current[f]) else current[f]
      {
        var field := ScalarFields()[n];
        FieldsListed(n);
        if Enriched(field) && incoming[field].Some? && incoming[field].value != "" {
          if field.Modality? && !primary {
            written := written[field := if current[field] == Some("unknown") then incoming[field] else current[field]];
          } else {
            written := written[field := if primary || current[field].None? then incoming[field] else current[field]];
          }
        }
      }
    }

    /** An administrator's audited review, of the edition the requested id now leads to. */
    method ReviewEvent(requested: Id, changes: map<Field, Value>, publication: Option<Publication>, publishable: bool)
      returns (r: Result<(), Refusal>)
      requires EventsInv(Tables()) && (Date in changes ==> DayOnly(changes[Date]) == changes[Date])
      modifies this
      ensures r.Success? ==> Tables() == Step(old(Tables()), DoReview(requested, changes, publication))
      ensures r.Failure? ==> Tables() == old(Tables())
      ensures r == Failure(EventNotFound) <==> Resolve(old(aliases), requested) !in old(events)
      ensures r == Failure(NotPublishable) <==>
                && Resolve(old(aliases), requested) in old(events) && !publishable
                && (publication == Some(Published)
                    || (publication.None? && old(events)[Resolve(old(aliases), requested)].publication.Published?))
      ensures r.Failure? ==> r.error in {EventNotFound, NotPublishable}
    {
      var id := Resolve(aliases, requested);
      if id !in events {
        return Failure(EventNotFound);
      }
      var reviewed := events[id].(fields := events[id].fields + changes, administrativeReview := true);
      if publication.Some? {
        reviewed := reviewed.(publication := publication.value);
      }
      if reviewed.publication.Published? && !publishable {
        return Failure(NotPublishable);
      }
      events := events[id := reviewed];
      audits := audits + [Review(id, changes, publication)];
      r := Success(());
    }
  }

  lemma UnifiedTables(c: Catalog, d: Catalog, s: Id, t: Id, merged: Event, primary: Reference)
    requires Mergeable(c, s, t) && merged == MergedEvent(c, s, t) && primary == ChosenPrimary(c, s, t)
    requires d.events == c.events[s := c.events[s].(identity := None)][t := merged] - {s}
    requires d.references == MovedReferences(c.references, s, t, primary.identity)
    requires d.owned == map k | k in c.owned :: if c.owned[k].eventId == s then c.owned[k].(eventId := t) else c.owned[k]
    requires |d.audits| == |c.audits| && forall i :: 0 <= i < |c.audits| ==>
               d.audits[i] == if c.audits[i].eventId == s then c.audits[i].(eventId := t) else c.audits[i]
    requires d.aliases == (map a | a in c.aliases :: if c.aliases[a].target == s then c.aliases[a].(target := t) else c.aliases[a])[s := Alias(c.events[s].slug, t)]
    requires d.reconciliations == c.reconciliations + [(s, t)]
    ensures d == Merge(c, s, t)
  {
    hide MergedEvent, ChosenPrimary;
    var m := Merge(c, s, t);
    assert d.events == m.events;
    assert d.references == m.references;
    assert d.owned == m.owned;
    assert d.audits == m.audits;
    assert d.aliases == m.aliases;
  }

  lemma UnreviewedField(f: Field, isProtected: bool, primary: bool, observed: Value, current: Value)
    ensures EnrichedField(f, isProtected, primary, observed, current)
            == EnrichedField(f, false, primary, if isProtected then None else observed, current)
  {
  }

  lemma CompatibleWhen(fold: string -> string, c: Catalog, s: Id, t: Id)
    requires s in c.events && t in c.events && s != t && Complete(c.events[s].fields) && Complete(c.events[t].fields)
    ensures Compatible(fold, c, s, t) <==>
              && Evidence.SamePlaceAndDay(fold, LocationOf(c.events[s].fields), LocationOf(c.events[t].fields))
              && !Restricted(c.events[s].publication) && !Restricted(c.events[t].publication)
              && ReferencesOf(c.references, s) != [] && ReferencesOf(c.references, t) != []
              && !IdentitiesConflict(ReferencesOf(c.references, s) + ReferencesOf(c.references, t))
              && !ManualConflict(c, s, t)
  {
  }

  lemma NoneMerged(fold: string -> string, c: Catalog, t: Id)
    ensures MergeAll(fold, c, [], t) == Some(c)
  {
  }

  lemma LiveEditions(fold: string -> string, c: Catalog, s: Id, t: Id)
    requires EventsInv(c) && Compatible(fold, c, s, t)
    ensures s in c.events && t in c.events && s != t
    ensures Resolve(c.aliases, s) == s && Resolve(c.aliases, t) == t
  {
    hide ReferencesOf, LocationOf, ManualConflict, IdentitiesConflict;
  }

  lemma MembersCompatible(fold: string -> string, c: Catalog, t: Id, remaining: seq<Id>)
    requires PairwiseCompatible(fold, c, [t] + remaining)
    ensures forall x :: x in remaining ==> Compatible(fold, c, x, t)
  {
    hide Compatible;
    forall k | 0 <= k < |remaining|
      ensures Compatible(fold, c, remaining[k], t)
    {
      assert Compatible(fold, c, ([t] + remaining)[k + 1], ([t] + remaining)[0]);
    }
  }

}
