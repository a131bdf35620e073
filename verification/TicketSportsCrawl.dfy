/**
 The resumable TicketSports crawl: per partition, requests of a growing prefix of the listing until it
 ends, stalls or reaches the ceiling. Candidates are taken one transaction each; a crash may fall
 between any two transactions.
 */
module TicketSportsCrawl {
  import opened Wrappers
  import opened Sequences
  import opened CrawlLedger

  /** The answer to one request. `rawIds` names every listed row, kept or not. */
  datatype Page = Page(events: seq<Listing>, rawIds: seq<string>, rawCount: nat, invalidCount: nat, excludedIds: seq<string>)

  datatype Options = Options(states: seq<string>, ceiling: nat)

  /** The source's answers by partition and requested quantity. */
  type Site = (string, nat) -> Page

  datatype Prefix = Blocked | Completed | Limited | Ready

  datatype Receipt =
    Receipt(state: string, status: Prefix, reason: string, requested: nat, rawCount: nat, unique: nat, unknownCountry: nat, outOfScope: nat)

  /** `probes` only records history: how many different prefixes of the partition were requested. */
  datatype Snapshot =
    Snapshot(seen: set<string>, allSeen: set<string>, unknown: set<string>, excluded: set<string>, quantity: nat, nextQuantity: nat,
             status: Prefix, reason: string, rawCount: nat, receipts: seq<Receipt>, probes: nat)

  datatype Status = Going | Done | DoneLimited

  datatype Sync = Sync(status: Status, page: nat, snapshot: Option<Snapshot>, ledger: Ledger)

  function EligibleIds(o: Options, page: Page): seq<string> {
    Ids(Where(page.events, (e: Listing) => !Present(e.state) || e.state.value in o.states))
  }

  function UnknownIds(page: Page): set<string> {
    Elements(Ids(Where(page.events, (e: Listing) => !Present(e.country))))
  }

  ghost predicate WellFormed(site: Site) {
    forall state, quantity :: Distinct(Ids(site(state, quantity).events))
  }

  // --- nextTicketSportsPrefix ---------------------------------------------------------------

  predicate Terminal(page: Page, requested: nat) {
    page.rawCount < requested && page.invalidCount == 0
  }

  datatype Expansion = Expansion(status: Prefix, reason: string, quantity: nat)

  function NextPrefix(page: Page, requested: nat, previous: set<string>, ceiling: nat): (e: Expansion)
    ensures e.status.Ready? ==> requested < e.quantity <= ceiling
    ensures !e.status.Ready? ==> e.quantity == requested
  {
    if page.invalidCount > 0 then Expansion(Blocked, "catalog_invalid_candidates", requested)
    else if page.rawCount > requested then Expansion(Blocked, "catalog_quantity_ignored", requested)
    else if Terminal(page, requested) then Expansion(Completed, "official_load_more_end", requested)
    else if previous != {} && (forall id :: id in page.rawIds ==> id in previous) then
      Expansion(Limited, "catalog_not_advancing", requested)
    else if requested >= ceiling then Expansion(Limited, "catalog_safety_ceiling", requested)
    else Expansion(Ready, "prefix_expansion", if ceiling < requested + 25 then ceiling else requested + 25)
  }

  // --- Transactions -------------------------------------------------------------------------

  function Partitions(o: Options): seq<string> {
    o.states + ["BR"]
  }

  function StateOf(o: Options, s: Sync): string
    requires 1 <= s.page <= |Partitions(o)|
  {
    Partitions(o)[s.page - 1]
  }

  const FRESH := Snapshot({}, {}, {}, {}, 25, 25, Ready, "next_state", 0, [], 0)

  /** A row that has no snapshot yet reads as the empty one. */
  function Current(s: Sync): Snapshot {
    if s.snapshot.Some? then s.snapshot.value else FRESH
  }

  function Start(): Sync {
    Sync(Going, 1, None, CrawlLedger.EMPTY)
  }

  function Answer(site: Site, o: Options, s: Sync): Page
    requires 1 <= s.page <= |Partitions(o)|
  {
    site(StateOf(o, s), Current(s).nextQuantity)
  }

  function Expanded(site: Site, o: Options, s: Sync): Expansion
    requires 1 <= s.page <= |Partitions(o)|
  {
    NextPrefix(Answer(site, o, s), Current(s).nextQuantity, Current(s).seen, o.ceiling)
  }

  /** Pages of another region or with invalid rows are refused and nothing is stored. */
  predicate Accepted(site: Site, o: Options, s: Sync)
    requires 1 <= s.page <= |Partitions(o)|
  {
    && (StateOf(o, s) == "BR" || forall e :: e in Answer(site, o, s).events && Present(e.state) ==> e.state.value == StateOf(o, s))
    && !Expanded(site, o, s).status.Blocked?
  }

  function Discovered(o: Options, before: Snapshot, page: Page, expansion: Expansion): Snapshot {
    Snapshot(before.seen + Elements(page.rawIds), before.allSeen + Elements(EligibleIds(o, page)),
             before.unknown + UnknownIds(page), before.excluded + Elements(page.excludedIds), before.nextQuantity, expansion.quantity,
             expansion.status, expansion.reason, page.rawCount, before.receipts,
             if before.status.Ready? then before.probes + 1 else before.probes)
  }

  function Discover(site: Site, o: Options, s: Sync): Sync
    requires 1 <= s.page <= |Partitions(o)|
  {
    var page := Answer(site, o, s);
    s.(snapshot := Some(Discovered(o, Current(s), page, Expanded(site, o, s))),
       ledger := Offered(s.ledger, Unseen(EligibleIds(o, page), Current(s).allSeen)))
  }

  function ReceiptOf(state: string, s: Snapshot): Receipt {
    Receipt(state, s.status, s.reason, s.quantity, s.rawCount, |s.seen|, |s.unknown|, |s.excluded|)
  }

  predicate AnyLimited(receipts: seq<Receipt>) {
    exists i :: 0 <= i < |receipts| && receipts[i].status.Limited?
  }

  function Advance(o: Options, s: Sync): Sync
    requires 1 <= s.page <= |Partitions(o)|
  {
    var snapshot := Current(s);
    var done := s.(ledger := Cleared(s.ledger));
    if snapshot.status.Ready? then done
    else
      var receipts := snapshot.receipts + [ReceiptOf(StateOf(o, s), snapshot)];
      if s.page < |Partitions(o)| then
        done.(page := s.page + 1, snapshot := Some(FRESH.(allSeen := snapshot.allSeen, receipts := receipts)))
      else done.(status := if AnyLimited(receipts) then DoneLimited else Done, snapshot := Some(snapshot.(receipts := receipts)))
  }

  datatype Action = DoDiscover | DoEnrich(known: bool) | DoAdvance

  /** A page that offered nothing may be followed by another discovery if the worker crashed before
      advancing; advancing needs a snapshot. */
  predicate Allowed(site: Site, o: Options, s: Sync, a: Action) {
    && s.status.Going? && 1 <= s.page <= |Partitions(o)|
    && match a
       case DoDiscover => s.ledger.candidates == [] && s.ledger.cursor == 0 && Accepted(site, o, s)
       case DoEnrich(_) => Waiting(s.ledger)
       case DoAdvance => !Waiting(s.ledger) && s.snapshot.Some?
  }

  function Apply(site: Site, o: Options, s: Sync, a: Action): Sync {
    if !Allowed(site, o, s, a) then s
    else
      match a
      case DoDiscover => Discover(site, o, s)
      case DoEnrich(known) => s.(ledger := Taken(s.ledger, known))
      case DoAdvance => Advance(o, s)
  }

  function Run(site: Site, o: Options, s: Sync, actions: seq<Action>): Sync {
    if actions == [] then s else Apply(site, o, Run(site, o, s, actions[..|actions| - 1]), actions[|actions| - 1])
  }

  // --- The uninterrupted expansion of one partition -----------------------------------------

  /** The n-th request an uninterrupted crawl of the partition would make, and what it knew before. */
  datatype Probe = Probe(quantity: nat, seen: set<string>)

  function ProbeAt(site: Site, o: Options, state: string, n: nat): Probe {
    if n == 0 then Probe(25, {})
    else
      var p := ProbeAt(site, o, state, n - 1);
      var page := site(state, p.quantity);
      Probe(NextPrefix(page, p.quantity, p.seen, o.ceiling).quantity, p.seen + Elements(page.rawIds))
  }

  function Outcome(site: Site, o: Options, state: string, n: nat): Expansion {
    var p := ProbeAt(site, o, state, n);
    NextPrefix(site(state, p.quantity), p.quantity, p.seen, o.ceiling)
  }

  /** The expansion goes on to its n-th request. */
  ghost predicate Reached(site: Site, o: Options, state: string, n: nat) {
    forall m :: 0 <= m < n ==> Outcome(site, o, state, m).status.Ready?
  }

  function Offer(site: Site, o: Options, state: string, n: nat): seq<string> {
    EligibleIds(o, site(state, ProbeAt(site, o, state, n).quantity))
  }

  /** Some request of the partition's expansion lists the id. */
  ghost predicate Wanted(site: Site, o: Options, state: string, id: string) {
    exists n: nat :: Reached(site, o, state, n) && id in Offer(site, o, state, n)
  }

  /** What the first n requests of the expansion list without a country, and what they leave out. */
  function UnknownUpTo(site: Site, o: Options, state: string, n: nat): set<string> {
    if n == 0 then {} else UnknownUpTo(site, o, state, n - 1) + UnknownIds(site(state, ProbeAt(site, o, state, n - 1).quantity))
  }

  function ExcludedUpTo(site: Site, o: Options, state: string, n: nat): set<string> {
    if n == 0 then {}
    else ExcludedUpTo(site, o, state, n - 1) + Elements(site(state, ProbeAt(site, o, state, n - 1).quantity).excludedIds)
  }

  /** The uninterrupted expansion ends with its n-th request, as completed or as limited. */
  ghost predicate EndsAt(site: Site, o: Options, state: string, n: nat) {
    Reached(site, o, state, n) && (Outcome(site, o, state, n).status.Completed? || Outcome(site, o, state, n).status.Limited?)
  }

  /** The uninterrupted expansion of the partition ends as limited. */
  ghost predicate EndsLimited(site: Site, o: Options, state: string) {
    exists n: nat :: EndsAt(site, o, state, n) && Outcome(site, o, state, n).status.Limited?
  }

  /** A request repeated at the end of a partition may find that nothing it lists is new any more. */
  predicate ReasonOf(reason: string, e: Expansion) {
    reason == e.reason || (e.status.Limited? && reason == "catalog_not_advancing")
  }

  /** A receipt tells how the uninterrupted expansion of its partition ends: with which status, quantity
      and number of rows, after how many different ids, in all, without a country and left out. */
  ghost predicate Tells(site: Site, o: Options, state: string, r: Receipt) {
    && r.state == state
    && exists n: nat :: EndsAt(site, o, state, n) && TellsAt(site, o, state, n, r)
  }

  predicate TellsAt(site: Site, o: Options, state: string, n: nat, r: Receipt) {
    && r.status == Outcome(site, o, state, n).status && ReasonOf(r.reason, Outcome(site, o, state, n))
    && r.requested == ProbeAt(site, o, state, n).quantity
    && r.rawCount == site(state, r.requested).rawCount
    && r.unique == |ProbeAt(site, o, state, n + 1).seen|
    && r.unknownCountry == |UnknownUpTo(site, o, state, n + 1)|
    && r.outOfScope == |ExcludedUpTo(site, o, state, n + 1)|
  }

  // --- Invariants ---------------------------------------------------------------------------

  ghost predicate ExpansionInv(site: Site, o: Options, state: string, s: Snapshot) {
    var n := s.probes;
    && (n == 0 ==> s.seen == {} && s.nextQuantity == 25 && s.status.Ready?)
    && s.unknown == UnknownUpTo(site, o, state, n) && s.excluded == ExcludedUpTo(site, o, state, n)
    && (n > 0 ==>
          && Reached(site, o, state, n - 1)
          && s.quantity == ProbeAt(site, o, state, n - 1).quantity
          && s.seen == ProbeAt(site, o, state, n).seen
          && s.nextQuantity == ProbeAt(site, o, state, n).quantity
          && s.rawCount == site(state, s.quantity).rawCount
          && s.status == Outcome(site, o, state, n - 1).status && ReasonOf(s.reason, Outcome(site, o, state, n - 1))
          && !s.status.Blocked?)
    && (forall m, id :: 0 <= m < n && id in Offer(site, o, state, m) ==> id in s.allSeen)
  }

  ghost predicate PartitionsInv(site: Site, o: Options, s: Sync) {
    && 1 <= s.page <= |Partitions(o)|
    && (forall q, id :: 0 <= q < s.page - 1 && Wanted(site, o, Partitions(o)[q], id) ==> id in Current(s).allSeen)
    && (forall id :: id in Current(s).allSeen ==> exists q :: 0 <= q < s.page && Wanted(site, o, Partitions(o)[q], id))
  }

  ghost predicate ReceiptsInv(site: Site, o: Options, s: Sync) {
    var receipts := Current(s).receipts;
    && |receipts| == (if s.status.Going? then s.page - 1 else |Partitions(o)|)
    && (forall q :: 0 <= q < |receipts| && q < |Partitions(o)| ==>
          Tells(site, o, Partitions(o)[q], receipts[q]))
    && (s.status.DoneLimited? ==> AnyLimited(receipts)) && (s.status.Done? ==> !AnyLimited(receipts))
  }

  ghost predicate Inv(site: Site, o: Options, s: Sync) {
    && PartitionsInv(site, o, s)
    && ExpansionInv(site, o, StateOf(o, s), Current(s))
    && ReceiptsInv(site, o, s)
    && LedgerInv(s.ledger, Current(s).allSeen)
    && (s.snapshot.None? ==> s.ledger.candidates == [])
    && (!s.status.Going? ==> s.page == |Partitions(o)| && !Waiting(s.ledger) && s.snapshot.Some? && !Current(s).status.Ready?)
  }
}
