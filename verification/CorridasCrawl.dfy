/**
 The resumable CorridasBR crawl: per state, a search over the calendar's links, one page at a time,
 whose candidates are taken one transaction each. A crash may fall between any two transactions.
 */
module CorridasCrawl {
  import opened Wrappers
  import opened Sequences
  import opened CrawlLedger
  import opened Reachability

  type Url = string

  /** A page lists distinct ids and reports the address it was asked for. */
  datatype Page = Page(events: seq<Listing>, nextUrls: seq<Url>)

  datatype Options = Options(states: seq<string>, from: Option<int>, to: Option<int>)

  /** The source's link graph: the start page of each state and every page of it. */
  datatype Site = Site(home: string -> Url, page: (string, Url) -> Page)

  datatype Receipt = Receipt(state: string, requested: nat, rawCount: nat, unique: nat, unknownCountry: nat, outOfScope: nat)

  datatype Snapshot =
    Snapshot(seen: set<string>, pageUrl: Url, pending: seq<Url>, visited: set<Url>, stateIds: set<string>, rawCount: nat,
             unknown: set<string>, excluded: set<string>, receipts: seq<Receipt>)

  datatype Status = Ready | Completed

  /** The sync row. `page` counts states from 1, as stored. */
  datatype Sync = Sync(status: Status, page: nat, snapshot: Snapshot, ledger: Ledger)

  ghost predicate WellFormed(site: Site, o: Options) {
    && o.states != []
    && forall state, url :: Distinct(Ids(site.page(state, url).events))
  }

  predicate Eligible(o: Options, e: Listing) {
    && (!Present(e.country) || e.country == Some("BR"))
    && (e.day.None? || ((o.from.None? || e.day.value >= o.from.value) && (o.to.None? || e.day.value <= o.to.value)))
  }

  function EligibleIds(o: Options, page: Page): seq<string> {
    Ids(Where(page.events, (e: Listing) => Eligible(o, e)))
  }

  /** The listings without a country, and those of another country. */
  function UnknownIds(page: Page): seq<string> {
    Ids(Where(page.events, (e: Listing) => !Present(e.country)))
  }

  function ExcludedIds(page: Page): seq<string> {
    Ids(Where(page.events, (e: Listing) => Present(e.country) && e.country != Some("BR")))
  }

  /** Addresses in first-seen order without repetitions or visited ones. */
  function Queue(urls: seq<Url>, visited: set<Url>): (queue: seq<Url>)
    ensures forall u :: u in queue <==> u in urls && u !in visited
    ensures forall i, j :: 0 <= i < j < |queue| ==> queue[i] != queue[j]
  {
    if urls == [] then []
    else
      var last, rest := urls[|urls| - 1], Queue(urls[..|urls| - 1], visited);
      assert urls == urls[..|urls| - 1] + [last];
      if last in visited || last in rest then rest else rest + [last]
  }

  function Fresh(home: Url): Snapshot {
    Snapshot({}, home, [], {}, {}, 0, {}, {}, [])
  }

  function Start(site: Site, o: Options): Sync
    requires o.states != []
  {
    Sync(Ready, 1, Fresh(site.home(o.states[0])), CrawlLedger.EMPTY)
  }

  // --- Transactions -------------------------------------------------------------------------

  function StateOf(o: Options, s: Sync): string
    requires 1 <= s.page <= |o.states|
  {
    o.states[s.page - 1]
  }

  function Discovered(o: Options, snapshot: Snapshot, page: Page): Snapshot {
    var visited := snapshot.visited + {snapshot.pageUrl};
    snapshot.(seen := snapshot.seen + Elements(EligibleIds(o, page)),
              visited := visited, pending := Queue(snapshot.pending + page.nextUrls, visited),
              stateIds := snapshot.stateIds + Elements(Ids(page.events)), rawCount := snapshot.rawCount + |page.events|,
              unknown := snapshot.unknown + Elements(UnknownIds(page)),
              excluded := snapshot.excluded + Elements(ExcludedIds(page)))
  }

  function Discover(site: Site, o: Options, s: Sync): Sync
    requires 1 <= s.page <= |o.states|
  {
    var page := site.page(StateOf(o, s), s.snapshot.pageUrl);
    s.(snapshot := Discovered(o, s.snapshot, page), ledger := Offered(s.ledger, Unseen(EligibleIds(o, page), s.snapshot.seen)))
  }

  function ReceiptOf(state: string, snapshot: Snapshot): Receipt {
    Receipt(state, |snapshot.visited|, snapshot.rawCount, |snapshot.stateIds|, |snapshot.unknown|, |snapshot.excluded|)
  }

  function Advance(site: Site, o: Options, s: Sync): Sync
    requires 1 <= s.page <= |o.states|
  {
    var done := s.(ledger := Cleared(s.ledger));
    var snapshot := s.snapshot;
    if snapshot.pending != [] then
      done.(snapshot := snapshot.(pageUrl := snapshot.pending[0], pending := snapshot.pending[1..]))
    else
      var closed := snapshot.(receipts := snapshot.receipts + [ReceiptOf(StateOf(o, s), snapshot)]);
      if s.page < |o.states| then
        done.(page := s.page + 1,
              snapshot := Fresh(site.home(o.states[s.page])).(seen := snapshot.seen, receipts := closed.receipts))
      else done.(status := Completed, snapshot := closed)
  }

  /** A page listing another state's events is refused and nothing is stored. */
  predicate InRegion(site: Site, o: Options, s: Sync)
    requires 1 <= s.page <= |o.states|
  {
    forall e :: e in site.page(StateOf(o, s), s.snapshot.pageUrl).events ==> e.state == Some(StateOf(o, s))
  }

  /** `DoEnrich` carries whether the edition already has a reference, which anyone may have added. */
  datatype Action = DoDiscover | DoEnrich(known: bool) | DoAdvance

  /** When a worker, starting afresh or going on, may commit the transaction. A page that offered
      nothing is discovered again if the worker crashed before advancing. */
  predicate Allowed(site: Site, o: Options, s: Sync, a: Action) {
    && s.status.Ready? && 1 <= s.page <= |o.states|
    && match a
       case DoDiscover => s.ledger.candidates == [] && s.ledger.cursor == 0 && InRegion(site, o, s)
       case DoEnrich(_) => Waiting(s.ledger)
       case DoAdvance => !Waiting(s.ledger) && s.snapshot.pageUrl in s.snapshot.visited
  }

  function Apply(site: Site, o: Options, s: Sync, a: Action): Sync {
    if !Allowed(site, o, s, a) then s
    else
      match a
      case DoDiscover => Discover(site, o, s)
      case DoEnrich(known) => s.(ledger := Taken(s.ledger, known))
      case DoAdvance => Advance(site, o, s)
  }

  function Run(site: Site, o: Options, s: Sync, actions: seq<Action>): Sync {
    if actions == [] then s else Apply(site, o, Run(site, o, s, actions[..|actions| - 1]), actions[|actions| - 1])
  }

  // --- Invariants ---------------------------------------------------------------------------

  /** The edges of one state's link graph. */
  function Links(site: Site, state: string): (Url, Url) -> bool {
    (x: Url, y: Url) => y in site.page(state, x).nextUrls
  }

  ghost predicate Lists(site: Site, o: Options, state: string, url: Url, id: string) {
    Reaches(Links(site, state), site.home(state), url) && id in EligibleIds(o, site.page(state, url))
  }

  /** Some page reachable from the state's start page lists the id as eligible. */
  ghost predicate Wanted(site: Site, o: Options, state: string, id: string) {
    exists url :: Lists(site, o, state, url, id)
  }

  ghost predicate Frontier(s: Snapshot, url: Url) {
    url in s.visited || url in s.pending || url == s.pageUrl
  }

  ghost predicate SearchInv(site: Site, o: Options, state: string, s: Snapshot) {
    && Frontier(s, site.home(state))
    && (forall u :: Frontier(s, u) ==> Reaches(Links(site, state), site.home(state), u))
    && (forall u, v :: u in s.visited && v in site.page(state, u).nextUrls ==> Frontier(s, v))
    && (forall u, id :: u in s.visited && id in EligibleIds(o, site.page(state, u)) ==> id in s.seen)
    && (forall i, j :: 0 <= i < j < |s.pending| ==> s.pending[i] != s.pending[j])
    && (forall u :: u in s.pending ==> u !in s.visited && u != s.pageUrl)
  }

  ghost predicate StatesInv(site: Site, o: Options, s: Sync) {
    && 1 <= s.page <= |o.states|
    && (forall q, id :: 0 <= q < s.page - 1 && Wanted(site, o, o.states[q], id) ==> id in s.snapshot.seen)
    && (forall id :: id in s.snapshot.seen ==> exists q :: 0 <= q < s.page && Wanted(site, o, o.states[q], id))
  }

  ghost predicate Inv(site: Site, o: Options, s: Sync) {
    && StatesInv(site, o, s)
    && SearchInv(site, o, StateOf(o, s), s.snapshot)
    && LedgerInv(s.ledger, s.snapshot.seen)
    && (s.snapshot.pageUrl !in s.snapshot.visited ==> s.ledger.candidates == [])
    && (s.status.Completed? ==> s.page == |o.states| && !Waiting(s.ledger) && s.snapshot.pending == [] && s.snapshot.pageUrl in s.snapshot.visited)
  }
}
