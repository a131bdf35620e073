/** The receipts of the CorridasBR crawl: what each of their counts tells, and when the raw one is right. */
module CorridasReceipts {
  import opened Wrappers
  import opened Sequences
  import opened CrawlLedger
  import opened Reachability
  import opened CorridasCrawl
  import opened CorridasCrawlProofs

  // --- Distinct counts ----------------------------------------------------------------------

  ghost predicate Listed(site: Site, state: string, pages: set<Url>, id: string) {
    exists u :: u in pages && id in Ids(site.page(state, u).events)
  }

  ghost predicate ListedUnknown(site: Site, state: string, pages: set<Url>, id: string) {
    exists u :: u in pages && id in UnknownIds(site.page(state, u))
  }

  ghost predicate ListedExcluded(site: Site, state: string, pages: set<Url>, id: string) {
    exists u :: u in pages && id in ExcludedIds(site.page(state, u))
  }

  ghost predicate ReachablePages(site: Site, state: string, pages: set<Url>) {
    forall u :: u in pages <==> Reaches(Links(site, state), site.home(state), u)
  }

  /** The three sets are the ids listed on the pages: all, without a country, and of another country. */
  ghost predicate TalliedIds(site: Site, state: string, pages: set<Url>, ids: set<string>, unknown: set<string>, excluded: set<string>) {
    && (forall id :: id in ids <==> Listed(site, state, pages, id))
    && (forall id :: id in unknown <==> ListedUnknown(site, state, pages, id))
    && (forall id :: id in excluded <==> ListedExcluded(site, state, pages, id))
  }

  /** A receipt counts the pages reachable from the state's start page and the distinct ids on them: all
      of them, those without a country and those of another one. */
  ghost predicate Tells(site: Site, state: string, r: Receipt) {
    && r.state == state
    && exists pages: set<Url>, ids: set<string>, unknown: set<string>, excluded: set<string> ::
         && ReachablePages(site, state, pages) && TalliedIds(site, state, pages, ids, unknown, excluded)
         && r.requested == |pages| && r.unique == |ids| && r.unknownCountry == |unknown| && r.outOfScope == |excluded|
  }

  ghost predicate TallyInv(site: Site, o: Options, s: Sync)
    requires 1 <= s.page <= |o.states|
  {
    && TalliedIds(site, StateOf(o, s), s.snapshot.visited, s.snapshot.stateIds, s.snapshot.unknown, s.snapshot.excluded)
    && |s.snapshot.receipts| == (if s.status.Completed? then |o.states| else s.page - 1)
    && (forall q :: 0 <= q < |s.snapshot.receipts| && q < |o.states| ==> Tells(site, o.states[q], s.snapshot.receipts[q]))
  }

  lemma OnePageMore(site: Site, state: string, pages: set<Url>, url: Url, ids: set<string>, unknown: set<string>, excluded: set<string>)
    requires TalliedIds(site, state, pages, ids, unknown, excluded)
    ensures var page := site.page(state, url);
            TalliedIds(site, state, pages + {url}, ids + Elements(Ids(page.events)), unknown + Elements(UnknownIds(page)),
                   excluded + Elements(ExcludedIds(page)))
  {
    hide Ids, UnknownIds, ExcludedIds;
    var page := site.page(state, url);
    var more := pages + {url};
    forall id
      ensures Listed(site, state, more, id) <==> Listed(site, state, pages, id) || id in Ids(page.events)
      ensures ListedUnknown(site, state, more, id) <==> ListedUnknown(site, state, pages, id) || id in UnknownIds(page)
      ensures ListedExcluded(site, state, more, id) <==> ListedExcluded(site, state, pages, id) || id in ExcludedIds(page)
    {
      assert url in more;
    }
  }

  lemma DiscoverKeepsTally(site: Site, o: Options, s: Sync)
    requires 1 <= s.page <= |o.states| && TallyInv(site, o, s)
    ensures Discover(site, o, s).page == s.page && TallyInv(site, o, Discover(site, o, s))
  {
    hide Tells, TalliedIds, Queue, EligibleIds, UnknownIds, ExcludedIds, Unseen;
    OnePageMore(site, StateOf(o, s), s.snapshot.visited, s.snapshot.pageUrl, s.snapshot.stateIds, s.snapshot.unknown, s.snapshot.excluded);
  }

  lemma AdvanceKeepsTally(site: Site, o: Options, s: Sync)
    requires Inv(site, o, s) && Allowed(site, o, s, DoAdvance) && TallyInv(site, o, s)
    ensures 1 <= Advance(site, o, s).page <= |o.states| && TallyInv(site, o, Advance(site, o, s))
  {
    hide Reaches, EligibleIds, Wanted, LedgerInv, Tells, TalliedIds;
    if s.snapshot.pending == [] {
      SearchComplete(site, o, StateOf(o, s), s.snapshot);
      ReceiptTells(site, o, s);
      if s.page < |o.states| {
        NothingListed(site, o.states[s.page]);
      }
    }
  }

  lemma NothingListed(site: Site, state: string)
    ensures TalliedIds(site, state, {}, {}, {}, {})
  {
  }

  lemma ReceiptTells(site: Site, o: Options, s: Sync)
    requires 1 <= s.page <= |o.states| && TallyInv(site, o, s) && ReachablePages(site, StateOf(o, s), s.snapshot.visited)
    ensures Tells(site, StateOf(o, s), ReceiptOf(StateOf(o, s), s.snapshot))
  {
    hide TalliedIds, ReachablePages;
  }

  lemma SameTally(site: Site, o: Options, s: Sync, t: Sync)
    requires 1 <= s.page <= |o.states| && TallyInv(site, o, s)
    requires t.page == s.page && t.status == s.status && t.snapshot == s.snapshot
    ensures TallyInv(site, o, t)
  {
    hide Tells, TalliedIds;
  }

  lemma {:induction false} RunKeepsTally(site: Site, o: Options, s: Sync, actions: seq<Action>)
    requires WellFormed(site, o) && Inv(site, o, s) && 1 <= s.page <= |o.states| && TallyInv(site, o, s)
    ensures 1 <= Run(site, o, s, actions).page <= |o.states| && TallyInv(site, o, Run(site, o, s, actions))
  {
    hide Inv, WellFormed, TallyInv, Discover, Advance, InRegion;
    if actions != [] {
      var n := |actions| - 1;
      RunKeepsTally(site, o, s, actions[..n]);
      RunKeepsInv(site, o, s, actions[..n]);
      var before := Run(site, o, s, actions[..n]);
      if Allowed(site, o, before, actions[n]) {
        match actions[n]
        case DoDiscover => DiscoverKeepsTally(site, o, before);
        case DoEnrich(known) => SameTally(site, o, before, before.(ledger := Taken(before.ledger, known)));
        case DoAdvance => AdvanceKeepsTally(site, o, before);
      }
    }
  }

  lemma StartTally(site: Site, o: Options)
    requires o.states != []
    ensures TallyInv(site, o, Start(site, o))
  {
    hide Tells;
  }

  /** Everything known of the state a run ends in. */
  lemma Reached(site: Site, o: Options, actions: seq<Action>) returns (s: Sync)
    requires WellFormed(site, o) && o.states != []
    ensures s == Run(site, o, Start(site, o), actions) && Inv(site, o, s)
    ensures 1 <= s.page <= |o.states| && TallyInv(site, o, s)
  {
    hide Run, TallyInv, Inv, WellFormed;
    StartInv(site, o);
    StartTally(site, o);
    RunKeepsInv(site, o, Start(site, o), actions);
    RunKeepsTally(site, o, Start(site, o), actions);
    s := Run(site, o, Start(site, o), actions);
  }

  /** A completed crawl leaves one receipt per state, in order, that tells how many pages are reachable
      in that state and how many distinct events they list, in all, without a country and of another
      one, whatever crashes happened. */
  lemma ReceiptsAreExact(site: Site, o: Options, actions: seq<Action>)
    requires WellFormed(site, o) && o.states != [] && Run(site, o, Start(site, o), actions).status.Completed?
    ensures var receipts := Run(site, o, Start(site, o), actions).snapshot.receipts;
            |receipts| == |o.states| && forall q :: 0 <= q < |receipts| ==> Tells(site, o.states[q], receipts[q])
  {
    hide Run, Tells, Inv, WellFormed;
    var s := Reached(site, o, actions);
  }

  // --- The raw count ------------------------------------------------------------------------

  /** Discovering a page again after a crash changes nothing but the raw count, which then counts the
      page's listings once more. */
  lemma RediscoveryOnlyRecounts(site: Site, o: Options, actions: seq<Action>)
    requires WellFormed(site, o) && o.states != []
    requires Allowed(site, o, Run(site, o, Start(site, o), actions), DoDiscover)
    requires var s := Run(site, o, Start(site, o), actions); s.snapshot.pageUrl in s.snapshot.visited
    ensures var s := Run(site, o, Start(site, o), actions);
            Apply(site, o, s, DoDiscover) ==
            s.(snapshot := s.snapshot.(rawCount := s.snapshot.rawCount + |site.page(StateOf(o, s), s.snapshot.pageUrl).events|))
  {
    hide Run, Inv, WellFormed, TallyInv, EligibleIds, Queue, Unseen, UnknownIds, ExcludedIds, InRegion, Ids;
    var s := Reached(site, o, actions);
    RediscoveryFindsNothingNew(site, o, s);
    VisitedIsCounted(site, o, s);
  }

  lemma VisitedIsCounted(site: Site, o: Options, s: Sync)
    requires 1 <= s.page <= |o.states| && TallyInv(site, o, s) && s.snapshot.pageUrl in s.snapshot.visited
    ensures var page := site.page(StateOf(o, s), s.snapshot.pageUrl);
            && s.snapshot.stateIds + Elements(Ids(page.events)) == s.snapshot.stateIds
            && s.snapshot.unknown + Elements(UnknownIds(page)) == s.snapshot.unknown
            && s.snapshot.excluded + Elements(ExcludedIds(page)) == s.snapshot.excluded
  {
    hide Tells, Ids, UnknownIds, ExcludedIds;
    var state, url := StateOf(o, s), s.snapshot.pageUrl;
    var page := site.page(state, url);
    assert forall id :: id in Ids(page.events) ==> Listed(site, state, s.snapshot.visited, id);
    assert forall id :: id in UnknownIds(page) ==> ListedUnknown(site, state, s.snapshot.visited, id);
    assert forall id :: id in ExcludedIds(page) ==> ListedExcluded(site, state, s.snapshot.visited, id);
  }

  /** The number of listings on a set of pages, each page counted once. */
  ghost function Listings(site: Site, state: string, pages: set<Url>): nat {
    if pages == {} then 0
    else
      var u :| u in pages;
      |site.page(state, u).events| + Listings(site, state, pages - {u})
  }

  lemma {:induction false} ListingsWithout(site: Site, state: string, pages: set<Url>, url: Url)
    requires url in pages
    ensures Listings(site, state, pages) == |site.page(state, url).events| + Listings(site, state, pages - {url})
  {
    var u :| u in pages && Listings(site, state, pages) == |site.page(state, u).events| + Listings(site, state, pages - {u});
    if u != url {
      ListingsWithout(site, state, pages - {u}, url);
      ListingsWithout(site, state, pages - {url}, u);
      assert pages - {u} - {url} == pages - {url} - {u};
    }
  }

  /** The transaction discovers a page of state `q` that was visited before. */
  predicate Again(site: Site, o: Options, s: Sync, a: Action, q: nat) {
    a.DoDiscover? && Allowed(site, o, s, a) && s.page == q + 1 && s.snapshot.pageUrl in s.snapshot.visited
  }

  function Relisted(site: Site, o: Options, s: Sync, a: Action, q: nat): nat {
    if Again(site, o, s, a, q) then |site.page(StateOf(o, s), s.snapshot.pageUrl).events| else 0
  }

  /** The listings counted again over a run, while the crawl was at state `q`. */
  function Recounted(site: Site, o: Options, s: Sync, actions: seq<Action>, q: nat): nat {
    if actions == [] then 0
    else
      var n := |actions| - 1;
      Recounted(site, o, s, actions[..n], q) + Relisted(site, o, Run(site, o, s, actions[..n]), actions[n], q)
  }

  /** A count that has the listings of every reachable page once, and `extra` more. */
  ghost predicate CountsOnceAnd(site: Site, state: string, count: nat, extra: nat) {
    exists pages: set<Url> :: ReachablePages(site, state, pages) && count == Listings(site, state, pages) + extra
  }

  ghost predicate RawInv(site: Site, o: Options, s: Sync, recounted: nat -> nat)
    requires 1 <= s.page <= |o.states|
  {
    && s.snapshot.rawCount == Listings(site, StateOf(o, s), s.snapshot.visited) + recounted(s.page - 1)
    && (forall q: nat :: q >= s.page ==> recounted(q) == 0)
    && |s.snapshot.receipts| == (if s.status.Completed? then |o.states| else s.page - 1)
    && (forall q :: 0 <= q < |s.snapshot.receipts| && q < |o.states| ==>
          CountsOnceAnd(site, o.states[q], s.snapshot.receipts[q].rawCount, recounted(q)))
  }

  lemma DiscoverKeepsRaw(site: Site, o: Options, s: Sync, recounted: nat -> nat, after: nat -> nat)
    requires 1 <= s.page <= |o.states| && s.status.Ready? && RawInv(site, o, s, recounted) && Allowed(site, o, s, DoDiscover)
    requires forall q: nat :: after(q) == recounted(q) + Relisted(site, o, s, DoDiscover, q)
    ensures RawInv(site, o, Discover(site, o, s), after)
  {
    hide CountsOnceAnd, Listings, Queue, EligibleIds, UnknownIds, ExcludedIds, Unseen, InRegion, Ids;
    var state, url, visited := StateOf(o, s), s.snapshot.pageUrl, s.snapshot.visited;
    if url in visited {
      assert visited + {url} == visited;
    } else {
      ListingsWithout(site, state, visited + {url}, url);
      assert visited + {url} - {url} == visited;
    }
  }

  lemma AdvanceKeepsRaw(site: Site, o: Options, s: Sync, recounted: nat -> nat)
    requires Inv(site, o, s) && RawInv(site, o, s, recounted) && Allowed(site, o, s, DoAdvance)
    ensures 1 <= Advance(site, o, s).page <= |o.states| && RawInv(site, o, Advance(site, o, s), recounted)
  {
    hide Reaches, EligibleIds, Wanted, LedgerInv, CountsOnceAnd;
    if s.snapshot.pending == [] {
      SearchComplete(site, o, StateOf(o, s), s.snapshot);
      CountedOnce(site, StateOf(o, s), s.snapshot, recounted(s.page - 1));
    }
  }

  lemma CountedOnce(site: Site, state: string, s: Snapshot, extra: nat)
    requires ReachablePages(site, state, s.visited) && s.rawCount == Listings(site, state, s.visited) + extra
    ensures CountsOnceAnd(site, state, s.rawCount, extra)
  {
  }

  lemma {:induction false} RunKeepsRaw(site: Site, o: Options, actions: seq<Action>)
    requires WellFormed(site, o) && o.states != []
    ensures var s := Run(site, o, Start(site, o), actions);
            1 <= s.page <= |o.states| && RawInv(site, o, s, (q: nat) => Recounted(site, o, Start(site, o), actions, q))
  {
    hide Inv, WellFormed, RawInv, TallyInv, Discover, Advance, InRegion, Start;
    var start := Start(site, o);
    var after := (q: nat) => Recounted(site, o, start, actions, q);
    var s := Reached(site, o, actions);
    if actions == [] {
      StartRaw(site, o, after);
    } else {
      var n := |actions| - 1;
      var front := actions[..n];
      var recounted := (q: nat) => Recounted(site, o, start, front, q);
      RunKeepsRaw(site, o, front);
      var before := Reached(site, o, front);
      if Allowed(site, o, before, actions[n]) && actions[n].DoDiscover? {
        DiscoverKeepsRaw(site, o, before, recounted, after);
      } else {
        assert forall q: nat :: after(q) == recounted(q);
        if Allowed(site, o, before, actions[n]) && actions[n].DoAdvance? {
          AdvanceKeepsRaw(site, o, before, recounted);
          SameRaw(site, o, Advance(site, o, before), s, recounted, after);
        } else {
          SameRaw(site, o, before, s, recounted, after);
        }
      }
    }
  }

  lemma StartRaw(site: Site, o: Options, recounted: nat -> nat)
    requires o.states != [] && forall q: nat :: recounted(q) == 0
    ensures RawInv(site, o, Start(site, o), recounted)
  {
  }

  lemma SameRaw(site: Site, o: Options, s: Sync, t: Sync, recounted: nat -> nat, after: nat -> nat)
    requires 1 <= s.page <= |o.states| && RawInv(site, o, s, recounted)
    requires t.page == s.page && t.status == s.status && t.snapshot == s.snapshot
    requires forall q: nat :: after(q) == recounted(q)
    ensures RawInv(site, o, t, after)
  {
    hide CountsOnceAnd, Listings;
  }

  /** Transaction `n` of the run discovers again a visited page of state `q` that lists something. */
  predicate RelistsAt(site: Site, o: Options, s: Sync, actions: seq<Action>, n: nat, q: nat)
    requires n < |actions|
  {
    Relisted(site, o, Run(site, o, s, actions[..n]), actions[n], q) > 0
  }

  lemma {:induction false} RecountedNothingIff(site: Site, o: Options, s: Sync, actions: seq<Action>, q: nat)
    ensures Recounted(site, o, s, actions, q) == 0 <==> forall n :: 0 <= n < |actions| ==> !RelistsAt(site, o, s, actions, n, q)
  {
    hide Run, Relisted;
    if actions != [] {
      var n := |actions| - 1;
      RecountedNothingIff(site, o, s, actions[..n], q);
      assert forall m :: 0 <= m < n ==> actions[..n][..m] == actions[..m] && actions[..n][m] == actions[m];
      assert forall m :: 0 <= m < n ==> RelistsAt(site, o, s, actions[..n], m, q) == RelistsAt(site, o, s, actions, m, q);
      assert RelistsAt(site, o, s, actions, n, q) <==> Relisted(site, o, Run(site, o, s, actions[..n]), actions[n], q) > 0;
    }
  }

  /** A receipt's raw count has the listings of every page reachable in its state once, and those of each
      page discovered again once more for every time; so it is the number of listings if and only if no
      transaction of the run discovered again a visited page of that state that lists anything. */
  lemma RawCountIsExactIff(site: Site, o: Options, actions: seq<Action>, q: nat, pages: set<Url>)
    requires WellFormed(site, o) && q < |o.states|
    requires q < |Run(site, o, Start(site, o), actions).snapshot.receipts|
    requires forall u :: u in pages <==> Reaches(Links(site, o.states[q]), site.home(o.states[q]), u)
    ensures var raw := Run(site, o, Start(site, o), actions).snapshot.receipts[q].rawCount;
            && raw == Listings(site, o.states[q], pages) + Recounted(site, o, Start(site, o), actions, q)
            && (raw == Listings(site, o.states[q], pages) <==>
                forall n :: 0 <= n < |actions| ==> !RelistsAt(site, o, Start(site, o), actions, n, q))
  {
    hide Run, Recounted, Listings, RelistsAt, WellFormed, Reaches, Start;
    RunKeepsRaw(site, o, actions);
    RecountedNothingIff(site, o, Start(site, o), actions, q);
    var all: set<Url> :| ReachablePages(site, o.states[q], all)
      && Run(site, o, Start(site, o), actions).snapshot.receipts[q].rawCount ==
         Listings(site, o.states[q], all) + Recounted(site, o, Start(site, o), actions, q);
    assert all == pages;
  }

  // --- A wrong raw count --------------------------------------------------------------------

  /** One state whose only page lists one foreign event. */
  const FOREIGN := Listing("1", Some("SP"), Some("AR"), None)
  const ONE_PAGE := Page([FOREIGN], [])
  const ONE_PAGE_SITE := Site((state: string) => "home", (state: string, url: Url) => ONE_PAGE)
  const ONE_STATE := Options(["SP"], None, None)

  /** It happens: one worker dies after discovering the page, which offered no candidate; the next one
      discovers it again and advances. The receipt counts two listings where there is one. */
  lemma RawCountCanBeWrong() returns (actions: seq<Action>)
    ensures WellFormed(ONE_PAGE_SITE, ONE_STATE)
    ensures var s := Run(ONE_PAGE_SITE, ONE_STATE, Start(ONE_PAGE_SITE, ONE_STATE), actions);
            && AllAllowed(ONE_PAGE_SITE, ONE_STATE, Start(ONE_PAGE_SITE, ONE_STATE), actions)
            && s.status.Completed? && |s.snapshot.receipts| == 1
            && s.snapshot.receipts[0].rawCount == 2 && s.snapshot.receipts[0].unique == 1
  {
    hide Run, AllAllowed, Allowed, Apply, Start;
    var site, o := ONE_PAGE_SITE, ONE_STATE;
    var s0 := Start(site, o);
    actions := [] + [DoDiscover] + [DoDiscover] + [DoAdvance];
    NothingDone(site, o, s0);
    FirstDiscovery(s0);
    OneMore(site, o, s0, [], DoDiscover);
    SecondDiscovery(Found(1));
    OneMore(site, o, s0, [] + [DoDiscover], DoDiscover);
    LastAdvance(Found(2));
    OneMore(site, o, s0, [] + [DoDiscover] + [DoDiscover], DoAdvance);
  }

  /** The row after so many discoveries of the page. */
  function Found(times: nat): Sync {
    Sync(Ready, 1, Snapshot({}, "home", [], {"home"}, {"1"}, times, {}, {"1"}, []), CrawlLedger.EMPTY)
  }

  lemma OnePage()
    ensures EligibleIds(ONE_STATE, ONE_PAGE) == [] && UnknownIds(ONE_PAGE) == [] && ExcludedIds(ONE_PAGE) == ["1"]
  {
    OneListing(FOREIGN, (e: Listing) => Eligible(ONE_STATE, e));
    OneListing(FOREIGN, (e: Listing) => !Present(e.country));
    OneListing(FOREIGN, (e: Listing) => Present(e.country) && e.country != Some("BR"));
  }

  lemma OneListing(e: Listing, p: Listing -> bool)
    ensures Ids(Where([e], p)) == if p(e) then [e.externalId] else []
  {
    assert [e][..0] == [];
  }

  lemma FirstDiscovery(s: Sync)
    requires s == Start(ONE_PAGE_SITE, ONE_STATE)
    ensures Allowed(ONE_PAGE_SITE, ONE_STATE, s, DoDiscover) && Apply(ONE_PAGE_SITE, ONE_STATE, s, DoDiscover) == Found(1)
  {
    hide EligibleIds, UnknownIds, ExcludedIds;
    OnePage();
  }

  lemma SecondDiscovery(s: Sync)
    requires s == Found(1)
    ensures Allowed(ONE_PAGE_SITE, ONE_STATE, s, DoDiscover) && Apply(ONE_PAGE_SITE, ONE_STATE, s, DoDiscover) == Found(2)
  {
    hide EligibleIds, UnknownIds, ExcludedIds;
    OnePage();
  }

  lemma LastAdvance(s: Sync)
    requires s == Found(2)
    ensures Allowed(ONE_PAGE_SITE, ONE_STATE, s, DoAdvance)
    ensures var t := Apply(ONE_PAGE_SITE, ONE_STATE, s, DoAdvance);
            t.status.Completed? && t.snapshot.receipts == [Receipt("SP", 1, 2, 1, 0, 1)]
  {
  }
}
