/** Every run of the CorridasBR crawl, crashes included, finds exactly what the link graph holds. */
module CorridasCrawlProofs {
  import opened Wrappers
  import opened Sequences
  import opened CrawlLedger
  import opened Reachability
  import opened CorridasCrawl

  lemma EligibleDistinct(site: Site, o: Options, state: string, url: Url)
    requires WellFormed(site, o)
    ensures Distinct(EligibleIds(o, site.page(state, url)))
  {
    WhereDistinct(site.page(state, url).events, (e: Listing) => Eligible(o, e));
  }

  lemma StartInv(site: Site, o: Options)
    requires WellFormed(site, o)
    ensures Inv(site, o, Start(site, o))
  {
    ReachesItself(Links(site, o.states[0]), site.home(o.states[0]));
    assert CrawlLedger.EMPTY.handled + CrawlLedger.EMPTY.candidates[0..] == [];
  }

  // --- Discovery ----------------------------------------------------------------------------

  lemma DiscoverySearches(site: Site, o: Options, state: string, s: Snapshot)
    requires SearchInv(site, o, state, s)
    ensures SearchInv(site, o, state, Discovered(o, s, site.page(state, s.pageUrl)))
  {
    hide Reaches, EligibleIds, Where, Queue;
    var page := site.page(state, s.pageUrl);
    var t := Discovered(o, s, page);
    forall u | Frontier(t, u)
      ensures Reaches(Links(site, state), site.home(state), u)
    {
      if !Frontier(s, u) {
        assert u in page.nextUrls;
        ReachesNext(Links(site, state), site.home(state), s.pageUrl, u);
      }
    }
    assert forall u :: Frontier(s, u) ==> Frontier(t, u);
  }

  lemma DiscoveryKeepsStates(site: Site, o: Options, s: Sync)
    requires StatesInv(site, o, s) && SearchInv(site, o, StateOf(o, s), s.snapshot)
    ensures StatesInv(site, o, Discover(site, o, s))
  {
    hide Reaches, EligibleIds, Where, Queue;
    var t := Discover(site, o, s);
    forall id | id in t.snapshot.seen
      ensures exists q :: 0 <= q < s.page && Wanted(site, o, o.states[q], id)
    {
      if id !in s.snapshot.seen {
        assert Frontier(s.snapshot, s.snapshot.pageUrl);
        assert Lists(site, o, StateOf(o, s), s.snapshot.pageUrl, id);
        assert Wanted(site, o, o.states[s.page - 1], id);
      }
    }
  }

  lemma DiscoverKeepsInv(site: Site, o: Options, s: Sync)
    requires WellFormed(site, o) && Inv(site, o, s) && Allowed(site, o, s, DoDiscover)
    ensures Inv(site, o, Discover(site, o, s))
  {
    hide StatesInv, SearchInv, EligibleIds, LedgerInv, WellFormed, Queue, Where;
    var ids := EligibleIds(o, site.page(StateOf(o, s), s.snapshot.pageUrl));
    EligibleDistinct(site, o, StateOf(o, s), s.snapshot.pageUrl);
    UnseenDistinct(ids, s.snapshot.seen);
    OfferedKeeps(s.ledger, Unseen(ids, s.snapshot.seen), s.snapshot.seen, s.snapshot.seen + Elements(ids));
    DiscoverySearches(site, o, StateOf(o, s), s.snapshot);
    StatesPage(site, o, s);
    DiscoveryKeepsStates(site, o, s);
  }

  lemma StatesPage(site: Site, o: Options, s: Sync)
    requires StatesInv(site, o, s)
    ensures 1 <= s.page <= |o.states|
  {
  }

  // --- Advancing ----------------------------------------------------------------------------

  /** With no page left to visit, the visited pages are exactly the reachable ones. */
  lemma SearchComplete(site: Site, o: Options, state: string, s: Snapshot)
    requires SearchInv(site, o, state, s) && s.pending == [] && s.pageUrl in s.visited
    ensures forall u :: u in s.visited <==> Reaches(Links(site, state), site.home(state), u)
    ensures forall id :: Wanted(site, o, state, id) ==> id in s.seen
  {
    hide Reaches, EligibleIds;
    assert forall u :: Frontier(s, u) <==> u in s.visited;
    assert Closed(Links(site, state), s.visited);
    ClosedHoldsReachable(Links(site, state), s.visited, site.home(state));
    forall id | Wanted(site, o, state, id)
      ensures id in s.seen
    {
      var url :| Lists(site, o, state, url, id);
    }
  }

  lemma NextPageKeepsInv(site: Site, o: Options, s: Sync)
    requires Inv(site, o, s) && Allowed(site, o, s, DoAdvance) && s.snapshot.pending != []
    ensures Inv(site, o, Advance(site, o, s))
  {
    hide Reaches, EligibleIds, Wanted, LedgerInv;
    ClearedKeeps(s.ledger, s.snapshot.seen);
    var t := Advance(site, o, s);
    assert forall u :: Frontier(s.snapshot, u) <==> Frontier(t.snapshot, u) by {
      assert s.snapshot.pending == [s.snapshot.pending[0]] + s.snapshot.pending[1..];
    }
  }

  lemma NextStateKeepsInv(site: Site, o: Options, s: Sync)
    requires Inv(site, o, s) && Allowed(site, o, s, DoAdvance) && s.snapshot.pending == [] && s.page < |o.states|
    ensures Inv(site, o, Advance(site, o, s))
  {
    hide Reaches, EligibleIds, Wanted, LedgerInv;
    ClearedKeeps(s.ledger, s.snapshot.seen);
    SearchComplete(site, o, StateOf(o, s), s.snapshot);
    var t := Advance(site, o, s);
    ReachesItself(Links(site, o.states[s.page]), site.home(o.states[s.page]));
    assert forall u :: Frontier(t.snapshot, u) <==> u == site.home(o.states[s.page]);
    forall q, id | 0 <= q < t.page - 1 && Wanted(site, o, o.states[q], id)
      ensures id in t.snapshot.seen
    {
      assert q < s.page - 1 || o.states[q] == StateOf(o, s);
    }
  }

  lemma CompletionKeepsInv(site: Site, o: Options, s: Sync)
    requires Inv(site, o, s) && Allowed(site, o, s, DoAdvance) && s.snapshot.pending == [] && s.page >= |o.states|
    ensures Inv(site, o, Advance(site, o, s))
  {
    hide Reaches, EligibleIds, Wanted, LedgerInv;
    ClearedKeeps(s.ledger, s.snapshot.seen);
    var t := Advance(site, o, s);
    assert forall u :: Frontier(s.snapshot, u) <==> Frontier(t.snapshot, u);
  }

  lemma ApplyKeepsInv(site: Site, o: Options, s: Sync, a: Action)
    requires WellFormed(site, o) && Inv(site, o, s)
    ensures Inv(site, o, Apply(site, o, s, a))
  {
    hide StatesInv, SearchInv, Discover, Advance, LedgerInv, WellFormed;
    if Allowed(site, o, s, a) {
      match a
      case DoDiscover => DiscoverKeepsInv(site, o, s);
      case DoEnrich(known) =>
        TakenKeeps(s.ledger, known, s.snapshot.seen);
        EnrichKeepsRest(site, o, s, known);
      case DoAdvance =>
        if s.snapshot.pending != [] {
          NextPageKeepsInv(site, o, s);
        } else if s.page < |o.states| {
          NextStateKeepsInv(site, o, s);
        } else {
          CompletionKeepsInv(site, o, s);
        }
    }
  }

  lemma EnrichKeepsRest(site: Site, o: Options, s: Sync, known: bool)
    requires StatesInv(site, o, s) && Waiting(s.ledger)
    ensures StatesInv(site, o, s.(ledger := Taken(s.ledger, known)))
  {
  }

  lemma {:induction false} RunKeepsInv(site: Site, o: Options, s: Sync, actions: seq<Action>)
    requires WellFormed(site, o) && Inv(site, o, s)
    ensures Inv(site, o, Run(site, o, s, actions))
  {
    hide Inv, Apply, WellFormed;
    if actions != [] {
      RunKeepsInv(site, o, s, actions[..|actions| - 1]);
      ApplyKeepsInv(site, o, Run(site, o, s, actions[..|actions| - 1]), actions[|actions| - 1]);
    }
  }

  // --- What a run promises ------------------------------------------------------------------

  /** In every state: what was discovered is what was processed and what still waits, and each id is
      handled at most once over all pages and states, with one enrichment task. */
  lemma CountersAgree(site: Site, o: Options, actions: seq<Action>)
    requires WellFormed(site, o)
    ensures LedgerInv(Run(site, o, Start(site, o), actions).ledger, Run(site, o, Start(site, o), actions).snapshot.seen)
  {
    hide Run, StatesInv, SearchInv, LedgerInv;
    StartInv(site, o);
    RunKeepsInv(site, o, Start(site, o), actions);
  }

  /** A completed crawl, whatever crashes it went through, has handled and enriched exactly once each
      exactly the eligible events listed on pages reachable from some state's start page. */
  lemma CompletedCrawlIsExact(site: Site, o: Options, actions: seq<Action>)
    requires WellFormed(site, o) && Run(site, o, Start(site, o), actions).status.Completed?
    ensures var l := Run(site, o, Start(site, o), actions).ledger;
            && (forall id :: id in l.handled <==> exists q :: 0 <= q < |o.states| && Wanted(site, o, o.states[q], id))
            && Distinct(l.handled) && l.enrichments == Elements(l.handled)
            && l.discovered == l.processed == l.created + l.existing == |l.handled|
  {
    hide Run, SearchInv, LedgerInv, Wanted;
    StartInv(site, o);
    RunKeepsInv(site, o, Start(site, o), actions);
    var s := Run(site, o, Start(site, o), actions);
    SearchComplete(site, o, StateOf(o, s), s.snapshot);
    NothingWaiting(s.ledger, s.snapshot.seen);
    LedgerCounts(s.ledger, s.snapshot.seen);
    forall id
      ensures id in s.ledger.handled <==> exists q :: 0 <= q < |o.states| && Wanted(site, o, o.states[q], id)
    {
      assert id in s.ledger.handled <==> id in Elements(s.ledger.handled);
      if q :| 0 <= q < |o.states| && Wanted(site, o, o.states[q], id) {
        assert q < s.page - 1 || o.states[q] == StateOf(o, s);
      }
    }
  }

  // --- Termination --------------------------------------------------------------------------

  /** A page discovered again offers nothing and leads nowhere new. */
  lemma RediscoveryFindsNothingNew(site: Site, o: Options, s: Sync)
    requires Inv(site, o, s) && Allowed(site, o, s, DoDiscover) && s.snapshot.pageUrl in s.snapshot.visited
    ensures var t := Discover(site, o, s);
            && t.ledger == s.ledger
            && t.snapshot.seen == s.snapshot.seen
            && t.snapshot.visited == s.snapshot.visited
            && t.snapshot.pending == s.snapshot.pending
  {
    hide Reaches, StatesInv, LedgerInv;
    var page := site.page(StateOf(o, s), s.snapshot.pageUrl);
    var ids := EligibleIds(o, page);
    NothingUnseen(ids, s.snapshot.seen);
    assert forall u :: u in page.nextUrls ==> Frontier(s.snapshot, u);
    var visited := s.snapshot.visited + {s.snapshot.pageUrl};
    QueueKept(s.snapshot.pending, page.nextUrls, visited);
    assert Elements(ids) <= s.snapshot.seen;
  }

  lemma {:induction false} QueueKept(pending: seq<Url>, next: seq<Url>, visited: set<Url>)
    requires forall i, j :: 0 <= i < j < |pending| ==> pending[i] != pending[j]
    requires forall u :: u in pending ==> u !in visited
    requires forall u :: u in next ==> u in pending || u in visited
    ensures Queue(pending + next, visited) == pending
    decreases |pending| + |next|
  {
    var all := pending + next;
    if next != [] {
      assert next[|next| - 1] in next;
      assert all[..|all| - 1] == pending + next[..|next| - 1];
      QueueKept(pending, next[..|next| - 1], visited);
    } else if pending != [] {
      var n := |pending| - 1;
      assert all == pending && all[..n] == pending[..n] + [];
      assert pending[n] in pending;
      QueueKept(pending[..n], [], visited);
      assert pending[n] !in pending[..n];
      assert pending == pending[..n] + [pending[n]];
    } else {
      assert all == [];
    }
  }

  /** Lexicographic measure: states left, pages not visited, pages queued, candidates waiting. */
  ghost predicate Below(o: Options, pages: set<Url>, t: Sync, s: Sync) {
    var left := (x: Sync) => if x.status.Completed? then 0 else 1 + |o.states| - x.page;
    var unvisited := (x: Sync) => |pages - x.snapshot.visited|;
    || left(t) < left(s)
    || (left(t) == left(s) && unvisited(t) < unvisited(s))
    || (left(t) == left(s) && unvisited(t) == unvisited(s) && |t.snapshot.pending| < |s.snapshot.pending|)
    || (left(t) == left(s) && unvisited(t) == unvisited(s) && |t.snapshot.pending| == |s.snapshot.pending|
        && |t.ledger.candidates| - t.ledger.cursor < |s.ledger.candidates| - s.ledger.cursor)
  }

  /** Every transaction but a rediscovery moves the crawl down the measure. */
  lemma TransactionsProgress(site: Site, o: Options, pages: set<Url>, s: Sync, a: Action)
    requires Inv(site, o, s) && Allowed(site, o, s, a)
    requires forall u :: Reaches(Links(site, StateOf(o, s)), site.home(StateOf(o, s)), u) ==> u in pages
    ensures (a.DoDiscover? && s.snapshot.pageUrl in s.snapshot.visited) || Below(o, pages, Apply(site, o, s, a), s)
  {
    hide StatesInv, LedgerInv, Reaches, EligibleIds, Queue, Links;
    match a
    case DoDiscover =>
      if s.snapshot.pageUrl !in s.snapshot.visited {
        assert Frontier(s.snapshot, s.snapshot.pageUrl);
        var visited := s.snapshot.visited + {s.snapshot.pageUrl};
        assert pages - s.snapshot.visited == (pages - visited) + {s.snapshot.pageUrl};
      }
    case DoEnrich(_) =>
    case DoAdvance =>
  }

  ghost predicate AllAllowed(site: Site, o: Options, s: Sync, actions: seq<Action>) {
    forall n :: 0 <= n < |actions| ==> Allowed(site, o, Run(site, o, s, actions[..n]), actions[n])
  }

  lemma NothingDone(site: Site, o: Options, s: Sync)
    ensures AllAllowed(site, o, s, []) && Run(site, o, s, []) == s
  {
  }

  lemma OneMore(site: Site, o: Options, s: Sync, actions: seq<Action>, a: Action)
    requires AllAllowed(site, o, s, actions) && Allowed(site, o, Run(site, o, s, actions), a)
    ensures AllAllowed(site, o, s, actions + [a])
    ensures Run(site, o, s, actions + [a]) == Apply(site, o, Run(site, o, s, actions), a)
  {
    var all := actions + [a];
    assert all[..|actions|] == actions;
    assert forall m :: 0 <= m < |actions| ==> all[..m] == actions[..m] && all[m] == actions[m];
  }

  ghost predicate NotAbove(o: Options, pages: set<Url>, t: Sync, s: Sync) {
    || Below(o, pages, t, s)
    || (t.status == s.status && t.page == s.page && t.snapshot.visited == s.snapshot.visited
        && |t.snapshot.pending| == |s.snapshot.pending|
        && |t.ledger.candidates| - t.ledger.cursor == |s.ledger.candidates| - s.ledger.cursor)
  }

  lemma NeverAbove(site: Site, o: Options, pages: set<Url>, s: Sync, a: Action)
    requires Inv(site, o, s) && Allowed(site, o, s, a)
    requires forall state, u :: Reaches(Links(site, state), site.home(state), u) ==> u in pages
    ensures NotAbove(o, pages, Apply(site, o, s, a), s)
  {
    hide StatesInv, SearchInv, LedgerInv, Reaches, Below, Links;
    TransactionsProgress(site, o, pages, s, a);
    if a.DoDiscover? && s.snapshot.pageUrl in s.snapshot.visited {
      RediscoveryFindsNothingNew(site, o, s);
    }
  }

  lemma FrontAllowed(site: Site, o: Options, s: Sync, actions: seq<Action>)
    requires AllAllowed(site, o, s, actions) && actions != []
    ensures AllAllowed(site, o, s, actions[..|actions| - 1])
    ensures Allowed(site, o, Run(site, o, s, actions[..|actions| - 1]), actions[|actions| - 1])
  {
    hide Run, Allowed;
    var n := |actions| - 1;
    assert forall m :: 0 <= m < n ==> actions[..n][..m] == actions[..m] && actions[..n][m] == actions[m];
  }

  lemma {:induction false} RunNeverAbove(site: Site, o: Options, pages: set<Url>, s: Sync, actions: seq<Action>)
    requires WellFormed(site, o) && Inv(site, o, s) && AllAllowed(site, o, s, actions)
    requires forall state, u :: Reaches(Links(site, state), site.home(state), u) ==> u in pages
    ensures NotAbove(o, pages, Run(site, o, s, actions), s)
  {
    hide Inv, Apply, WellFormed, Reaches, Links, Allowed, AllAllowed;
    if actions != [] {
      var n := |actions| - 1;
      var front := actions[..n];
      FrontAllowed(site, o, s, actions);
      RunNeverAbove(site, o, pages, s, front);
      RunKeepsInv(site, o, s, front);
      NeverAbove(site, o, pages, Run(site, o, s, front), actions[n]);
    }
  }

  /** Over a finite link graph, transactions that end with an enrichment or an advance bring the crawl
      strictly down its measure, so only finitely many invocations can go by uncrashed. */
  lemma CommittedBatchProgresses(site: Site, o: Options, pages: set<Url>, s: Sync, actions: seq<Action>)
    requires WellFormed(site, o) && Inv(site, o, s) && AllAllowed(site, o, s, actions)
    requires actions != [] && !actions[|actions| - 1].DoDiscover?
    requires forall state, u :: Reaches(Links(site, state), site.home(state), u) ==> u in pages
    ensures Below(o, pages, Run(site, o, s, actions), s)
  {
    hide Inv, Apply, WellFormed, Reaches, Links, Allowed, AllAllowed;
    var n := |actions| - 1;
    var front := actions[..n];
    FrontAllowed(site, o, s, actions);
    RunNeverAbove(site, o, pages, s, front);
    RunKeepsInv(site, o, s, front);
    TransactionsProgress(site, o, pages, Run(site, o, s, front), actions[n]);
  }
}
