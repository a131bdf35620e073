/** The worker's invocations of the CorridasBR crawl on its stored row. */
module CorridasCrawlWorker {
  import opened Wrappers
  import opened Sequences
  import opened CrawlLedger
  import opened CorridasCrawl
  import opened CorridasCrawlProofs

  datatype Stage = NotReady | RegionIgnored | Crashed | Batch(processed: nat)

  class CorridasCatalog {
    var status: Status
    var page: nat
    var snapshot: Snapshot
    var ledger: Ledger

    function Row(): Sync
      reads this
    {
      Sync(status, page, snapshot, ledger)
    }

    constructor (site: Site, o: Options)
      requires o.states != []
      ensures Row() == Start(site, o)
    {
      status, page := Ready, 1;
      snapshot, ledger := Fresh(site.home(o.states[0])), CrawlLedger.EMPTY;
    }

    /** One invocation: discover if nothing waits, take up to a batch of candidates, and advance when
        none is left. The process dies once `budget` transactions have committed; `actions` are those that did. `known` tells which
        editions already have a reference when their turn comes. */
    method SyncNational(site: Site, o: Options, batchSize: nat, known: string -> bool, budget: nat)
      returns (stage: Stage, actions: seq<Action>)
      requires batchSize >= 1 && WellFormed(site, o) && Inv(site, o, Row())
      modifies this
      ensures Inv(site, o, Row())
      ensures AllAllowed(site, o, old(Row()), actions) && Row() == Run(site, o, old(Row()), actions)
      ensures |actions| <= budget && (stage.Crashed? ==> |actions| == budget)
      ensures stage.NotReady? <==> !old(status).Ready?
      ensures stage.NotReady? || stage.RegionIgnored? ==> actions == []
      ensures stage.Batch? ==> actions != [] && !actions[|actions| - 1].DoDiscover?
      ensures stage.Batch? ==> stage.processed <= batchSize && |ledger.handled| == |old(ledger.handled)| + stage.processed
    {
      hide Allowed, AllAllowed, Inv, WellFormed, InRegion, EligibleIds, Unseen, Discovered, Run, Apply, Advance;
      ghost var before := Row();
      actions := [];
      stage := NotReady;
      NothingDone(site, o, before);
      if !status.Ready? {
        return;
      }
      RowShape(site, o, before);
      if ledger.candidates == [] && ledger.cursor == 0 {
        if !InRegion(site, o, Row()) {
          stage := RegionIgnored;
          return;
        }
        if budget == 0 {
          stage := Crashed;
          return;
        }
        DiscoverAllowed(site, o, before);
        OneMore(site, o, before, actions, DoDiscover);
        actions := actions + [DoDiscover];
        var listed := site.page(o.states[page - 1], snapshot.pageUrl);
        ledger := Offered(ledger, Unseen(EligibleIds(o, listed), snapshot.seen));
        DiscoveredVisits(o, snapshot, listed);
        snapshot := Discovered(o, snapshot, listed);
      }
      RunKeepsInv(site, o, before, actions);
      RowShape(site, o, Row());
      ghost var discovered := Row();
      var cursor := ledger.cursor;
      var batch := if |ledger.candidates| - cursor < batchSize then |ledger.candidates| - cursor else batchSize;
      for n := 0 to batch
        invariant AllAllowed(site, o, before, actions) && Row() == Run(site, o, before, actions)
        invariant Row() == discovered.(ledger := ledger) && ledger.candidates == discovered.ledger.candidates
        invariant ledger.cursor == cursor + n && |ledger.handled| == |before.ledger.handled| + n
        invariant |actions| <= budget && (n > 0 ==> actions != [] && !actions[|actions| - 1].DoDiscover?)
      {
        if |actions| == budget {
          stage := Crashed;
          RunKeepsInv(site, o, before, actions);
          return;
        }
        var reference := known(ledger.candidates[ledger.cursor]);
        EnrichAllowed(site, o, Row(), reference);
        OneMore(site, o, before, actions, DoEnrich(reference));
        actions := actions + [DoEnrich(reference)];
        ledger := Taken(ledger, reference);
      }
      if cursor + batch >= |ledger.candidates| {
        if |actions| == budget {
          stage := Crashed;
          RunKeepsInv(site, o, before, actions);
          return;
        }
        AdvanceAllowed(site, o, Row());
        OneMore(site, o, before, actions, DoAdvance);
        actions := actions + [DoAdvance];
        AdvanceRow(site, o);
      }
      stage := Batch(batch);
      RunKeepsInv(site, o, before, actions);
    }

    /** The last transaction of a page: on to the next page, the next state, or the end. */
    method AdvanceRow(site: Site, o: Options)
      requires 1 <= page <= |o.states|
      modifies this
      ensures Row() == Advance(site, o, old(Row())) && ledger.handled == old(ledger.handled)
    {
      ledger := Cleared(ledger);
      if snapshot.pending != [] {
        snapshot := snapshot.(pageUrl := snapshot.pending[0], pending := snapshot.pending[1..]);
        return;
      }
      var receipt := ReceiptOf(o.states[page - 1], snapshot);
      snapshot := snapshot.(receipts := snapshot.receipts + [receipt]);
      if page < |o.states| {
        snapshot := snapshot.(pageUrl := site.home(o.states[page]), pending := [], visited := {}, stateIds := {}, rawCount := 0,
                              unknown := {}, excluded := {});
        page := page + 1;
      } else {
        status := Completed;
      }
    }
  }

  lemma RowShape(site: Site, o: Options, s: Sync)
    requires Inv(site, o, s)
    ensures 1 <= s.page <= |o.states| && s.ledger.cursor <= |s.ledger.candidates|
    ensures s.ledger.candidates != [] ==> s.snapshot.pageUrl in s.snapshot.visited
  {
    hide SearchInv;
  }

  lemma DiscoveredVisits(o: Options, s: Snapshot, listed: Page)
    ensures Discovered(o, s, listed).pageUrl in Discovered(o, s, listed).visited
  {
  }

  lemma DiscoverAllowed(site: Site, o: Options, s: Sync)
    requires s.status.Ready? && 1 <= s.page <= |o.states| && s.ledger.candidates == [] && s.ledger.cursor == 0 && InRegion(site, o, s)
    ensures Allowed(site, o, s, DoDiscover) && Apply(site, o, s, DoDiscover) == Discover(site, o, s)
  {
    hide InRegion, Discover;
  }

  lemma EnrichAllowed(site: Site, o: Options, s: Sync, known: bool)
    requires s.status.Ready? && 1 <= s.page <= |o.states| && Waiting(s.ledger)
    ensures Allowed(site, o, s, DoEnrich(known)) && Apply(site, o, s, DoEnrich(known)) == s.(ledger := Taken(s.ledger, known))
  {
  }

  lemma AdvanceAllowed(site: Site, o: Options, s: Sync)
    requires s.status.Ready? && 1 <= s.page <= |o.states| && !Waiting(s.ledger) && s.snapshot.pageUrl in s.snapshot.visited
    ensures Allowed(site, o, s, DoAdvance) && Apply(site, o, s, DoAdvance) == Advance(site, o, s)
  {
    hide Advance;
  }
}
