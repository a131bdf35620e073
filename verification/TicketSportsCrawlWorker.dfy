/** The worker's invocations of the TicketSports crawl on its stored row. */
module TicketSportsCrawlWorker {
  import opened Wrappers
  import opened Sequences
  import opened CrawlLedger
  import opened TicketSportsCrawl
  import opened TicketSportsCrawlProofs

  datatype Stage = NotReady | PageRefused | Crashed | Batch(processed: nat)

  class TicketSportsCatalog {
    var status: Status
    var page: nat
    var snapshot: Option<Snapshot>
    var ledger: Ledger

    function Row(): Sync
      reads this
    {
      Sync(status, page, snapshot, ledger)
    }

    constructor ()
      ensures Row() == Start()
    {
      status, page, snapshot, ledger := Going, 1, None, CrawlLedger.EMPTY;
    }

    /** One invocation: request the next prefix if nothing waits, take up to a batch of candidates, and
        advance when none is left. The process dies once `budget` transactions have committed;
        `actions` are those that did. `known` tells which editions already have a reference. */
    method SyncNational(site: Site, o: Options, batchSize: nat, known: string -> bool, budget: nat)
      returns (stage: Stage, actions: seq<Action>)
      requires batchSize >= 1 && WellFormed(site) && Inv(site, o, Row())
      modifies this
      ensures Inv(site, o, Row())
      ensures AllAllowed(site, o, old(Row()), actions) && Row() == Run(site, o, old(Row()), actions)
      ensures |actions| <= budget && (stage.Crashed? ==> |actions| == budget)
      ensures stage.NotReady? <==> !old(status).Going?
      ensures stage.NotReady? || stage.PageRefused? ==> actions == []
      ensures actions != [] && old(ledger.candidates) == [] ==> actions[0].DoDiscover?
      ensures stage.Batch? ==> actions != [] && !actions[|actions| - 1].DoDiscover?
      ensures stage.Batch? ==> stage.processed <= batchSize && |ledger.handled| == |old(ledger.handled)| + stage.processed
    {
      hide Allowed, AllAllowed, Inv, WellFormed, Accepted, EligibleIds, Unseen, Discovered, Run, Apply, Advance, Discover;
      ghost var before := Row();
      actions := [];
      stage := NotReady;
      NothingDone(site, o, before);
      if !status.Going? {
        return;
      }
      RowShape(site, o, before);
      if ledger.candidates == [] && ledger.cursor == 0 {
        if !Accepted(site, o, Row()) {
          stage := PageRefused;
          return;
        }
        if budget == 0 {
          stage := Crashed;
          return;
        }
        DiscoverAllowed(site, o, before);
        OneMore(site, o, before, actions, DoDiscover);
        actions := actions + [DoDiscover];
        DiscoverRow(site, o);
      }
      RunKeepsInv(site, o, before, actions);
      RowShape(site, o, Row());
      ghost var discovered := Row();
      var cursor := ledger.cursor;
      var batch := if |ledger.candidates| - cursor < batchSize then |ledger.candidates| - cursor else batchSize;
      for n := 0 to batch
        invariant AllAllowed(site, o, before, actions) && Row() == Run(site, o, before, actions)
        invariant Row() == discovered.(ledger := ledger) && ledger.candidates == discovered.ledger.candidates
        invariant ledger.cursor == cursor + n && |ledger.handled| == |before.ledger.handled| + n
        invariant before.ledger.candidates == [] ==> actions != [] && actions[0].DoDiscover?
        invariant |actions| <= budget && (n > 0 ==> actions != [] && !actions[|actions| - 1].DoDiscover?)
      {
        if |actions| == budget {
          stage := Crashed;
          RunKeepsInv(site, o, before, actions);
          return;
        }
        var reference := known(ledger.candidates[ledger.cursor]);
        EnrichAllowed(site, o, Row(), reference);
        OneMore(site, o, before, actions, DoEnrich(reference));
        actions := actions + [DoEnrich(reference)];
        ledger := Taken(ledger, reference);
      }
      if cursor + batch >= |ledger.candidates| {
        if |actions| == budget {
          stage := Crashed;
          RunKeepsInv(site, o, before, actions);
          return;
        }
        AdvanceAllowed(site, o, Row());
        OneMore(site, o, before, actions, DoAdvance);
        actions := actions + [DoAdvance];
        AdvanceRow(o);
      }
      stage := Batch(batch);
      RunKeepsInv(site, o, before, actions);
    }

    /** The next request: its page is merged into the snapshot and its unseen ids become the candidates. */
    method DiscoverRow(site: Site, o: Options)
      requires 1 <= page <= |Partitions(o)|
      modifies this
      ensures Row() == Discover(site, o, old(Row()))
      ensures status == old(status) && page == old(page) && snapshot.Some?
      ensures ledger.cursor == old(ledger.cursor) && ledger.handled == old(ledger.handled)
    {
      hide EligibleIds, Unseen, Discovered, NextPrefix;
      var previous := if snapshot.Some? then snapshot.value else FRESH;
      var listed := Answer(site, o, Row());
      var expansion := NextPrefix(listed, previous.nextQuantity, previous.seen, o.ceiling);
      ledger := Offered(ledger, Unseen(EligibleIds(o, listed), previous.allSeen));
      snapshot := Some(Discovered(o, previous, listed, expansion));
    }

    /** The last transaction of a page: wait for a longer prefix, go on to the next partition, or end. */
    method AdvanceRow(o: Options)
      requires 1 <= page <= |Partitions(o)| && snapshot.Some?
      modifies this
      ensures Row() == Advance(o, old(Row())) && ledger.handled == old(ledger.handled)
    {
      ledger := Cleared(ledger);
      var current := snapshot.value;
      if current.status.Ready? {
        return;
      }
      var receipts := current.receipts + [ReceiptOf(Partitions(o)[page - 1], current)];
      if page < |Partitions(o)| {
        snapshot := Some(current.(seen := {}, unknown := {}, excluded := {}, quantity := 25, nextQuantity := 25, status := Ready,
                                  reason := "next_state", rawCount := 0, receipts := receipts, probes := 0));
        page := page + 1;
      } else {
        snapshot := Some(current.(receipts := receipts));
        status := if AnyLimited(receipts) then DoneLimited else Done;
      }
    }
  }

  lemma RowShape(site: Site, o: Options, s: Sync)
    requires Inv(site, o, s)
    ensures 1 <= s.page <= |Partitions(o)| && s.ledger.cursor <= |s.ledger.candidates|
    ensures s.ledger.candidates != [] ==> s.snapshot.Some?
  {
    hide ExpansionInv, ReceiptsInv;
  }

  lemma DiscoverAllowed(site: Site, o: Options, s: Sync)
    requires s.status.Going? && 1 <= s.page <= |Partitions(o)| && s.ledger.candidates == [] && s.ledger.cursor == 0 && Accepted(site, o, s)
    ensures Allowed(site, o, s, DoDiscover) && Apply(site, o, s, DoDiscover) == Discover(site, o, s)
  {
    hide Accepted, Discover;
  }

  lemma EnrichAllowed(site: Site, o: Options, s: Sync, known: bool)
    requires s.status.Going? && 1 <= s.page <= |Partitions(o)| && Waiting(s.ledger)
    ensures Allowed(site, o, s, DoEnrich(known)) && Apply(site, o, s, DoEnrich(known)) == s.(ledger := Taken(s.ledger, known))
  {
  }

  lemma AdvanceAllowed(site: Site, o: Options, s: Sync)
    requires s.status.Going? && 1 <= s.page <= |Partitions(o)| && !Waiting(s.ledger) && s.snapshot.Some?
    ensures Allowed(site, o, s, DoAdvance) && Apply(site, o, s, DoAdvance) == Advance(o, s)
  {
    hide Advance;
  }
}
