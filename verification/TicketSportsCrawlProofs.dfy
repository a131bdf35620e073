/** Every run of the TicketSports crawl, crashes included, makes the requests an uninterrupted one makes. */
module TicketSportsCrawlProofs {
  import opened Wrappers
  import opened Sequences
  import opened CrawlLedger
  import opened TicketSportsCrawl

  lemma StartInv(site: Site, o: Options)
    ensures Inv(site, o, Start())
  {
    assert CrawlLedger.EMPTY.handled + CrawlLedger.EMPTY.candidates[0..] == [];
  }

  /** A request repeated after its outcome ended the partition ends it the same way, whatever reason
      it then gives. */
  lemma RepeatedOutcome(page: Page, requested: nat, previous: set<string>, ceiling: nat)
    requires !NextPrefix(page, requested, previous, ceiling).status.Ready?
    ensures NextPrefix(page, requested, previous + Elements(page.rawIds), ceiling).status
            == NextPrefix(page, requested, previous, ceiling).status
    ensures NextPrefix(page, requested, previous + Elements(page.rawIds), ceiling).quantity == requested
    ensures ReasonOf(NextPrefix(page, requested, previous + Elements(page.rawIds), ceiling).reason,
                     NextPrefix(page, requested, previous, ceiling))
  {
  }

  lemma DiscoveryExpands(site: Site, o: Options, s: Sync)
    requires Inv(site, o, s) && Accepted(site, o, s)
    ensures ExpansionInv(site, o, StateOf(o, s), Current(Discover(site, o, s)))
  {
    hide ExpansionInv, PartitionsInv, ReceiptsInv, LedgerInv, Discover, Accepted;
    PartitionInRange(site, o, s);
    if Current(s).status.Ready? {
      NextRequestExpands(site, o, s);
    } else {
      RepeatedRequestExpands(site, o, s);
    }
  }

  lemma NextRequestExpands(site: Site, o: Options, s: Sync)
    requires 1 <= s.page <= |Partitions(o)| && ExpansionInv(site, o, StateOf(o, s), Current(s))
    requires Accepted(site, o, s) && Current(s).status.Ready?
    ensures ExpansionInv(site, o, StateOf(o, s), Current(Discover(site, o, s)))
  {
    hide EligibleIds, NextPrefix, UnknownIds, Unseen, Offered;
    var state, before := StateOf(o, s), Current(s);
    var n := before.probes;
    assert before.nextQuantity == ProbeAt(site, o, state, n).quantity && before.seen == ProbeAt(site, o, state, n).seen;
    assert Expanded(site, o, s) == Outcome(site, o, state, n);
    assert Reached(site, o, state, n);
  }

  lemma RepeatedRequestExpands(site: Site, o: Options, s: Sync)
    requires 1 <= s.page <= |Partitions(o)| && ExpansionInv(site, o, StateOf(o, s), Current(s))
    requires Accepted(site, o, s) && !Current(s).status.Ready?
    ensures ExpansionInv(site, o, StateOf(o, s), Current(Discover(site, o, s)))
  {
    hide EligibleIds, NextPrefix, UnknownIds, Unseen, Offered, ReasonOf, Reached;
    var state, before := StateOf(o, s), Current(s);
    var n := before.probes - 1;
    var page, known := site(state, before.quantity), ProbeAt(site, o, state, n).seen;
    EndedKeepsQuantity(page, before.quantity, known, o.ceiling);
    RepeatedOutcome(page, before.quantity, known, o.ceiling);
    var after := Current(Discover(site, o, s));
    assert before.nextQuantity == before.quantity && before.seen == known + Elements(page.rawIds);
    assert after.seen == before.seen && after.unknown == before.unknown && after.excluded == before.excluded;
  }

  lemma EndedKeepsQuantity(page: Page, requested: nat, previous: set<string>, ceiling: nat)
    ensures !NextPrefix(page, requested, previous, ceiling).status.Ready? ==>
              NextPrefix(page, requested, previous, ceiling).quantity == requested
  {
  }

  lemma PartitionInRange(site: Site, o: Options, s: Sync)
    requires PartitionsInv(site, o, s)
    ensures 1 <= s.page <= |Partitions(o)|
  {
  }

  /** The request a discovery makes is one of the uninterrupted expansion's. */
  lemma RequestIsProbe(site: Site, o: Options, state: string, s: Snapshot)
    requires ExpansionInv(site, o, state, s)
    ensures var n := if s.status.Ready? then s.probes else s.probes - 1;
            n >= 0 && Reached(site, o, state, n) && ProbeAt(site, o, state, n).quantity == s.nextQuantity
  {
    hide NextPrefix;
    if !s.status.Ready? {
      var n := s.probes - 1;
      EndedKeepsQuantity(site(state, s.quantity), s.quantity, ProbeAt(site, o, state, n).seen, o.ceiling);
    }
  }

  lemma DiscoveryKeepsPartitions(site: Site, o: Options, s: Sync)
    requires PartitionsInv(site, o, s) && ExpansionInv(site, o, StateOf(o, s), Current(s))
    ensures PartitionsInv(site, o, Discover(site, o, s))
  {
    hide EligibleIds, ProbeAt, NextPrefix, Outcome, ExpansionInv, Reached;
    var t := Discover(site, o, s);
    RequestIsProbe(site, o, StateOf(o, s), Current(s));
    forall id | id in Current(t).allSeen
      ensures exists q :: 0 <= q < s.page && Wanted(site, o, Partitions(o)[q], id)
    {
      if id !in Current(s).allSeen {
        var n := if Current(s).status.Ready? then Current(s).probes else Current(s).probes - 1;
        assert id in Offer(site, o, StateOf(o, s), n);
        assert Wanted(site, o, Partitions(o)[s.page - 1], id);
      }
    }
  }

  lemma DiscoverKeepsInv(site: Site, o: Options, s: Sync)
    requires WellFormed(site) && Inv(site, o, s) && Allowed(site, o, s, DoDiscover)
    ensures Inv(site, o, Discover(site, o, s))
  {
    hide PartitionsInv, ExpansionInv, EligibleIds, LedgerInv, WellFormed, Expanded;
    PartitionInRange(site, o, s);
    var page := Answer(site, o, s);
    var ids := EligibleIds(o, page);
    EligibleDistinct(site, o, StateOf(o, s), Current(s).nextQuantity);
    UnseenDistinct(ids, Current(s).allSeen);
    OfferedKeeps(s.ledger, Unseen(ids, Current(s).allSeen), Current(s).allSeen, Current(s).allSeen + Elements(ids));
    DiscoveryExpands(site, o, s);
    DiscoveryKeepsPartitions(site, o, s);
  }

  lemma EligibleDistinct(site: Site, o: Options, state: string, quantity: nat)
    requires WellFormed(site)
    ensures Distinct(EligibleIds(o, site(state, quantity)))
  {
    WhereDistinct(site(state, quantity).events, (e: Listing) => !Present(e.state) || e.state.value in o.states);
  }

  /** Once the partition has ended, every id of its expansion has been seen. */
  lemma EndedPartitionSeen(site: Site, o: Options, state: string, s: Snapshot)
    requires ExpansionInv(site, o, state, s) && !s.status.Ready?
    ensures forall id :: Wanted(site, o, state, id) ==> id in s.allSeen
  {
    hide Offer, ProbeAt, NextPrefix;
    forall id | Wanted(site, o, state, id)
      ensures id in s.allSeen
    {
      var m: nat :| Reached(site, o, state, m) && id in Offer(site, o, state, m);
      assert m < s.probes;
    }
  }

  lemma AdvanceKeepsInv(site: Site, o: Options, s: Sync)
    requires Inv(site, o, s) && Allowed(site, o, s, DoAdvance)
    ensures Inv(site, o, Advance(o, s))
  {
    hide LedgerInv, ExpansionInv, PartitionsInv, ReceiptsInv;
    PartitionInRange(site, o, s);
    ClearedKeeps(s.ledger, Current(s).allSeen);
    if !Current(s).status.Ready? {
      AdvanceKeepsPartitions(site, o, s);
      AdvanceKeepsReceipts(site, o, s);
      AdvanceKeepsExpansion(site, o, s);
    } else {
      assert Advance(o, s) == s.(ledger := Cleared(s.ledger));
      SameRow(site, o, s, Advance(o, s));
    }
  }

  lemma SameRow(site: Site, o: Options, s: Sync, t: Sync)
    requires PartitionsInv(site, o, s) && ReceiptsInv(site, o, s)
    requires t.status == s.status && t.page == s.page && t.snapshot == s.snapshot
    ensures PartitionsInv(site, o, t) && ReceiptsInv(site, o, t)
  {
    hide Wanted, Tells;
  }

  lemma AdvanceKeepsExpansion(site: Site, o: Options, s: Sync)
    requires 1 <= s.page <= |Partitions(o)| && ExpansionInv(site, o, StateOf(o, s), Current(s)) && !Current(s).status.Ready?
    ensures var t := Advance(o, s);
            1 <= t.page <= |Partitions(o)| && ExpansionInv(site, o, StateOf(o, t), Current(t))
  {
    hide ExpansionInv;
    if s.page < |Partitions(o)| {
      FreshExpansion(site, o, s);
    } else {
      SameExpansion(site, o, s);
    }
  }

  lemma FreshExpansion(site: Site, o: Options, s: Sync)
    requires 1 <= s.page < |Partitions(o)| && !Current(s).status.Ready?
    ensures ExpansionInv(site, o, StateOf(o, Advance(o, s)), Current(Advance(o, s)))
  {
    hide Offer, Outcome, Reached, ReasonOf;
  }

  lemma SameExpansion(site: Site, o: Options, s: Sync)
    requires 1 <= s.page == |Partitions(o)| && !Current(s).status.Ready?
    requires ExpansionInv(site, o, StateOf(o, s), Current(s))
    ensures ExpansionInv(site, o, StateOf(o, Advance(o, s)), Current(Advance(o, s)))
  {
    hide Offer, Outcome, Reached, ReasonOf, ProbeAt, UnknownUpTo, ExcludedUpTo;
  }

  lemma AdvanceKeepsPartitions(site: Site, o: Options, s: Sync)
    requires PartitionsInv(site, o, s) && ExpansionInv(site, o, StateOf(o, s), Current(s)) && !Current(s).status.Ready?
    ensures PartitionsInv(site, o, Advance(o, s))
  {
    hide Wanted, ExpansionInv;
    EndedPartitionSeen(site, o, StateOf(o, s), Current(s));
    var t := Advance(o, s);
    forall q, id | 0 <= q < t.page - 1 && Wanted(site, o, Partitions(o)[q], id)
      ensures id in Current(t).allSeen
    {
      assert q < s.page - 1 || Partitions(o)[q] == StateOf(o, s);
    }
  }

  lemma AdvanceKeepsReceipts(site: Site, o: Options, s: Sync)
    requires 1 <= s.page <= |Partitions(o)| && ReceiptsInv(site, o, s) && ExpansionInv(site, o, StateOf(o, s), Current(s))
    requires s.status.Going? && !Current(s).status.Ready? && (s.page < |Partitions(o)| || s.snapshot.Some?)
    ensures ReceiptsInv(site, o, Advance(o, s))
  {
    hide Tells, ExpansionInv;
    ReceiptTells(site, o, StateOf(o, s), Current(s));
  }

  lemma ReceiptTells(site: Site, o: Options, state: string, s: Snapshot)
    requires ExpansionInv(site, o, state, s) && !s.status.Ready?
    ensures Tells(site, o, state, ReceiptOf(state, s))
  {
    hide Offer, Outcome, Reached, ReasonOf;
    assert EndsAt(site, o, state, s.probes - 1);
    assert TellsAt(site, o, state, s.probes - 1, ReceiptOf(state, s));
  }

  lemma ApplyKeepsInv(site: Site, o: Options, s: Sync, a: Action)
    requires WellFormed(site) && Inv(site, o, s)
    ensures Inv(site, o, Apply(site, o, s, a))
  {
    hide PartitionsInv, ExpansionInv, ReceiptsInv, Discover, Advance, LedgerInv, WellFormed, Accepted;
    if Allowed(site, o, s, a) {
      match a
      case DoDiscover => DiscoverKeepsInv(site, o, s);
      case DoEnrich(known) =>
        TakenKeeps(s.ledger, known, Current(s).allSeen);
        EnrichKeepsRest(site, o, s, known);
      case DoAdvance => AdvanceKeepsInv(site, o, s);
    }
  }

  lemma EnrichKeepsRest(site: Site, o: Options, s: Sync, known: bool)
    requires PartitionsInv(site, o, s) && ReceiptsInv(site, o, s) && Waiting(s.ledger)
    ensures PartitionsInv(site, o, s.(ledger := Taken(s.ledger, known))) && ReceiptsInv(site, o, s.(ledger := Taken(s.ledger, known)))
  {
  }

  lemma {:induction false} RunKeepsInv(site: Site, o: Options, s: Sync, actions: seq<Action>)
    requires WellFormed(site) && Inv(site, o, s)
    ensures Inv(site, o, Run(site, o, s, actions))
  {
    hide Inv, Apply, WellFormed;
    if actions != [] {
      RunKeepsInv(site, o, s, actions[..|actions| - 1]);
      ApplyKeepsInv(site, o, Run(site, o, s, actions[..|actions| - 1]), actions[|actions| - 1]);
    }
  }

  // --- What a run promises ------------------------------------------------------------------

  /** In every state: what was discovered is what was processed and what still waits, and each id is
      handled at most once over all partitions, with one enrichment task. */
  lemma CountersAgree(site: Site, o: Options, actions: seq<Action>)
    requires WellFormed(site)
    ensures LedgerInv(Run(site, o, Start(), actions).ledger, Current(Run(site, o, Start(), actions)).allSeen)
  {
    hide Run, PartitionsInv, ExpansionInv, ReceiptsInv, LedgerInv;
    StartInv(site, o);
    RunKeepsInv(site, o, Start(), actions);
  }

  /** A finished crawl, whatever crashes it went through, has handled and enriched exactly once each
      exactly the eligible ids that the uninterrupted expansion of some partition lists. It leaves one
      receipt per partition, in order, that tells how that expansion ends, and it is limited exactly
      when some of these expansions ends as limited. */
  lemma FinishedCrawlIsExact(site: Site, o: Options, actions: seq<Action>)
    requires WellFormed(site) && !Run(site, o, Start(), actions).status.Going?
    ensures var s := Run(site, o, Start(), actions);
            && (forall id :: id in s.ledger.handled <==> exists q :: 0 <= q < |Partitions(o)| && Wanted(site, o, Partitions(o)[q], id))
            && Distinct(s.ledger.handled) && s.ledger.enrichments == Elements(s.ledger.handled)
            && s.ledger.discovered == s.ledger.processed == s.ledger.created + s.ledger.existing == |s.ledger.handled|
            && |Current(s).receipts| == |Partitions(o)|
            && (forall q :: 0 <= q < |Partitions(o)| ==> Tells(site, o, Partitions(o)[q], Current(s).receipts[q]))
            && (s.status.DoneLimited? <==> exists q :: 0 <= q < |Partitions(o)| && EndsLimited(site, o, Partitions(o)[q]))
  {
    hide Run, ExpansionInv, LedgerInv, Wanted, Tells, EndsLimited;
    StartInv(site, o);
    RunKeepsInv(site, o, Start(), actions);
    var s := Run(site, o, Start(), actions);
    LimitedByExpansions(site, o, Current(s).receipts);
    EndedPartitionSeen(site, o, StateOf(o, s), Current(s));
    NothingWaiting(s.ledger, Current(s).allSeen);
    LedgerCounts(s.ledger, Current(s).allSeen);
    forall id
      ensures id in s.ledger.handled <==> exists q :: 0 <= q < |Partitions(o)| && Wanted(site, o, Partitions(o)[q], id)
    {
      assert id in s.ledger.handled <==> id in Elements(s.ledger.handled);
      if q :| 0 <= q < |Partitions(o)| && Wanted(site, o, Partitions(o)[q], id) {
        assert q < s.page - 1 || Partitions(o)[q] == StateOf(o, s);
      }
    }
  }

  lemma LimitedByExpansions(site: Site, o: Options, receipts: seq<Receipt>)
    requires |receipts| == |Partitions(o)| && forall q :: 0 <= q < |receipts| ==> Tells(site, o, Partitions(o)[q], receipts[q])
    ensures AnyLimited(receipts) <==> exists q :: 0 <= q < |Partitions(o)| && EndsLimited(site, o, Partitions(o)[q])
  {
    hide Tells, EndsLimited;
    forall q | 0 <= q < |receipts|
      ensures receipts[q].status.Limited? <==> EndsLimited(site, o, Partitions(o)[q])
    {
      LimitedByExpansion(site, o, Partitions(o)[q], receipts[q]);
    }
  }

  lemma LimitedByExpansion(site: Site, o: Options, state: string, r: Receipt)
    requires Tells(site, o, state, r)
    ensures r.status.Limited? <==> EndsLimited(site, o, state)
  {
    hide Outcome, ProbeAt, UnknownUpTo, ExcludedUpTo;
    var n: nat :| EndsAt(site, o, state, n) && TellsAt(site, o, state, n, r);
    forall m: nat | EndsAt(site, o, state, m)
      ensures m == n
    {
      assert m < n ==> Outcome(site, o, state, m).status.Ready?;
      assert n < m ==> Outcome(site, o, state, n).status.Ready?;
    }
  }

  // --- Termination --------------------------------------------------------------------------

  function PartitionsLeft(o: Options, s: Sync): int {
    if s.status.Going? then 1 + |Partitions(o)| - s.page else 0
  }

  /** How far the next request is below the ceiling; nothing once the partition has ended. */
  function Headroom(o: Options, s: Sync): int {
    if !Current(s).status.Ready? then 0
    else if o.ceiling < Current(s).nextQuantity then 1 else 1 + o.ceiling - Current(s).nextQuantity
  }

  function Work(s: Sync): int {
    2 * |s.ledger.candidates| - s.ledger.cursor
  }

  predicate Below(o: Options, t: Sync, s: Sync) {
    || PartitionsLeft(o, t) < PartitionsLeft(o, s)
    || (PartitionsLeft(o, t) == PartitionsLeft(o, s) && Headroom(o, t) < Headroom(o, s))
    || (PartitionsLeft(o, t) == PartitionsLeft(o, s) && Headroom(o, t) == Headroom(o, s) && Work(t) < Work(s))
  }

  /** Every transaction moves the crawl down its measure, except a request repeated after a crash at
      the end of a partition and an advance over a page that offered nothing; those lose nothing. */
  lemma TransactionsProgress(site: Site, o: Options, s: Sync, a: Action)
    requires Inv(site, o, s) && Allowed(site, o, s, a)
    ensures PartitionsLeft(o, s) >= 0 && Headroom(o, s) >= 0 && Work(s) >= 0
    ensures Below(o, Apply(site, o, s, a), s)
            || (a.DoDiscover? && !Current(s).status.Ready? && Apply(site, o, s, a).ledger == s.ledger
                && Current(Apply(site, o, s, a)).status == Current(s).status
                && Current(Apply(site, o, s, a)).allSeen == Current(s).allSeen)
            || (a.DoAdvance? && s.ledger.candidates == [] && Current(s).status.Ready? && Apply(site, o, s, a) == s)
  {
    hide PartitionsInv, ReceiptsInv, EligibleIds, ProbeAt, Outcome, Reached, ExpansionInv, Accepted;
    PartitionInRange(site, o, s);
    match a
    case DoDiscover =>
      if !Current(s).status.Ready? {
        DiscoveryExpands(site, o, s);
        RepeatedRequest(site, o, s);
      }
    case DoEnrich(_) =>
    case DoAdvance =>
  }

  lemma RepeatedRequest(site: Site, o: Options, s: Sync)
    requires Inv(site, o, s) && Allowed(site, o, s, DoDiscover) && !Current(s).status.Ready?
    ensures Discover(site, o, s).ledger == s.ledger
    ensures Current(Discover(site, o, s)).status == Current(s).status
    ensures Current(Discover(site, o, s)).allSeen == Current(s).allSeen
  {
    hide PartitionsInv, ReceiptsInv, NextPrefix, EligibleIds, LedgerInv;
    var state, n := StateOf(o, s), Current(s).probes - 1;
    DiscoveryExpands(site, o, s);
    RequestIsProbe(site, o, state, Current(s));
    var ids := EligibleIds(o, Answer(site, o, s));
    assert ids == Offer(site, o, state, n);
    NothingUnseen(ids, Current(s).allSeen);
    assert Elements(ids) <= Current(s).allSeen;
  }

  ghost predicate AllAllowed(site: Site, o: Options, s: Sync, actions: seq<Action>) {
    forall n :: 0 <= n < |actions| ==> Allowed(site, o, Run(site, o, s, actions[..n]), actions[n])
  }

  lemma NothingDone(site: Site, o: Options, s: Sync)
    ensures AllAllowed(site, o, s, []) && Run(site, o, s, []) == s
  {
  }

  lemma OneMore(site: Site, o: Options, s: Sync, actions: seq<Action>, a: Action)
    requires AllAllowed(site, o, s, actions) && Allowed(site, o, Run(site, o, s, actions), a)
    ensures AllAllowed(site, o, s, actions + [a])
    ensures Run(site, o, s, actions + [a]) == Apply(site, o, Run(site, o, s, actions), a)
  {
    hide Allowed, Apply;
    var all := actions + [a];
    assert all[..|actions|] == actions;
    assert forall m :: 0 <= m < |actions| ==> all[..m] == actions[..m] && all[m] == actions[m];
  }

  lemma FrontAllowed(site: Site, o: Options, s: Sync, actions: seq<Action>)
    requires AllAllowed(site, o, s, actions) && actions != []
    ensures AllAllowed(site, o, s, actions[..|actions| - 1])
    ensures Allowed(site, o, Run(site, o, s, actions[..|actions| - 1]), actions[|actions| - 1])
  {
    hide Run, Allowed;
    var n := |actions| - 1;
    assert forall m :: 0 <= m < n ==> actions[..n][..m] == actions[..m] && actions[..n][m] == actions[m];
  }

  /** The state is as far as `s` is, at an ended partition whose last request is being repeated. */
  predicate Repeating(o: Options, t: Sync, s: Sync) {
    && t.status == s.status && t.page == s.page && Work(t) == Work(s)
    && t.ledger.candidates == [] && !Current(t).status.Ready? && !Current(s).status.Ready?
  }

  lemma StepsGoDown(site: Site, o: Options, s: Sync, t: Sync, a: Action)
    requires Inv(site, o, t) && Allowed(site, o, t, a)
    requires Below(o, t, s) || Repeating(o, t, s)
    ensures Below(o, Apply(site, o, t, a), s) || (a.DoDiscover? && Repeating(o, Apply(site, o, t, a), s))
  {
    hide Inv, Advance, Discovered, Accepted, Expanded, Answer, EligibleIds, Unseen;
    TransactionsProgress(site, o, t, a);
  }

  lemma FirstGoesDown(site: Site, o: Options, s: Sync, a: Action)
    requires Inv(site, o, s) && Allowed(site, o, s, a)
    requires s.ledger.candidates == [] ==> a.DoDiscover?
    ensures Below(o, Apply(site, o, s, a), s) || (a.DoDiscover? && Repeating(o, Apply(site, o, s, a), s))
  {
    hide Inv, Advance, Discovered, Accepted, Expanded, Answer, EligibleIds, Unseen;
    TransactionsProgress(site, o, s, a);
  }

  lemma {:induction false} BatchGoesDown(site: Site, o: Options, s: Sync, actions: seq<Action>)
    requires WellFormed(site) && Inv(site, o, s) && AllAllowed(site, o, s, actions) && actions != []
    requires s.ledger.candidates == [] ==> actions[0].DoDiscover?
    ensures var t := Run(site, o, s, actions);
            Below(o, t, s) || (actions[|actions| - 1].DoDiscover? && Repeating(o, t, s))
  {
    hide Inv, Apply, WellFormed, Allowed, AllAllowed, Below, Repeating;
    var n := |actions| - 1;
    var front := actions[..n];
    FrontAllowed(site, o, s, actions);
    RunKeepsInv(site, o, s, front);
    if n == 0 {
      FirstGoesDown(site, o, s, actions[0]);
    } else {
      BatchGoesDown(site, o, s, front);
      StepsGoDown(site, o, s, Run(site, o, s, front), actions[n]);
    }
  }

  /** An invocation that gets as far as an enrichment or an advance, having begun with a discovery if
      nothing waited, brings the crawl strictly down its measure, so only finitely many invocations can
      go by uncrashed. */
  lemma CommittedBatchProgresses(site: Site, o: Options, s: Sync, actions: seq<Action>)
    requires WellFormed(site) && Inv(site, o, s) && AllAllowed(site, o, s, actions)
    requires actions != [] && !actions[|actions| - 1].DoDiscover?
    requires s.ledger.candidates == [] ==> actions[0].DoDiscover?
    ensures Below(o, Run(site, o, s, actions), s)
  {
    hide Inv, Run, WellFormed, AllAllowed, Below, Repeating;
    BatchGoesDown(site, o, s, actions);
  }
}
