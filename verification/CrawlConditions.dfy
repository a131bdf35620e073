/** What the national crawls take and refuse, said of the listings themselves. */
module CrawlConditions {
  import opened Wrappers
  import opened Sequences
  import opened CrawlLedger
  import opened Reachability
  import Corridas = CorridasCrawl
  import Tickets = TicketSportsCrawl

  ghost predicate Missing(v: Option<string>) {
    v.None? || v.value == ""
  }

  lemma IdsOf(events: seq<Listing>, p: Listing -> bool, id: string)
    ensures id in Ids(Where(events, p)) <==> exists e :: e in events && p(e) && e.externalId == id
  {
    var kept := Where(events, p);
    if id in Ids(kept) {
      var i :| 0 <= i < |kept| && Ids(kept)[i] == id;
      assert kept[i] in kept;
    }
    if e :| e in events && p(e) && e.externalId == id {
      var i :| 0 <= i < |kept| && kept[i] == e;
      assert Ids(kept)[i] == id;
    }
  }

  /** Of a page's distinct ids the unseen ones are offered in the order listed. */
  lemma {:induction false} OfferedInOrder(ids: seq<string>, seen: set<string>, i: nat, j: nat) returns (p: nat, q: nat)
    requires i < j < |Unseen(ids, seen)|
    ensures p < q < |ids| && ids[p] == Unseen(ids, seen)[i] && ids[q] == Unseen(ids, seen)[j]
  {
    var n := |ids| - 1;
    var front := Unseen(ids[..n], seen);
    if j < |front| {
      p, q := OfferedInOrder(ids[..n], seen, i, j);
    } else {
      assert front[i] in front;
      p :| 0 <= p < n && ids[..n][p] == front[i];
      q := n;
    }
  }

  // --- CorridasBR ---------------------------------------------------------------------------

  /** Brazilian or of no stated country, and of no stated day or one within the asked period. */
  ghost predicate InScope(o: Corridas.Options, e: Listing) {
    && (Missing(e.country) || e.country == Some("BR"))
    && (e.day.Some? && o.from.Some? ==> o.from.value <= e.day.value)
    && (e.day.Some? && o.to.Some? ==> e.day.value <= o.to.value)
  }

  /** An id is wanted exactly when some page reachable from the state's start page lists an event of it in
      scope. */
  lemma WantedIff(site: Corridas.Site, o: Corridas.Options, state: string, id: string)
    ensures Corridas.Wanted(site, o, state, id) <==>
            exists url, e :: Reaches(Corridas.Links(site, state), site.home(state), url) && e in site.page(state, url).events
                             && InScope(o, e) && e.externalId == id
  {
    hide Reaches, Corridas.Links, InScope;
    forall url
      ensures Corridas.Lists(site, o, state, url, id) <==>
              Reaches(Corridas.Links(site, state), site.home(state), url)
              && exists e :: e in site.page(state, url).events && InScope(o, e) && e.externalId == id
    {
      ListsIff(site, o, state, url, id);
    }
    if url, e :| Reaches(Corridas.Links(site, state), site.home(state), url) && e in site.page(state, url).events
                 && InScope(o, e) && e.externalId == id {
      assert Corridas.Lists(site, o, state, url, id);
    }
  }

  lemma ListsIff(site: Corridas.Site, o: Corridas.Options, state: string, url: Corridas.Url, id: string)
    ensures Corridas.Lists(site, o, state, url, id) <==>
            Reaches(Corridas.Links(site, state), site.home(state), url)
            && exists e :: e in site.page(state, url).events && InScope(o, e) && e.externalId == id
  {
    hide Reaches;
    var events := site.page(state, url).events;
    IdsOf(events, (e: Listing) => Corridas.Eligible(o, e), id);
    assert forall e :: Corridas.Eligible(o, e) <==> InScope(o, e);
  }

  /** What a page counts as without a country, and as of another one. */
  lemma CountryIff(page: Corridas.Page, id: string)
    ensures id in Corridas.UnknownIds(page) <==> exists e :: e in page.events && e.externalId == id && Missing(e.country)
    ensures id in Corridas.ExcludedIds(page) <==>
            exists e :: e in page.events && e.externalId == id && !Missing(e.country) && e.country != Some("BR")
  {
    IdsOf(page.events, (e: Listing) => !Present(e.country), id);
    IdsOf(page.events, (e: Listing) => Present(e.country) && e.country != Some("BR"), id);
  }

  /** When each transaction may commit: a page is stored only when nothing waits and every event on it is of
      the state asked for; a candidate is taken while one waits; and a page is left when none does. */
  lemma AllowedIff(site: Corridas.Site, o: Corridas.Options, s: Corridas.Sync, a: Corridas.Action)
    requires 1 <= s.page <= |o.states|
    ensures Corridas.Allowed(site, o, s, a) <==>
              && s.status == Corridas.Ready
              && (a.DoDiscover? ==>
                    && s.ledger.candidates == [] && s.ledger.cursor == 0
                    && forall e :: e in site.page(o.states[s.page - 1], s.snapshot.pageUrl).events ==> e.state == Some(o.states[s.page - 1]))
              && (a.DoEnrich? ==> s.ledger.cursor < |s.ledger.candidates|)
              && (a.DoAdvance? ==> s.ledger.cursor >= |s.ledger.candidates| && s.snapshot.pageUrl in s.snapshot.visited)
  {
  }

  /** Every page visited in the current state lists events of that state only. */
  ghost predicate VisitedInRegion(site: Corridas.Site, o: Corridas.Options, s: Corridas.Sync) {
    && 1 <= s.page <= |o.states|
    && forall u, e :: u in s.snapshot.visited && e in site.page(o.states[s.page - 1], u).events ==> e.state == Some(o.states[s.page - 1])
  }

  lemma ApplyKeepsRegion(site: Corridas.Site, o: Corridas.Options, s: Corridas.Sync, a: Corridas.Action)
    requires VisitedInRegion(site, o, s)
    ensures VisitedInRegion(site, o, Corridas.Apply(site, o, s, a))
  {
    hide Corridas.Queue, Corridas.EligibleIds, Corridas.UnknownIds, Corridas.ExcludedIds, Unseen, Ids;
  }

  /** In every run, whatever the source lists: a page that lists another state's event is never stored. */
  lemma {:induction false} OnlyPagesInRegion(site: Corridas.Site, o: Corridas.Options, actions: seq<Corridas.Action>)
    requires o.states != []
    ensures VisitedInRegion(site, o, Corridas.Run(site, o, Corridas.Start(site, o), actions))
  {
    hide Corridas.Apply;
    if actions != [] {
      var n := |actions| - 1;
      OnlyPagesInRegion(site, o, actions[..n]);
      ApplyKeepsRegion(site, o, Corridas.Run(site, o, Corridas.Start(site, o), actions[..n]), actions[n]);
    }
  }

  /** The committed transactions that took a candidate whose edition was, or was not, already known. */
  function TakenCount(site: Corridas.Site, o: Corridas.Options, s: Corridas.Sync, actions: seq<Corridas.Action>, known: bool): nat {
    if actions == [] then 0
    else
      var n := |actions| - 1;
      TakenCount(site, o, s, actions[..n], known)
      + if actions[n] == Corridas.DoEnrich(known) && Corridas.Allowed(site, o, Corridas.Run(site, o, s, actions[..n]), actions[n]) then 1 else 0
  }

  /** In every run the counter of created editions counts the candidates that were new, and the counter of
      existing ones those that were known. */
  lemma {:induction false} CountersTellNewFromKnown(site: Corridas.Site, o: Corridas.Options, actions: seq<Corridas.Action>)
    requires o.states != []
    ensures var s := Corridas.Start(site, o);
            var l := Corridas.Run(site, o, s, actions).ledger;
            l.created == TakenCount(site, o, s, actions, false) && l.existing == TakenCount(site, o, s, actions, true)
  {
    hide Corridas.Allowed, Corridas.Discovered, Corridas.EligibleIds, Unseen, Corridas.ReceiptOf;
    if actions != [] {
      CountersTellNewFromKnown(site, o, actions[..|actions| - 1]);
    }
  }

  // --- TicketSports -------------------------------------------------------------------------

  /** An id is offered by a request exactly when its page lists an event of it of no stated state or of an
      asked one. */
  lemma OfferedIff(site: Tickets.Site, o: Tickets.Options, state: string, n: nat, id: string)
    ensures id in Tickets.Offer(site, o, state, n) <==>
            exists e :: e in site(state, Tickets.ProbeAt(site, o, state, n).quantity).events && e.externalId == id
                        && (Missing(e.state) || e.state.value in o.states)
  {
    hide Tickets.ProbeAt;
    var events := site(state, Tickets.ProbeAt(site, o, state, n).quantity).events;
    IdsOf(events, (e: Listing) => !Present(e.state) || e.state.value in o.states, id);
  }

  lemma UnknownIff(page: Tickets.Page, id: string)
    ensures id in Tickets.UnknownIds(page) <==> exists e :: e in page.events && e.externalId == id && Missing(e.country)
  {
    IdsOf(page.events, (e: Listing) => !Present(e.country), id);
  }

  /** Some row of the page was not listed by an earlier request. */
  ghost predicate Advances(page: Tickets.Page, previous: set<string>) {
    previous == {} || exists id :: id in page.rawIds && id !in previous
  }

  /** How an expansion goes on: it is blocked by invalid rows or too many of them; it is complete when the page
      falls short of what was asked; it goes on by 25, up to the ceiling, while the pages bring anything new;
      and it is limited otherwise. */
  lemma PrefixIff(page: Tickets.Page, requested: nat, previous: set<string>, ceiling: nat)
    ensures var e := Tickets.NextPrefix(page, requested, previous, ceiling);
            && (e.status == Tickets.Blocked <==> page.invalidCount > 0 || page.rawCount > requested)
            && (e.status == Tickets.Prefix.Completed <==> page.invalidCount == 0 && page.rawCount < requested)
            && (e.status == Tickets.Prefix.Ready <==>
                  page.invalidCount == 0 && page.rawCount == requested && requested < ceiling && Advances(page, previous))
            && (e.status == Tickets.Prefix.Limited <==>
                  page.invalidCount == 0 && page.rawCount == requested && (requested >= ceiling || !Advances(page, previous)))
            && (e.status == Tickets.Prefix.Ready ==> e.quantity == if requested + 25 <= ceiling then requested + 25 else ceiling)
            && (e.status == Tickets.Prefix.Limited ==> (e.reason == "catalog_not_advancing" <==> !Advances(page, previous)))
  {
    assert "catalog_not_advancing"[8] != "catalog_safety_ceiling"[8];
  }

  /** A page is stored only when nothing waits, it is complete in itself, and a state's page lists no event of
      another state. */
  lemma DiscoveryAllowedIff(site: Tickets.Site, o: Tickets.Options, s: Tickets.Sync)
    requires 1 <= s.page <= |o.states| + 1
    ensures Tickets.Allowed(site, o, s, Tickets.DoDiscover) <==>
              && s.status == Tickets.Going && s.ledger.candidates == [] && s.ledger.cursor == 0
              && var state := if s.page <= |o.states| then o.states[s.page - 1] else "BR";
              && var requested := if s.snapshot.Some? then s.snapshot.value.nextQuantity else 25;
              && var page := site(state, requested);
              && page.invalidCount == 0 && page.rawCount <= requested
              && (state != "BR" ==> forall e :: e in page.events && !Missing(e.state) ==> e.state.value == state)
  {
    var state := if s.page <= |o.states| then o.states[s.page - 1] else "BR";
    var requested := if s.snapshot.Some? then s.snapshot.value.nextQuantity else 25;
    assert Tickets.StateOf(o, s) == state;
    PrefixIff(site(state, requested), requested, Tickets.Current(s).seen, o.ceiling);
  }

  function TakenFrom(site: Tickets.Site, o: Tickets.Options, s: Tickets.Sync, actions: seq<Tickets.Action>, known: bool): nat {
    if actions == [] then 0
    else
      var n := |actions| - 1;
      TakenFrom(site, o, s, actions[..n], known)
      + if actions[n] == Tickets.DoEnrich(known) && Tickets.Allowed(site, o, Tickets.Run(site, o, s, actions[..n]), actions[n]) then 1 else 0
  }

  /** The same of the TicketSports crawl. */
  lemma {:induction false} TicketCountersTellNewFromKnown(site: Tickets.Site, o: Tickets.Options, actions: seq<Tickets.Action>)
    ensures var l := Tickets.Run(site, o, Tickets.Start(), actions).ledger;
            l.created == TakenFrom(site, o, Tickets.Start(), actions, false) && l.existing == TakenFrom(site, o, Tickets.Start(), actions, true)
  {
    hide Tickets.Allowed, Tickets.Discovered, Tickets.EligibleIds, Unseen, Tickets.ReceiptOf, Tickets.NextPrefix;
    if actions != [] {
      TicketCountersTellNewFromKnown(site, o, actions[..|actions| - 1]);
    }
  }
}
