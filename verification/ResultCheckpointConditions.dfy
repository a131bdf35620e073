/**
 When each transaction of a checkpoint commits and what it leaves, said of the stored rows alone, and
 what that fixes for every run: a saved page is final, a manifest never changes, a sealed checkpoint
 is complete, and published results belong to the edition their task's id leads to.
 */
module ResultCheckpointConditions {
  import opened Wrappers
  import opened Sequences
  import opened ResultPages
  import opened ResultCheckpoint
  import opened ResultCheckpointProofs
  import opened ResultCheckpointTheorems

  // --- Who may write ------------------------------------------------------------------------

  /** The edition an id leads to: its alias's target, or the id itself. */
  ghost predicate LeadsToEdition(s: State, id: string, edition: string) {
    if id in s.aliases then s.aliases[id] == edition else id == edition
  }

  /** The worker runs its task under a lease that has not lapsed. */
  ghost predicate Leased(s: State, w: Worker) {
    && w.task in s.tasks && s.tasks[w.task].status == Running && s.tasks[w.task].token == Some(w.token)
    && s.now < s.tasks[w.task].leaseUntil
  }

  /** The task's checkpoint: the one it was handed, or the one bearing its name. */
  ghost predicate IsCheckpointOf(s: State, task: TaskId, id: TaskId)
    requires task in s.tasks
  {
    match s.tasks[task].payload.checkpointOf
    case Some(root) => id == root
    case None => id == task
  }

  /** The worker holds the open checkpoint: leased, its holder, unexpired, of its request and edition,
      and with its page size. */
  ghost predicate MayWrite(s: State, w: Worker, id: TaskId) {
    && Leased(s, w) && IsCheckpointOf(s, w.task, id) && id in s.roots
    && var root, payload := s.roots[id], s.tasks[w.task].payload;
    && root.activeTask == w.task && s.now < root.expiresAt && (root.status == Collecting || root.status == Ready)
    && root.externalId == payload.externalId && root.sourceUrl == payload.url && root.pageSize == w.pageSize
    && LeadsToEdition(s, payload.eventId, root.eventId)
  }

  /** The source reference that the request was made for still names its edition and address. */
  ghost predicate ReferenceStands(s: State, payload: TaskPayload) {
    && payload.externalId in s.references && s.references[payload.externalId].url == payload.url
    && LeadsToEdition(s, payload.eventId, s.references[payload.externalId].eventId)
  }

  lemma OpensIff(s: State, w: Worker, id: TaskId)
    requires Leased(s, w) && IsCheckpointOf(s, w.task, id)
    ensures LeaseLive(s, w) && RootIdOf(w.task, s.tasks[w.task]) == id
    ensures OpenRoot(s, w) == Success(None) <==> id !in s.roots
    ensures MayWrite(s, w, id) <==> OpenRoot(s, w).Success? && OpenRoot(s, w).value.Some?
    ensures MayWrite(s, w, id) ==> OpenRoot(s, w).value == Some(s.roots[id])
  {
  }

  lemma LeasedIff(s: State, w: Worker)
    ensures Leased(s, w) <==> LeaseLive(s, w)
  {
  }

  lemma AssociatedIff(s: State, payload: TaskPayload)
    ensures ReferenceStands(s, payload) <==> Associated(s, payload)
  {
  }

  /** A worker that changes a checkpoint may write it; closing one as invalid needs only the lease and
      the checkpoint itself. */
  lemma ChangesNeedTheHolder(s: State, a: Action, id: TaskId)
    requires id in s.roots && Acting(a).Some? && Step(s, a).roots[id] != s.roots[id]
    ensures if a.DoInvalidate? then
              Leased(s, a.w) && IsCheckpointOf(s, a.w.task, id) && s.roots[id].activeTask == a.w.task
            else MayWrite(s, Acting(a).value, id)
  {
    hide Summarize, AdvanceGroup, Keyed, Associated, NewGroups, PublishDirect, OpenRoot, MayWrite;
    var w := Acting(a).value;
    LeasedIff(s, w);
    if a.DoPublishDirect? {
      DirectLeavesRoots(s, a);
    } else if LeaseLive(s, w) {
      OpensIff(s, w, RootIdOf(w.task, s.tasks[w.task]));
    }
  }

  /** Nobody else ends a live lease: it lasts until its worker ends it or time runs out. */
  lemma LeaseIsTheWorkers(s: State, a: Action, w: Worker)
    requires Leased(s, w)
    requires Acting(a).Some? ==> Acting(a).value.task != w.task || Acting(a).value.token != w.token
    ensures a.DoTick? ==> (Leased(Step(s, a), w) <==> s.now + a.seconds < s.tasks[w.task].leaseUntil)
    ensures !a.DoTick? ==> Leased(Step(s, a), w)
  {
    hide Summarize, AdvanceGroup, OpenRoot, Keyed, Associated, Matches, NewGroups, Removable, RepeatedKeys;
  }

  // --- Starting -----------------------------------------------------------------------------

  /** The same address up to slashes at the end. */
  ghost predicate SameAddress(a: string, b: string) {
    exists i: nat, j: nat ::
      && i <= |a| && j <= |b| && a[..i] == b[..j]
      && (forall k :: i <= k < |a| ==> a[k] == '/') && (forall k :: j <= k < |b| ==> b[k] == '/')
  }

  lemma {:induction false} SlashesDropped(a: string) returns (i: nat)
    ensures i <= |a| && WithoutTrailingSlashes(a) == a[..i] && (i > 0 ==> a[i - 1] != '/')
    ensures forall k :: i <= k < |a| ==> a[k] == '/'
  {
    if |a| > 0 && a[|a| - 1] == '/' {
      i := SlashesDropped(a[..|a| - 1]);
      assert a[..|a| - 1][..i] == a[..i];
      assert forall k :: i <= k < |a| - 1 ==> a[k] == a[..|a| - 1][k];
    } else {
      i := |a|;
      assert a[..i] == a;
    }
  }

  lemma SameAddressIff(a: string, b: string)
    ensures SameAddress(a, b) <==> WithoutTrailingSlashes(a) == WithoutTrailingSlashes(b)
  {
    var i := SlashesDropped(a);
    var j := SlashesDropped(b);
    if SameAddress(a, b) {
      var p: nat, q: nat :| p <= |a| && q <= |b| && a[..p] == b[..q]
        && (forall k :: p <= k < |a| ==> a[k] == '/') && (forall k :: q <= k < |b| ==> b[k] == '/');
      assert p == q && forall k :: 0 <= k < p ==> a[..p][k] == b[..q][k];
      assert i == j;
      assert a[..i] == a[..p][..i] == b[..q][..j] == b[..j];
    }
  }

  lemma {:induction false} NewGroupAt(groups: seq<(GroupKey, Option<nat>)>, i: nat)
    requires Distinct(Keys(groups)) && i < |groups|
    ensures groups[i].0 in NewGroups(groups) && NewGroups(groups)[groups[i].0] == Group(false, 0, groups[i].1, 0, 0, map[])
  {
    var n := |groups| - 1;
    assert Keys(groups)[..n] == Keys(groups[..n]);
    if i < n {
      NewGroupAt(groups[..n], i);
      assert Keys(groups)[i] != Keys(groups)[n];
    }
  }

  /** A worker opens or reopens a checkpoint exactly when the manifest lists each group once and names the
      request's source, the reference still stands, and a checkpoint that is there is the worker's own
      and has this very manifest. */
  lemma StartsIff(s: State, w: Worker, manifest: Manifest, problem: Option<string>, capacity: bool, id: TaskId)
    requires w.task in s.tasks && IsCheckpointOf(s, w.task, id)
    ensures Start(s, w, manifest, problem, capacity).Success? <==>
              && manifest.groups != []
              && (forall i, j :: 0 <= i < j < |manifest.groups| ==> manifest.groups[i].0 != manifest.groups[j].0)
              && Leased(s, w) && capacity && problem.None?
              && manifest.externalId == s.tasks[w.task].payload.externalId
              && ReferenceStands(s, s.tasks[w.task].payload) && SameAddress(s.tasks[w.task].payload.url, manifest.sourceUrl)
              && (if id in s.roots then MayWrite(s, w, id) && s.roots[id].manifest == manifest else id == w.task && s.tasks[w.task].payload.checkpointOf.None?)
  {
    hide WithoutTrailingSlashes, SameAddress, MayWrite, OpenRoot, Associated, ReferenceStands, LeaseLive, Leased, NewGroups;
    var payload := s.tasks[w.task].payload;
    LeasedIff(s, w);
    AssociatedIff(s, payload);
    SameAddressIff(payload.url, manifest.sourceUrl);
    assert Distinct(Keys(manifest.groups)) <==>
           forall i, j :: 0 <= i < j < |manifest.groups| ==> manifest.groups[i].0 != manifest.groups[j].0 by {
      assert forall i :: 0 <= i < |manifest.groups| ==> Keys(manifest.groups)[i] == manifest.groups[i].0;
    }
    if LeaseLive(s, w) {
      OpensIff(s, w, id);
    }
  }

  /** What opening leaves: nothing new for a checkpoint that was there, otherwise an empty one of the
      request, on the edition its id leads to, with the manifest's groups and their totals. */
  lemma StartLeaves(s: State, w: Worker, manifest: Manifest, problem: Option<string>, capacity: bool, id: TaskId)
    requires w.task in s.tasks && IsCheckpointOf(s, w.task, id) && Start(s, w, manifest, problem, capacity).Success?
    ensures var t := Start(s, w, manifest, problem, capacity).value;
            && (id in s.roots ==> t == s)
            && (id !in s.roots ==>
                  && id in t.roots && t == s.(roots := s.roots[id := t.roots[id]])
                  && var root, payload := t.roots[id], s.tasks[w.task].payload;
                  && root.activeTask == w.task && root.manifest == manifest && root.pageSize == w.pageSize
                  && root.externalId == payload.externalId && root.sourceUrl == payload.url
                  && LeadsToEdition(s, payload.eventId, root.eventId)
                  && root.status == Collecting && root.rows == [] && root.expiresAt == s.now + 7 * 24 * 3600
                  && (forall g :: g in root.groups ==> exists i :: 0 <= i < |manifest.groups| && manifest.groups[i].0 == g)
                  && (forall i :: 0 <= i < |manifest.groups| ==>
                        && manifest.groups[i].0 in root.groups
                        && root.groups[manifest.groups[i].0] == Group(false, 0, manifest.groups[i].1, 0, 0, map[])))
  {
    hide Associated, WithoutTrailingSlashes, NewGroups;
    if id !in s.roots {
      forall i | 0 <= i < |manifest.groups|
        ensures manifest.groups[i].0 in NewGroups(manifest.groups)
        ensures NewGroups(manifest.groups)[manifest.groups[i].0] == Group(false, 0, manifest.groups[i].1, 0, 0, map[])
      {
        NewGroupAt(manifest.groups, i);
      }
    }
  }

  // --- Saving a page ------------------------------------------------------------------------

  predicate PageAt(s: State, id: TaskId, g: GroupKey, offset: nat) {
    id in s.roots && g in s.roots[id].groups && offset in s.roots[id].groups[g].pages
  }

  /** The receipt was given for this very page. */
  ghost predicate ReceiptFor(r: Receipt, page: Page) {
    r.content == page.records && r.nextOffset == page.nextOffset && r.hasMore == page.hasMore && r.expectedTotal == page.expected
  }

  /** The total announced for the group, by an earlier page or the manifest or, failing that, by this page. */
  ghost predicate Announced(group: Group, page: Page, total: nat) {
    group.expectedTotal == Some(total) || (group.expectedTotal.None? && page.expected == Some(total))
  }

  /** The page continues the collecting group within the page limit and the announced total, is no
      earlier page again, and repeats no key of the checkpoint. */
  ghost predicate Continues(root: Root, g: GroupKey, offset: nat, page: Page, maxPages: nat)
    requires g in root.groups
  {
    var group := root.groups[g];
    && !group.completed && group.nextOffset == offset && group.pageCount < maxPages
    && (group.expectedTotal.Some? && page.expected.Some? ==> page.expected == group.expectedTotal)
    && (forall total :: Announced(group, page, total) ==>
          group.recordCount + |page.records| <= total && (page.hasMore || group.recordCount + |page.records| == total))
    && (forall o :: o in group.pages && group.pages[o].content == page.records ==> page.records == [])
    && (forall i, j :: 0 <= i < j < |page.records| ==>
          page.records[i].recordKey != page.records[j].recordKey && page.records[i].dedupeKey != page.records[j].dedupeKey)
    && (forall i, j :: 0 <= i < |root.rows| && 0 <= j < |page.records| ==>
          root.rows[i].record.recordKey != page.records[j].recordKey && root.rows[i].record.dedupeKey != page.records[j].dedupeKey)
  }

  lemma AdvancesIff(root: Root, g: GroupKey, page: Page, maxPages: nat)
    requires g in root.groups && !root.groups[g].completed
    ensures AdvanceGroup(root.groups[g], root.rows, page, maxPages).Success? <==>
              Continues(root, g, root.groups[g].nextOffset, page, maxPages)
  {
    var group := root.groups[g];
    assert AllFresh(root.rows, page.records) <==>
           && (forall i, j :: 0 <= i < j < |page.records| ==>
                 page.records[i].recordKey != page.records[j].recordKey && page.records[i].dedupeKey != page.records[j].dedupeKey)
           && (forall i, j :: 0 <= i < |root.rows| && 0 <= j < |page.records| ==>
                 root.rows[i].record.recordKey != page.records[j].recordKey && root.rows[i].record.dedupeKey != page.records[j].dedupeKey);
    if Continues(root, g, group.nextOffset, page, maxPages) {
      assert forall total :: Announced(group, page, total) ==> group.recordCount + |page.records| <= total;
      if group.expectedTotal.Some? {
        assert Announced(group, page, group.expectedTotal.value);
      } else if page.expected.Some? {
        assert Announced(group, page, page.expected.value);
      }
    }
  }

  /** A page is accepted exactly from the holder of a collecting checkpoint, and either continues its group
      or is, to the letter, the page already saved at that offset. */
  lemma PageAcceptedIff(s: State, w: Worker, id: TaskId, g: GroupKey, offset: nat, page: Page, capacity: bool)
    requires w.task in s.tasks && IsCheckpointOf(s, w.task, id)
    ensures SavePage(s, w, g, offset, page, capacity).Success? <==>
              && capacity && MayWrite(s, w, id) && s.roots[id].status == Collecting && g in s.roots[id].groups
              && (if offset in s.roots[id].groups[g].pages then ReceiptFor(s.roots[id].groups[g].pages[offset], page)
                  else Continues(s.roots[id], g, offset, page, w.maxPages))
  {
    hide AdvanceGroup, MayWrite, OpenRoot, LeaseLive, Leased, Continues;
    LeasedIff(s, w);
    if LeaseLive(s, w) {
      OpensIff(s, w, id);
      if MayWrite(s, w, id) && g in s.roots[id].groups && !s.roots[id].groups[g].completed {
        AdvancesIff(s.roots[id], g, page, w.maxPages);
      }
      ContinuesOpenGroup(s.roots, id, g, offset, page, w.maxPages);
    } else {
      assert !MayWrite(s, w, id) by {
        NotLeased(s, w, id);
      }
    }
  }

  lemma NotLeased(s: State, w: Worker, id: TaskId)
    requires !Leased(s, w)
    ensures !MayWrite(s, w, id)
  {
  }

  lemma ContinuesOpenGroup(roots: map<TaskId, Root>, id: TaskId, g: GroupKey, offset: nat, page: Page, maxPages: nat)
    ensures id in roots && g in roots[id].groups && Continues(roots[id], g, offset, page, maxPages) ==>
              !roots[id].groups[g].completed && roots[id].groups[g].nextOffset == offset
  {
  }

  /** An accepted page changes nothing if it was saved before; otherwise it is added to its group, and its
      records to the end of the rows, and nothing else changes. */
  lemma AcceptedPageLeaves(s: State, w: Worker, id: TaskId, g: GroupKey, offset: nat, page: Page, capacity: bool)
    requires w.task in s.tasks && IsCheckpointOf(s, w.task, id) && SavePage(s, w, g, offset, page, capacity).Success?
    ensures id in s.roots && g in s.roots[id].groups
    ensures var t, group := SavePage(s, w, g, offset, page, capacity).value, s.roots[id].groups[g];
            && (offset in group.pages ==> t == s)
            && (offset !in group.pages ==>
                  && id in t.roots && g in t.roots[id].groups && t == s.(roots := s.roots[id := t.roots[id]])
                  && var after := t.roots[id].groups[g];
                  && t.roots[id] == s.roots[id].(groups := s.roots[id].groups[g := after], rows := t.roots[id].rows)
                  && |t.roots[id].rows| == |s.roots[id].rows| + |page.records|
                  && (forall i :: 0 <= i < |s.roots[id].rows| ==> t.roots[id].rows[i] == s.roots[id].rows[i])
                  && (forall i :: 0 <= i < |page.records| ==> t.roots[id].rows[|s.roots[id].rows| + i] == Row(g, page.records[i]))
                  && after.pageCount == group.pageCount + 1 && after.recordCount == group.recordCount + |page.records|
                  && after.completed == !page.hasMore && after.nextOffset == page.nextOffset
                  && after.expectedTotal == (if group.expectedTotal.Some? then group.expectedTotal else page.expected)
                  && after.pages.Keys == group.pages.Keys + {offset} && ReceiptFor(after.pages[offset], page)
                  && forall o :: o in group.pages ==> after.pages[o] == group.pages[o])
  {
    hide SavePage, AdvanceGroup, Tagged, ReceiptFor, OpenRoot, LeadsToEdition, Leased, Continues;
    PageAcceptedIff(s, w, id, g, offset, page, capacity);
    if offset !in s.roots[id].groups[g].pages {
      NewPageIsStored(s, w, id, g, offset, page, capacity);
      AdvancedGroupIs(s.roots[id].groups[g], s.roots[id].rows, page, w.maxPages);
    } else {
      SavedPageIsKept(s, w, id, g, offset, page, capacity);
    }
  }

  lemma SavedPageIsKept(s: State, w: Worker, id: TaskId, g: GroupKey, offset: nat, page: Page, capacity: bool)
    requires w.task in s.tasks && IsCheckpointOf(s, w.task, id) && SavePage(s, w, g, offset, page, capacity).Success?
    requires PageAt(s, id, g, offset)
    ensures SavePage(s, w, g, offset, page, capacity).value == s
  {
    hide AdvanceGroup, Matches;
  }

  lemma NewPageIsStored(s: State, w: Worker, id: TaskId, g: GroupKey, offset: nat, page: Page, capacity: bool)
    requires w.task in s.tasks && IsCheckpointOf(s, w.task, id) && SavePage(s, w, g, offset, page, capacity).Success?
    requires id in s.roots && g in s.roots[id].groups && offset !in s.roots[id].groups[g].pages
    ensures offset == s.roots[id].groups[g].nextOffset
    ensures var advanced := AdvanceGroup(s.roots[id].groups[g], s.roots[id].rows, page, w.maxPages);
            && advanced.Success?
            && SavePage(s, w, g, offset, page, capacity).value == s.(roots := s.roots[id := s.roots[id].(
                 groups := s.roots[id].groups[g := advanced.value], rows := s.roots[id].rows + Tagged(g, page.records))])
  {
    hide AdvanceGroup, Matches, Tagged;
  }

  lemma AdvancedGroupIs(group: Group, rows: seq<Row>, page: Page, maxPages: nat)
    requires AdvanceGroup(group, rows, page, maxPages).Success?
    ensures var after := AdvanceGroup(group, rows, page, maxPages).value;
            && after.pageCount == group.pageCount + 1 && after.recordCount == group.recordCount + |page.records|
            && after.completed == !page.hasMore && after.nextOffset == page.nextOffset
            && after.expectedTotal == (if group.expectedTotal.Some? then group.expectedTotal else page.expected)
            && after.pages.Keys == group.pages.Keys + {group.nextOffset} && ReceiptFor(after.pages[group.nextOffset], page)
            && forall o :: o in group.pages && o != group.nextOffset ==> after.pages[o] == group.pages[o]
  {
    hide AllFresh, PageStaged;
  }

  // --- Final pages and manifests ------------------------------------------------------------

  lemma StepKeepsPage(s: State, a: Action, id: TaskId, g: GroupKey, offset: nat)
    requires PageAt(s, id, g, offset)
    ensures PageAt(Step(s, a), id, g, offset)
    ensures Step(s, a).roots[id].groups[g].pages[offset] == s.roots[id].groups[g].pages[offset]
  {
    hide Start, SavePage, ReceiptFor;
    if a.DoStart? {
      if Start(s, a.w, a.manifest, a.problem, a.capacity).Success? {
        StartNeedsTask(s, a);
        StartKeepsRoot(s, a, id);
      }
    } else if a.DoSavePage? {
      var r := SavePage(s, a.w, a.group, a.offset, a.page, a.capacity);
      if r.Success? {
        SavingNeedsTask(s, a);
        AcceptedPageLeaves(s, a.w, RootIdOf(a.w.task, s.tasks[a.w.task]), a.group, a.offset, a.page, a.capacity);
      }
    } else {
      OthersKeepGroups(s, a, id);
    }
  }

  lemma StartNeedsTask(s: State, a: Action)
    requires a.DoStart? && Start(s, a.w, a.manifest, a.problem, a.capacity).Success?
    ensures a.w.task in s.tasks
  {
    hide Distinct, Associated, OpenRoot;
  }

  lemma SavingNeedsTask(s: State, a: Action)
    requires a.DoSavePage? && SavePage(s, a.w, a.group, a.offset, a.page, a.capacity).Success?
    ensures a.w.task in s.tasks
  {
    hide AdvanceGroup, OpenRoot;
  }

  lemma StartKeepsRoot(s: State, a: Action, id: TaskId)
    requires a.DoStart? && id in s.roots && a.w.task in s.tasks
    ensures id in Step(s, a).roots && Step(s, a).roots[id] == s.roots[id]
  {
    hide Distinct, Associated, NewGroups, Matches;
  }

  lemma OthersKeepGroups(s: State, a: Action, id: TaskId)
    requires !a.DoStart? && !a.DoSavePage? && id in s.roots
    ensures id in Step(s, a).roots && Step(s, a).roots[id].groups == s.roots[id].groups
  {
    hide Summarize, Associated, Matches, Keyed, PublishDirect, Removable;
    if a.DoPublishDirect? {
      DirectLeavesRoots(s, a);
    }
  }

  /** A saved page is final: in every continuation its receipt stands, saving it again changes nothing,
      and whatever else is offered at its offset is refused. */
  lemma {:induction false} SavedPageIsFinal(s: State, actions: seq<Action>, id: TaskId, g: GroupKey, offset: nat,
                                            w: Worker, page: Page, capacity: bool)
    requires PageAt(s, id, g, offset)
    ensures var t := Run(s, actions);
            && PageAt(t, id, g, offset) && t.roots[id].groups[g].pages[offset] == s.roots[id].groups[g].pages[offset]
            && (w.task in t.tasks && IsCheckpointOf(t, w.task, id) ==>
                  && Step(t, DoSavePage(w, g, offset, page, capacity)) == t
                  && (SavePage(t, w, g, offset, page, capacity).Success? ==> ReceiptFor(s.roots[id].groups[g].pages[offset], page)))
    decreases |actions|
  {
    hide Step, SavePage, ReceiptFor;
    if actions != [] {
      var n := |actions| - 1;
      SavedPageIsFinal(s, actions[..n], id, g, offset, w, page, capacity);
      StepKeepsPage(Run(s, actions[..n]), actions[n], id, g, offset);
    }
    var t := Run(s, actions);
    if w.task in t.tasks && IsCheckpointOf(t, w.task, id) {
      ReplayChangesNothing(t, w, id, g, offset, page, capacity);
    }
  }

  lemma ReplayChangesNothing(t: State, w: Worker, id: TaskId, g: GroupKey, offset: nat, page: Page, capacity: bool)
    requires PageAt(t, id, g, offset) && w.task in t.tasks && IsCheckpointOf(t, w.task, id)
    ensures Step(t, DoSavePage(w, g, offset, page, capacity)) == t
    ensures SavePage(t, w, g, offset, page, capacity).Success? ==> ReceiptFor(t.roots[id].groups[g].pages[offset], page)
  {
    hide SavePage, MayWrite, Continues;
    PageAcceptedIff(t, w, id, g, offset, page, capacity);
    if SavePage(t, w, g, offset, page, capacity).Success? {
      AcceptedPageLeaves(t, w, id, g, offset, page, capacity);
    }
  }

  /** What a checkpoint was opened for. */
  ghost predicate SameRequest(x: Root, y: Root) {
    && x.manifest == y.manifest && x.externalId == y.externalId && x.sourceUrl == y.sourceUrl
    && x.pageSize == y.pageSize && x.expiresAt == y.expiresAt
  }

  lemma StepKeepsRequest(s: State, a: Action, id: TaskId)
    requires id in s.roots
    ensures id in Step(s, a).roots && SameRequest(s.roots[id], Step(s, a).roots[id])
  {
    hide Summarize, AdvanceGroup, Associated, Keyed, Matches, NewGroups, PublishDirect, Distinct, Start, Removable;
    if a.DoPublishDirect? {
      DirectLeavesRoots(s, a);
    } else if a.DoStart? {
      if Start(s, a.w, a.manifest, a.problem, a.capacity).Success? {
        StartNeedsTask(s, a);
        StartKeepsRoot(s, a, id);
      }
    }
  }

  /** A checkpoint keeps its manifest, source, page size and expiry in every continuation, and no worker
      goes on with it under another manifest. */
  lemma {:induction false} RequestIsFixed(s: State, actions: seq<Action>, id: TaskId, w: Worker, manifest: Manifest,
                                          problem: Option<string>, capacity: bool)
    requires id in s.roots
    ensures var t := Run(s, actions);
            && id in t.roots && SameRequest(s.roots[id], t.roots[id])
            && (w.task in t.tasks && IsCheckpointOf(t, w.task, id) && manifest != s.roots[id].manifest ==>
                  Start(t, w, manifest, problem, capacity).Failure?)
    decreases |actions|
  {
    hide Step, Start, MayWrite, ReferenceStands, SameAddress, Leased;
    if actions != [] {
      var n := |actions| - 1;
      RequestIsFixed(s, actions[..n], id, w, manifest, problem, capacity);
      StepKeepsRequest(Run(s, actions[..n]), actions[n], id);
    }
    var t := Run(s, actions);
    if w.task in t.tasks && IsCheckpointOf(t, w.task, id) {
      StartsIff(t, w, manifest, problem, capacity, id);
    }
  }

  // --- Sealing ------------------------------------------------------------------------------

  /** Every group is completed, with as many records as announced, there are rows, and they are as many
      as the manifest announces. */
  ghost predicate IsComplete(root: Root) {
    && root.rows != []
    && (forall g :: g in root.groups ==>
          root.groups[g].completed && (root.groups[g].expectedTotal.Some? ==> root.groups[g].recordCount == root.groups[g].expectedTotal.value))
    && (root.manifest.expectedTotal.Some? ==> |root.rows| == root.manifest.expectedTotal.value)
  }

  lemma SummarizesIff(root: Root)
    requires RootInv(root) && Staged(root)
    ensures Summarize(root).Success? <==> IsComplete(root)
    ensures Summarize(root).Success? ==> Summarize(root).value.total == |root.rows|
  {
    hide GroupInv, PagesOf, DistinctKeys, Of, Total, Summarize, IsComplete;
    CountedSummarizesIff(root);
  }

  lemma CountedSummarizesIff(root: Root)
    requires forall g :: g in root.groups <==> g in Keys(root.manifest.groups)
    requires |root.rows| == Total(root.groups, Keys(root.manifest.groups))
    ensures Summarize(root).Success? <==> IsComplete(root)
    ensures Summarize(root).Success? ==> Summarize(root).value.total == |root.rows|
  {
    hide Total, ExpectedTotal, Keys;
    var keys := Keys(root.manifest.groups);
    if forall k :: k in keys ==> Complete(root.groups[k]) && root.groups[k].expectedTotal.Some? {
      ExpectedIsTotal(root.groups, keys);
    }
  }

  lemma {:induction false} ExpectedIsTotal(groups: map<GroupKey, Group>, keys: seq<GroupKey>)
    requires forall k :: k in keys ==> k in groups && groups[k].expectedTotal.Some? && groups[k].expectedTotal.value == groups[k].recordCount
    ensures ExpectedTotal(groups, keys) == Total(groups, keys)
  {
    if keys != [] {
      var n := |keys| - 1;
      assert forall k :: k in keys[..n] ==> k in keys;
      assert keys[n] in keys;
      ExpectedIsTotal(groups, keys[..n]);
    }
  }

  /** A checkpoint is sealed exactly by its holder and when it is complete; only its status changes. */
  lemma SealsIff(s: State, w: Worker, id: TaskId, capacity: bool)
    requires Inv(s) && w.task in s.tasks && IsCheckpointOf(s, w.task, id)
    ensures Finish(s, w, capacity).Success? <==> capacity && MayWrite(s, w, id) && IsComplete(s.roots[id])
    ensures Finish(s, w, capacity).Success? ==>
              Finish(s, w, capacity).value == s.(roots := s.roots[id := s.roots[id].(status := Ready)])
  {
    hide Summarize, RootInv, MayWrite, OpenRoot, LeaseLive, Leased, IsComplete;
    LeasedIff(s, w);
    if LeaseLive(s, w) {
      OpensIff(s, w, id);
      if MayWrite(s, w, id) {
        MayWriteStaged(s, w, id);
        SummarizesIff(s.roots[id]);
      }
    } else {
      NotLeased(s, w, id);
    }
  }

  lemma MayWriteStaged(s: State, w: Worker, id: TaskId)
    requires MayWrite(s, w, id)
    ensures id in s.roots && Staged(s.roots[id])
  {
  }

  /** In every run a sealed checkpoint has exactly the manifest's groups and is complete. */
  lemma SealedIsComplete(now: int, references: map<string, Reference>, actions: seq<Action>, id: TaskId)
    requires var s := Run(Empty(now, references), actions); id in s.roots && s.roots[id].status == Ready
    ensures var root := Run(Empty(now, references), actions).roots[id];
            && IsComplete(root)
            && (forall g :: g in root.groups <==> exists i :: 0 <= i < |root.manifest.groups| && root.manifest.groups[i].0 == g)
            && (forall i :: 0 <= i < |root.rows| ==> root.rows[i].group in root.groups)
  {
    hide Run, Empty, Summarize, GroupInv;
    RunKeepsInv(now, references, actions);
    var root := Run(Empty(now, references), actions).roots[id];
    SummarizesIff(root);
    forall g
      ensures g in root.groups <==> exists i :: 0 <= i < |root.manifest.groups| && root.manifest.groups[i].0 == g
    {
      var keys := Keys(root.manifest.groups);
      if g in keys {
        var i :| 0 <= i < |keys| && keys[i] == g;
        assert root.manifest.groups[i].0 == g;
      }
      if i :| 0 <= i < |root.manifest.groups| && root.manifest.groups[i].0 == g {
        assert keys[i] == g;
      }
    }
  }

  // --- Publishing ---------------------------------------------------------------------------

  /** The stored rows are the records, each under its record key, and nothing else. */
  ghost predicate HoldsExactly(rows: map<string, Record>, records: seq<Record>) {
    && (forall i :: 0 <= i < |records| ==> records[i].recordKey in rows && rows[records[i].recordKey] == records[i])
    && (forall k :: k in rows ==> exists i :: 0 <= i < |records| && records[i].recordKey == k)
  }

  lemma KeyedHoldsExactly(records: seq<Record>)
    requires forall i, j :: 0 <= i < j < |records| ==> records[i].recordKey != records[j].recordKey
    ensures HoldsExactly(Keyed(records), records) && |Keyed(records)| == |records|
  {
    KeyedHolds(records);
    KeyedComesFrom(records);
  }

  /** No set is published under the external id, or one of this edition. */
  ghost predicate SetIsOf(s: State, externalId: string, edition: string) {
    externalId in s.resultSets ==> s.resultSets[externalId].eventId == edition
  }

  /** What one publication leaves: the set replaced, on that edition, and the task completed. */
  ghost predicate Replaced(s: State, t: State, task: TaskId, edition: string, records: seq<Record>)
    requires task in s.tasks
  {
    var x := s.tasks[task].payload.externalId;
    && x in t.resultSets && t.resultSets == s.resultSets[x := t.resultSets[x]]
    && t.resultSets[x].eventId == edition && t.resultSets[x].count == |records| && HoldsExactly(t.resultSets[x].rows, records)
    && task in t.tasks && t.tasks == s.tasks[task := t.tasks[task]]
    && t.tasks[task] == s.tasks[task].(status := Completed, token := None)
    && t == s.(resultSets := t.resultSets, tasks := t.tasks, roots := t.roots)
  }

  lemma ReplacesIff(s: State, w: Worker, edition: string, records: seq<Record>)
    requires w.task in s.tasks && LeadsToEdition(s, s.tasks[w.task].payload.eventId, edition)
    ensures ReplaceResults(s, w, records).Success? <==> SetIsOf(s, s.tasks[w.task].payload.externalId, edition)
    ensures ReplaceResults(s, w, records).Success?
            && (forall i, j :: 0 <= i < j < |records| ==> records[i].recordKey != records[j].recordKey) ==>
              Replaced(s, ReplaceResults(s, w, records).value, w.task, edition, records)
              && ReplaceResults(s, w, records).value.roots == s.roots
  {
    hide Keyed, HoldsExactly;
    if forall i, j :: 0 <= i < j < |records| ==> records[i].recordKey != records[j].recordKey {
      KeyedHoldsExactly(records);
    }
  }

  /** A sealed checkpoint is published exactly by its holder, while the reference stands, the edition has no
      problem and the set under the external id is of the same edition or not there yet. The set then
      holds exactly the staged rows, on the checkpoint's edition. */
  lemma PublishesIff(s: State, w: Worker, id: TaskId, problem: Option<string>, capacity: bool)
    requires Inv(s) && w.task in s.tasks && IsCheckpointOf(s, w.task, id)
    ensures Publish(s, w, problem, capacity).Success? <==>
              && capacity && problem.None? && MayWrite(s, w, id) && s.roots[id].status == Ready
              && ReferenceStands(s, s.tasks[w.task].payload)
              && SetIsOf(s, s.tasks[w.task].payload.externalId, s.roots[id].eventId)
    ensures Publish(s, w, problem, capacity).Success? ==>
              && var t := Publish(s, w, problem, capacity).value;
              && Replaced(s, t, w.task, s.roots[id].eventId, Records(s.roots[id].rows))
              && t.roots == s.roots[id := s.roots[id].(status := Published, rows := [])]
  {
    hide Summarize, RootInv, MayWrite, OpenRoot, LeaseLive, Leased, Associated, ReferenceStands, ReplaceResults, Replaced, SetIsOf;
    LeasedIff(s, w);
    AssociatedIff(s, s.tasks[w.task].payload);
    if LeaseLive(s, w) {
      OpensIff(s, w, id);
      if MayWrite(s, w, id) && s.roots[id].status == Ready {
        ReadyRootPublishes(s.roots[id]);
        MayWriteEdition(s, w, id);
        ReplacesIff(s, w, s.roots[id].eventId, Records(s.roots[id].rows));
        if Publish(s, w, problem, capacity).Success? {
          SameButRoots(s, ReplaceResults(s, w, Records(s.roots[id].rows)).value, Publish(s, w, problem, capacity).value, w.task,
                       s.roots[id].eventId, Records(s.roots[id].rows));
        }
      }
    } else {
      NotLeased(s, w, id);
    }
  }

  lemma MayWriteEdition(s: State, w: Worker, id: TaskId)
    requires MayWrite(s, w, id)
    ensures LeadsToEdition(s, s.tasks[w.task].payload.eventId, s.roots[id].eventId)
  {
  }

  lemma SameButRoots(s: State, t: State, u: State, task: TaskId, edition: string, records: seq<Record>)
    requires task in s.tasks && Replaced(s, t, task, edition, records) && u == t.(roots := u.roots)
    ensures Replaced(s, u, task, edition, records)
  {
    hide HoldsExactly;
  }

  /** A complete extraction in memory is published exactly under a live lease, with the announced number of
      rows and no record key twice, while the reference stands and the set is of the edition the request's
      id leads to. */
  lemma PublishesDirectlyIff(s: State, w: Worker, records: seq<Record>, warned: bool, expected: Option<nat>, problem: Option<string>,
                             capacity: bool, edition: string)
    requires w.task in s.tasks && LeadsToEdition(s, s.tasks[w.task].payload.eventId, edition)
    ensures PublishDirect(s, w, records, warned, expected, problem, capacity).Success? <==>
              && !warned && records != [] && (expected.Some? ==> expected.value == |records|)
              && Leased(s, w) && capacity && problem.None? && ReferenceStands(s, s.tasks[w.task].payload)
              && SetIsOf(s, s.tasks[w.task].payload.externalId, edition)
              && (forall i, j :: 0 <= i < j < |records| ==> records[i].recordKey != records[j].recordKey)
    ensures PublishDirect(s, w, records, warned, expected, problem, capacity).Success? ==>
              && var t := PublishDirect(s, w, records, warned, expected, problem, capacity).value;
              Replaced(s, t, w.task, edition, records) && t.roots == s.roots
  {
    hide LeaseLive, Leased, Associated, ReferenceStands, ReplaceResults, Replaced, SetIsOf, Keyed;
    LeasedIff(s, w);
    AssociatedIff(s, s.tasks[w.task].payload);
    if LeaseLive(s, w) {
      ReplacesIff(s, w, edition, records);
    }
  }

  // --- The edition of published results -----------------------------------------------------

  /** An alias leads to an edition that is not an alias itself. */
  ghost predicate AliasesEnd(s: State) {
    forall a :: a in s.aliases ==> s.aliases[a] !in s.aliases
  }

  lemma StepKeepsAliases(s: State, a: Action)
    requires AliasesEnd(s)
    ensures AliasesEnd(Step(s, a))
    ensures !a.DoMerge? ==> Step(s, a).aliases == s.aliases
  {
    hide Summarize, AdvanceGroup, OpenRoot, Keyed, Associated, Matches, NewGroups, Removable, RepeatedKeys, LeaseLive;
  }

  /** Whatever an id leads to, it still leads there after a step, or to where that edition was merged. */
  lemma StepMovesEdition(s: State, a: Action, x: string, id: string)
    requires AliasesEnd(s) && x in s.resultSets && x in Step(s, a).resultSets && Publication(s, a, x).None?
    requires LeadsToEdition(s, id, s.resultSets[x].eventId)
    ensures LeadsToEdition(Step(s, a), id, Step(s, a).resultSets[x].eventId)
  {
    hide Summarize, AdvanceGroup, OpenRoot, Keyed, Associated, Matches, NewGroups, Removable, RepeatedKeys, LeaseLive;
  }

  lemma PublicationIsOnEdition(s: State, a: Action, x: string)
    requires Publication(s, a, x).Some?
    ensures Acting(a).Some? && Acting(a).value.task in s.tasks && x in Step(s, a).resultSets
    ensures s.tasks[Acting(a).value.task].payload.externalId == x
    ensures LeadsToEdition(Step(s, a), s.tasks[Acting(a).value.task].payload.eventId, Step(s, a).resultSets[x].eventId)
  {
    hide Summarize, Keyed, Associated, OpenRoot, RepeatedKeys, LeaseLive;
    LeaseNeedsTask(s, Acting(a).value);
  }

  lemma LeaseNeedsTask(s: State, w: Worker)
    ensures LeaseLive(s, w) ==> w.task in s.tasks
  {
  }

  /** The id of the request whose publication action `n` was. */
  ghost predicate RequestedBy(s: State, actions: seq<Action>, n: nat, id: string) {
    && n < |actions| && Acting(actions[n]).Some?
    && var before := Run(s, actions[..n]);
    && Acting(actions[n]).value.task in before.tasks && before.tasks[Acting(actions[n]).value.task].payload.eventId == id
  }

  /** In every run, through every merge, a published set belongs to the edition that the id in the request
      of its last publication leads to, which is never an id that was merged away. */
  lemma {:induction false} PublishedSetFollowsEdition(now: int, references: map<string, Reference>, actions: seq<Action>, x: string)
    returns (n: nat, records: seq<Record>, id: string)
    requires x in Run(Empty(now, references), actions).resultSets
    ensures var t := Run(Empty(now, references), actions);
            && LastPublished(Empty(now, references), actions, x, n, records)
            && RequestedBy(Empty(now, references), actions, n, id)
            && LeadsToEdition(t, id, t.resultSets[x].eventId)
            && AliasesEnd(t) && t.resultSets[x].eventId !in t.aliases
    decreases |actions|
  {
    hide Step, Publication, AliasesEnd, LeadsToEdition;
    var s, last := Empty(now, references), |actions| - 1;
    var front := actions[..last];
    var before := Run(s, front);
    RunKeepsAliases(now, references, front);
    RunKeepsAliases(now, references, actions);
    if Publication(before, actions[last], x).Some? {
      PublicationIsOnEdition(before, actions[last], x);
      n, records := last, Publication(before, actions[last], x).value;
      id := before.tasks[Acting(actions[last]).value.task].payload.eventId;
    } else {
      SetsChangeByPublication(before, actions[last], x);
      n, records, id := PublishedSetFollowsEdition(now, references, front, x);
      StepMovesEdition(before, actions[last], x, id);
      assert front[..n] == actions[..n];
      assert forall m :: n < m < last ==> front[..m] == actions[..m];
    }
    NeverAnAlias(Run(s, actions), id, Run(s, actions).resultSets[x].eventId);
  }

  lemma NeverAnAlias(s: State, id: string, edition: string)
    requires AliasesEnd(s) && LeadsToEdition(s, id, edition)
    ensures edition !in s.aliases
  {
  }

  lemma {:induction false} RunKeepsAliases(now: int, references: map<string, Reference>, actions: seq<Action>)
    ensures AliasesEnd(Run(Empty(now, references), actions))
  {
    hide Step;
    if actions != [] {
      RunKeepsAliases(now, references, actions[..|actions| - 1]);
      StepKeepsAliases(Run(Empty(now, references), actions[..|actions| - 1]), actions[|actions| - 1]);
    }
  }

  // --- Retention ----------------------------------------------------------------------------

  /** Retention empties and expires exactly the chosen checkpoints that are past their time, not published
      and not in the hands of a live worker; nothing else changes. */
  lemma CleanupEmpties(s: State, chosen: set<TaskId>, id: TaskId)
    requires id in s.roots
    ensures var t, root := Cleanup(s, chosen), s.roots[id];
            && t == s.(roots := t.roots) && t.roots.Keys == s.roots.Keys
            && t.roots[id] == if id in chosen && root.expiresAt <= s.now && root.status in {Collecting, Ready, Invalid} && !InLiveHands(s, root.activeTask)
                              then root.(status := Expired, rows := []) else root
  {
  }

  ghost predicate InLiveHands(s: State, task: TaskId) {
    task in s.tasks && s.tasks[task].status == Running && s.now < s.tasks[task].leaseUntil
  }

  /** The reference keeps its address, on whatever edition its own has become. */
  ghost predicate ReferenceFollows(references: map<string, Reference>, t: State, x: string)
    requires x in references
  {
    && x in t.references && t.references[x].url == references[x].url
    && LeadsToEdition(t, references[x].eventId, t.references[x].eventId)
  }

  lemma StepMovesReference(references: map<string, Reference>, s: State, a: Action, x: string)
    requires AliasesEnd(s) && x in references && ReferenceFollows(references, s, x)
    ensures ReferenceFollows(references, Step(s, a), x)
  {
    hide Summarize, AdvanceGroup, OpenRoot, Keyed, Associated, Matches, NewGroups, Removable, RepeatedKeys, LeaseLive;
  }

  /** In every run the source references follow their editions through every merge: none is left on an id
      that was merged away, so a request whose reference stood when it was made still finds it standing. */
  lemma {:induction false} ReferencesFollowEditions(now: int, references: map<string, Reference>, actions: seq<Action>, x: string)
    requires x in references
    ensures var t := Run(Empty(now, references), actions);
            && ReferenceFollows(references, t, x) && t.references[x].eventId !in t.aliases
            && forall payload: TaskPayload :: payload.externalId == x && payload.url == references[x].url && payload.eventId == references[x].eventId ==>
                 ReferenceStands(t, payload)
  {
    hide Step;
    RunKeepsAliases(now, references, actions);
    if actions != [] {
      ReferencesFollowEditions(now, references, actions[..|actions| - 1], x);
      RunKeepsAliases(now, references, actions[..|actions| - 1]);
      StepMovesReference(references, Run(Empty(now, references), actions[..|actions| - 1]), actions[|actions| - 1], x);
    }
    NeverAnAlias(Run(Empty(now, references), actions), references[x].eventId, Run(Empty(now, references), actions).references[x].eventId);
  }

  // --- The queue ----------------------------------------------------------------------------

  /** A queued task is claimed under a token never issued before, and only a task whose lease has lapsed is
      taken back from its worker, to be queued again or to fail. */
  lemma QueueLeaves(s: State, id: TaskId, token: Token, until: int, exhausted: bool)
    requires id in s.tasks
    ensures var t := Step(s, DoClaim(id, token, until));
            t == if s.tasks[id].status == Queued && token !in s.issued
                 then s.(tasks := s.tasks[id := Task(Running, Some(token), until, s.tasks[id].payload)], issued := s.issued + {token})
                 else s
    ensures var t := Step(s, DoRecover(id, exhausted));
            t == if s.tasks[id].status == Running && s.tasks[id].leaseUntil < s.now
                 then s.(tasks := s.tasks[id := Task(if exhausted then Failed else Queued, None, s.tasks[id].leaseUntil, s.tasks[id].payload)])
                 else s
  {
  }
}
