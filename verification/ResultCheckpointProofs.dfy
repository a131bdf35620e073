/** What every run of the checkpoint keeps. */
module ResultCheckpointProofs {
  import opened Wrappers
  import opened Sequences
  import opened ResultPages
  import opened ResultCheckpoint

  // --- Reading the tables -------------------------------------------------------------------

  /** The records of the receipts met along a path of offsets. */
  ghost function Flatten(pages: map<nat, Receipt>, path: seq<nat>): seq<Record>
    requires forall i :: 0 <= i < |path| ==> path[i] in pages
  {
    if path == [] then []
    else Flatten(pages, path[..|path| - 1]) + pages[path[|path| - 1]].content
  }

  /** The staged records of one group, in insertion order. */
  function Of(rows: seq<Row>, g: GroupKey): seq<Record> {
    if rows == [] then []
    else
      var last := rows[|rows| - 1];
      Of(rows[..|rows| - 1], g) + (if last.group == g then [last.record] else [])
  }

  predicate Staged(root: Root) {
    root.status == Collecting || root.status == Ready || root.status == Invalid
  }

  /** The receipts are exactly a simple path of offsets from 0, each page leading to the next one
      and only the last page able to lack more. */
  ghost predicate IsOffsetPath(pages: map<nat, Receipt>, path: seq<nat>) {
    && (forall i :: 0 <= i < |path| ==> path[i] in pages)
    && (forall o :: o in pages ==> o in path)
    && Distinct(path)
    && (path != [] ==> path[0] == 0)
    && (forall i, j :: 0 <= i < j < |path| && j == i + 1 ==> LeadsTo(pages, path[i], path[j]))
  }

  ghost predicate LeadsTo(pages: map<nat, Receipt>, offset: nat, next: nat) {
    offset in pages && pages[offset].hasMore && pages[offset].nextOffset == next
  }

  /** The group's counters and totals agree with its receipts. */
  ghost predicate Agrees(group: Group, path: seq<nat>)
    requires IsOffsetPath(group.pages, path)
  {
    && |path| == group.pageCount
    && (path == [] ==> group.nextOffset == 0 && !group.completed)
    && (path != [] ==>
          && group.pages[path[|path| - 1]].nextOffset == group.nextOffset
          && group.pages[path[|path| - 1]].hasMore == !group.completed)
    && group.recordCount == |Flatten(group.pages, path)|
    && (group.expectedTotal.Some? ==> group.recordCount <= group.expectedTotal.value)
    && (group.expectedTotal.Some? && group.completed ==> group.recordCount == group.expectedTotal.value)
    && (forall o :: o in group.pages && group.pages[o].expectedTotal.Some? ==>
          group.expectedTotal == group.pages[o].expectedTotal)
  }

  ghost predicate GroupInv(group: Group) {
    exists path :: IsOffsetPath(group.pages, path) && Agrees(group, path)
  }

  /** The records of a group's pages, in page order. */
  ghost function PagesOf(group: Group): (records: seq<Record>)
    requires GroupInv(group)
  {
    var path :| IsOffsetPath(group.pages, path) && Agrees(group, path);
    Flatten(group.pages, path)
  }

  lemma PathFor(group: Group) returns (path: seq<nat>)
    requires GroupInv(group)
    ensures IsOffsetPath(group.pages, path) && Agrees(group, path) && PagesOf(group) == Flatten(group.pages, path)
  {
    path :| IsOffsetPath(group.pages, path) && Agrees(group, path) && PagesOf(group) == Flatten(group.pages, path);
  }

  ghost predicate GroupsInv(root: Root) {
    var keys := Keys(root.manifest.groups);
    && Distinct(keys)
    && (forall g :: g in root.groups <==> g in keys)
    && (forall g :: g in root.groups ==> GroupInv(root.groups[g]))
  }

  /** The staged rows of each group are its pages' records, no more and no less. */
  ghost predicate RowsInv(root: Root)
    requires GroupsInv(root)
  {
    && DistinctKeys(Records(root.rows))
    && |root.rows| == Total(root.groups, Keys(root.manifest.groups))
    && (forall i :: 0 <= i < |root.rows| ==> root.rows[i].group in root.groups)
    && (forall g :: g in root.groups ==> Of(root.rows, g) == PagesOf(root.groups[g]))
  }

  ghost predicate RootInv(root: Root) {
    && GroupsInv(root)
    && (Staged(root) ==> RowsInv(root))
    && (!Staged(root) ==> root.rows == [])
    && (root.status == Ready ==> Summarize(root).Success?)
  }

  ghost predicate ResultSetInv(rs: ResultSet) {
    rs.count == |rs.rows| && rs.count > 0
  }

  ghost predicate Inv(s: State) {
    && (forall id :: id in s.roots ==> RootInv(s.roots[id]))
    && (forall x :: x in s.resultSets ==> ResultSetInv(s.resultSets[x]))
  }

  // --- Facts about the tables ---------------------------------------------------------------

  lemma {:induction false} FlattenFrame(pages: map<nat, Receipt>, more: map<nat, Receipt>, path: seq<nat>)
    requires forall i :: 0 <= i < |path| ==> path[i] in pages && path[i] in more && pages[path[i]] == more[path[i]]
    ensures Flatten(pages, path) == Flatten(more, path)
  {
    if path != [] {
      FlattenFrame(pages, more, path[..|path| - 1]);
    }
  }

  /** A set of receipts is a path in only one way. */
  lemma {:induction false} PathUnique(pages: map<nat, Receipt>, p: seq<nat>, q: seq<nat>, n: nat)
    requires IsOffsetPath(pages, p) && IsOffsetPath(pages, q) && n <= |p| && n <= |q|
    ensures p[..n] == q[..n]
  {
    if n > 0 {
      PathUnique(pages, p, q, n - 1);
      if n > 1 {
        assert p[n - 2] == p[..n - 1][n - 2] == q[..n - 1][n - 2] == q[n - 2];
      }
      assert p[n - 1] == q[n - 1];
      assert p[..n] == p[..n - 1] + [p[n - 1]];
    }
  }

  lemma PagesOfPath(group: Group, path: seq<nat>)
    requires IsOffsetPath(group.pages, path) && Agrees(group, path)
    ensures GroupInv(group) && PagesOf(group) == Flatten(group.pages, path)
  {
    var other :| IsOffsetPath(group.pages, other) && Agrees(group, other) && PagesOf(group) == Flatten(group.pages, other);
    PathUnique(group.pages, path, other, |path|);
    assert path[..|path|] == path && other[..|path|] == other;
  }

  lemma {:induction false} OfTagged(rows: seq<Row>, g: GroupKey, records: seq<Record>, h: GroupKey)
    ensures Of(rows + Tagged(g, records), h) == Of(rows, h) + (if g == h then records else [])
    decreases |records|
  {
    var all := rows + Tagged(g, records);
    if records == [] {
      assert all == rows;
    } else {
      var n := |records| - 1;
      assert all[..|all| - 1] == rows + Tagged(g, records[..n]);
      OfTagged(rows, g, records[..n], h);
      assert records == records[..n] + [records[n]];
    }
  }

  lemma {:induction false} TotalUpdate(groups: map<GroupKey, Group>, keys: seq<GroupKey>, g: GroupKey, group: Group)
    requires Distinct(keys) && (forall k :: k in keys ==> k in groups)
    ensures g !in keys ==> Total(groups[g := group], keys) == Total(groups, keys)
    ensures g in keys ==>
              Total(groups[g := group], keys) == Total(groups, keys) - groups[g].recordCount + group.recordCount
  {
    if keys != [] {
      var n := |keys| - 1;
      assert forall k :: k in keys <==> k in keys[..n] || k == keys[n];
      TotalUpdate(groups, keys[..n], g, group);
    }
  }

  lemma {:induction false} TotalFrame(groups: map<GroupKey, Group>, more: map<GroupKey, Group>, keys: seq<GroupKey>)
    requires forall k :: k in keys ==> k in groups && k in more && groups[k].recordCount == more[k].recordCount
    ensures Total(groups, keys) == Total(more, keys)
  {
    if keys != [] {
      TotalFrame(groups, more, keys[..|keys| - 1]);
    }
  }

  lemma {:induction false} NewGroupsAreEmpty(groups: seq<(GroupKey, Option<nat>)>)
    requires Distinct(Keys(groups))
    ensures forall k :: k in NewGroups(groups) ==>
              NewGroups(groups)[k] == Group(false, 0, NewGroups(groups)[k].expectedTotal, 0, 0, map[])
  {
    if groups != [] {
      var n := |groups| - 1;
      assert Keys(groups) == Keys(groups[..n]) + [groups[n].0];
      NewGroupsAreEmpty(groups[..n]);
    }
  }

  lemma {:induction false} TotalOfEmpty(groups: map<GroupKey, Group>, keys: seq<GroupKey>)
    requires forall k :: k in keys ==> k in groups && groups[k].recordCount == 0
    ensures Total(groups, keys) == 0
  {
    if keys != [] {
      TotalOfEmpty(groups, keys[..|keys| - 1]);
    }
  }

  // --- Each transaction keeps the invariant -------------------------------------------------

  lemma EmptyGroupInv(group: Group)
    requires group == Group(false, 0, group.expectedTotal, 0, 0, map[])
    ensures GroupInv(group) && PagesOf(group) == []
  {
    assert IsOffsetPath(group.pages, []);
    PagesOfPath(group, []);
  }

  lemma NewRootInv(root: Root)
    requires root.status == Collecting && Distinct(Keys(root.manifest.groups))
    requires root.groups == NewGroups(root.manifest.groups) && root.rows == []
    ensures RootInv(root)
  {
    NewGroupsAreEmpty(root.manifest.groups);
    TotalOfEmpty(root.groups, Keys(root.manifest.groups));
    forall g | g in root.groups
      ensures GroupInv(root.groups[g]) && PagesOf(root.groups[g]) == []
    {
      EmptyGroupInv(root.groups[g]);
    }
  }

  lemma PathGrows(pages: map<nat, Receipt>, path: seq<nat>, offset: nat, receipt: Receipt)
    requires IsOffsetPath(pages, path) && offset !in pages
    requires path == [] ==> offset == 0
    requires path != [] ==> LeadsTo(pages, path[|path| - 1], offset)
    ensures IsOffsetPath(pages[offset := receipt], path + [offset])
    ensures Flatten(pages[offset := receipt], path + [offset]) == Flatten(pages, path) + receipt.content
  {
    hide Flatten;
    var more, longer := pages[offset := receipt], path + [offset];
    forall o | o in more
      ensures o in longer
    {
      if o == offset {
        assert longer[|path|] == o;
      } else {
        assert o in path;
      }
    }
    forall i, j | 0 <= i < j < |longer|
      ensures longer[i] != longer[j]
    {
      assert longer[i] == path[i] && path[i] in pages;
    }
    forall i, j | 0 <= i < j < |longer| && j == i + 1
      ensures LeadsTo(more, longer[i], longer[j])
    {
      assert longer[i] == path[i] && path[i] in pages && more[path[i]] == pages[path[i]];
      if j < |path| {
        assert LeadsTo(pages, path[i], path[j]);
      }
    }
    assert Distinct(longer);
    assert longer[0] == 0;
    FlattenGrows(pages, path, offset, receipt);
  }

  lemma FlattenGrows(pages: map<nat, Receipt>, path: seq<nat>, offset: nat, receipt: Receipt)
    requires (forall i :: 0 <= i < |path| ==> path[i] in pages) && offset !in pages
    ensures Flatten(pages[offset := receipt], path + [offset]) == Flatten(pages, path) + receipt.content
  {
    var longer := path + [offset];
    assert longer[..|longer| - 1] == path;
    FlattenFrame(pages, pages[offset := receipt], path);
  }

  /** A page that passes the checks extends its group's path by exactly that page. */
  lemma AdvancedGroupInv(group: Group, rows: seq<Row>, page: Page, maxPages: nat)
    requires GroupInv(group) && !group.completed && group.nextOffset !in group.pages
    requires AdvanceGroup(group, rows, page, maxPages).Success?
    ensures var grown := AdvanceGroup(group, rows, page, maxPages).value;
            GroupInv(grown) && PagesOf(grown) == PagesOf(group) + page.records
  {
    hide AllFresh, PageStaged, IsOffsetPath, Flatten, GroupInv, PagesOf;
    var grown := AdvanceGroup(group, rows, page, maxPages).value;
    var path := PathFor(group);
    PathGrows(group.pages, path, group.nextOffset, ReceiptOf(page));
    assert Agrees(grown, path + [group.nextOffset]);
    PagesOfPath(grown, path + [group.nextOffset]);
  }

  lemma SavedPageInv(root: Root, g: GroupKey, page: Page, maxPages: nat, after: Root)
    requires RootInv(root) && root.status == Collecting && g in root.groups
    requires !root.groups[g].completed && root.groups[g].nextOffset !in root.groups[g].pages
    requires AdvanceGroup(root.groups[g], root.rows, page, maxPages).Success?
    requires after == root.(groups := root.groups[g := AdvanceGroup(root.groups[g], root.rows, page, maxPages).value],
                            rows := root.rows + Tagged(g, page.records))
    ensures RootInv(after)
  {
    hide GroupInv, PagesOf, PageStaged, AllFresh, DistinctKeys, Total;
    var grown := AdvanceGroup(root.groups[g], root.rows, page, maxPages).value;
    AdvancedGroupInv(root.groups[g], root.rows, page, maxPages);
    assert GroupsInv(after);
    forall h | h in after.groups
      ensures Of(after.rows, h) == PagesOf(after.groups[h])
    {
      OfTagged(root.rows, g, page.records, h);
    }
    TotalUpdate(root.groups, Keys(root.manifest.groups), g, grown);
    FreshRowsDistinct(root.rows, page.records);
    assert Records(after.rows) == Records(root.rows) + page.records;
  }

  lemma FreshRowsDistinct(rows: seq<Row>, records: seq<Record>)
    requires DistinctKeys(Records(rows)) && AllFresh(rows, records)
    ensures DistinctKeys(Records(rows) + records)
  {
  }

  /** A change of status, lease holder or edition keeps everything the receipts and rows say. */
  ghost predicate Relabels(root: Root, after: Root) {
    && after.manifest == root.manifest && after.groups == root.groups
    && after.rows == (if Staged(after) then root.rows else [])
    && (Staged(after) ==> Staged(root))
    && (after.status == Ready ==> root.status == Ready || Summarize(root).Success?)
  }

  lemma RelabelledRootInv(root: Root, after: Root)
    requires RootInv(root) && Relabels(root, after)
    ensures RootInv(after)
  {
    hide GroupInv, PagesOf, DistinctKeys, Total;
    assert GroupsInv(after);
    assert Summarize(after) == Summarize(root);
  }

  lemma KeyedHolds(records: seq<Record>)
    requires DistinctRecordKeys(records)
    ensures |Keyed(records)| == |records|
    ensures forall i :: 0 <= i < |records| ==>
              records[i].recordKey in Keyed(records) && Keyed(records)[records[i].recordKey] == records[i]
  {
    forall i | 0 <= i < |records|
      ensures records[i].recordKey in Keyed(records) && Keyed(records)[records[i].recordKey] == records[i]
    {
      KeyedFinds(records, i);
    }
    KeyedCounts(records);
  }

  lemma {:induction false} KeyedFinds(records: seq<Record>, i: nat)
    requires DistinctRecordKeys(records) && i < |records|
    ensures records[i].recordKey in Keyed(records) && Keyed(records)[records[i].recordKey] == records[i]
  {
    if i < |records| - 1 {
      KeyedFinds(records[..|records| - 1], i);
    }
  }

  lemma {:induction false} KeyedCounts(records: seq<Record>)
    requires DistinctRecordKeys(records)
    ensures |Keyed(records)| == |records|
  {
    if records != [] {
      var front := records[..|records| - 1];
      KeyedCounts(front);
      KeyedComesFrom(front);
      assert records[|records| - 1].recordKey !in Keyed(front);
    }
  }

  lemma {:induction false} KeyedComesFrom(records: seq<Record>)
    ensures forall k :: k in Keyed(records) ==> exists i :: 0 <= i < |records| && records[i].recordKey == k
  {
    if records != [] {
      var n := |records| - 1;
      var front := records[..n];
      KeyedComesFrom(front);
      forall k | k in Keyed(records)
        ensures exists i :: 0 <= i < |records| && records[i].recordKey == k
      {
        if k in Keyed(front) {
          var i :| 0 <= i < |front| && front[i].recordKey == k;
          assert records[i].recordKey == k;
        } else {
          assert records[n].recordKey == k;
        }
      }
    }
  }

  ghost predicate DistinctRecordKeys(records: seq<Record>) {
    forall i, j :: 0 <= i < j < |records| ==> records[i].recordKey != records[j].recordKey
  }

  /** Every transaction other than a new root or a new page only relabels checkpoints. */
  lemma OtherStepsRelabel(s: State, a: Action, id: TaskId)
    requires !a.DoStart? && !a.DoSavePage?
    requires id in Step(s, a).roots && (id in s.roots ==> RootInv(s.roots[id]))
    ensures id in s.roots && Relabels(s.roots[id], Step(s, a).roots[id])
  {
    hide RootInv, GroupsInv, RowsInv, Summarize, Keyed, DistinctKeys, PublishDirect;
    if id in s.roots {
      RowsWhenStaged(s.roots[id]);
    }
    match a
    case DoFinish(w, _) =>
    case DoPublish(w, _, _) =>
    case DoPublishDirect(_, _, _, _, _, _) =>
      DirectLeavesRoots(s, a);
    case DoCleanup(_) =>
    case DoHandOver(_, _, _) =>
    case _ =>
  }

  lemma DirectLeavesRoots(s: State, a: Action)
    requires a.DoPublishDirect?
    ensures Step(s, a).roots == s.roots
  {
    hide RepeatedKeys, Associated, LeaseLive, Keyed;
  }

  lemma RowsWhenStaged(root: Root)
    requires RootInv(root)
    ensures root.rows == (if Staged(root) then root.rows else [])
  {
  }

  lemma StepKeepsRoot(s: State, a: Action, id: TaskId)
    requires id in Step(s, a).roots && (id in s.roots ==> RootInv(s.roots[id]))
    ensures RootInv(Step(s, a).roots[id])
  {
    hide RootInv, AdvanceGroup, NewGroups, Summarize;
    var t := Step(s, a);
    match a
    case DoStart(w, manifest, _, _) =>
      if t.roots != s.roots && id == w.task {
        NewRootInv(t.roots[id]);
      }
    case DoSavePage(w, g, _, page, _) =>
      if t.roots != s.roots && id == RootIdOf(w.task, s.tasks[w.task]) {
        SavedPageInv(s.roots[id], g, page, w.maxPages, t.roots[id]);
      }
    case _ =>
      OtherStepsRelabel(s, a, id);
      RelabelledRootInv(s.roots[id], t.roots[id]);
  }

  lemma ReadyRootPublishes(root: Root)
    requires RootInv(root) && root.status == Ready
    ensures Summarize(root).Success? && |root.rows| == Summarize(root).value.total > 0
    ensures DistinctKeys(Records(root.rows))
  {
  }

  lemma OtherStepsKeepResults(s: State, a: Action, x: string)
    requires !a.DoPublish? && !a.DoPublishDirect? && x in Step(s, a).resultSets
    ensures x in s.resultSets && Step(s, a).resultSets[x].rows == s.resultSets[x].rows
    ensures Step(s, a).resultSets[x].count == s.resultSets[x].count
  {
    hide Summarize, AdvanceGroup, OpenRoot, Matches, Associated;
  }

  lemma StepKeepsResultSet(s: State, a: Action, x: string)
    requires Inv(s) && x in Step(s, a).resultSets
    ensures ResultSetInv(Step(s, a).resultSets[x])
  {
    hide RootInv, Keyed, Summarize;
    match a
    case DoPublish(w, _, _) =>
      if Step(s, a).resultSets != s.resultSets {
        var root := s.roots[RootIdOf(w.task, s.tasks[w.task])];
        ReadyRootPublishes(root);
        KeyedHolds(Records(root.rows));
      }
    case DoPublishDirect(_, _, _, _, _, _) =>
      DirectKeepsResultSet(s, a, x);
    case _ =>
      OtherStepsKeepResults(s, a, x);
  }

  lemma DirectKeepsResultSet(s: State, a: Action, x: string)
    requires Inv(s) && a.DoPublishDirect? && x in Step(s, a).resultSets
    ensures ResultSetInv(Step(s, a).resultSets[x])
  {
    hide RootInv, Keyed, Associated, LeaseLive;
    if Step(s, a).resultSets != s.resultSets {
      KeyedHolds(a.records);
    }
  }

  lemma StepKeepsInv(s: State, a: Action)
    requires Inv(s)
    ensures Inv(Step(s, a))
  {
    hide Step, RootInv, ResultSetInv;
    var t := Step(s, a);
    forall id | id in t.roots
      ensures RootInv(t.roots[id])
    {
      StepKeepsRoot(s, a, id);
    }
    forall x | x in t.resultSets
      ensures ResultSetInv(t.resultSets[x])
    {
      StepKeepsResultSet(s, a, x);
    }
  }

  lemma {:induction false} RunKeepsInv(now: int, references: map<string, Reference>, actions: seq<Action>)
    ensures Inv(Run(Empty(now, references), actions))
  {
    if actions != [] {
      RunKeepsInv(now, references, actions[..|actions| - 1]);
      StepKeepsInv(Run(Empty(now, references), actions[..|actions| - 1]), actions[|actions| - 1]);
    }
  }
}
