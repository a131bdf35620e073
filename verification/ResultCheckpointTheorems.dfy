/**
 The promises of resumable extraction, over every run: a sealed checkpoint is one uninterrupted
 read of its source, it is published whole and at most once, and an executor that lost its lease
 or its checkpoint never changes anything again.
 */
module ResultCheckpointTheorems {
  import opened Wrappers
  import opened Sequences
  import opened ResultPages
  import opened ResultCheckpoint
  import opened ResultCheckpointProofs

  /** What the source answers for a checkpoint's group at an offset. */
  type Source = (TaskId, GroupKey, nat) -> Page

  // --- The uninterrupted read ---------------------------------------------------------------

  /** Read one group to its end without a checkpoint, asking for at most `limit` pages. */
  function ReadGroup(source: Source, id: TaskId, g: GroupKey, offset: nat, limit: nat): Option<seq<Record>>
    decreases limit
  {
    if limit == 0 then None
    else
      var page := source(id, g, offset);
      if !page.hasMore then Some(page.records)
      else Prepend(page.records, ReadGroup(source, id, g, page.nextOffset, limit - 1))
  }

  function Prepend(records: seq<Record>, rest: Option<seq<Record>>): Option<seq<Record>> {
    if rest.None? then None else Some(records + rest.value)
  }

  // --- Runs against a fixed source ----------------------------------------------------------

  ghost predicate AnsweredBy(s: State, a: Action, source: Source) {
    a.DoSavePage? && a.w.task in s.tasks ==>
      a.page == source(RootIdOf(a.w.task, s.tasks[a.w.task]), a.group, a.offset)
  }

  /** Every page saved in the run is what the source answers at its offset. */
  ghost predicate Faithful(s: State, actions: seq<Action>, source: Source) {
    forall n :: 0 <= n < |actions| ==> AnsweredBy(Run(s, actions[..n]), actions[n], source)
  }

  ghost predicate FromSource(group: Group, source: Source, id: TaskId, g: GroupKey) {
    forall o :: o in group.pages ==> group.pages[o] == ReceiptOf(source(id, g, o))
  }

  ghost predicate SourceInv(s: State, source: Source) {
    forall id, g :: id in s.roots && g in s.roots[id].groups ==> FromSource(s.roots[id].groups[g], source, id, g)
  }

  lemma StepKeepsSource(s: State, a: Action, source: Source)
    requires Inv(s) && SourceInv(s, source) && AnsweredBy(s, a, source)
    ensures SourceInv(Step(s, a), source)
  {
    forall id, g | id in Step(s, a).roots && g in Step(s, a).roots[id].groups
      ensures FromSource(Step(s, a).roots[id].groups[g], source, id, g)
    {
      StepKeepsGroupSource(s, a, source, id, g);
    }
  }

  lemma StepKeepsGroupSource(s: State, a: Action, source: Source, id: TaskId, g: GroupKey)
    requires Inv(s) && SourceInv(s, source) && AnsweredBy(s, a, source)
    requires id in Step(s, a).roots && g in Step(s, a).roots[id].groups
    ensures FromSource(Step(s, a).roots[id].groups[g], source, id, g)
  {
    hide RootInv, Summarize, FromSource, NewGroups, AdvanceGroup;
    if id in s.roots && g in s.roots[id].groups {
      assert FromSource(s.roots[id].groups[g], source, id, g);
    }
    match a
    case DoStart(w, manifest, _, _) =>
      if Step(s, a).roots != s.roots && id == w.task {
        NewGroupFromSource(manifest, source, id, g);
      }
    case DoSavePage(w, h, offset, page, _) =>
      if Step(s, a).roots != s.roots && id == RootIdOf(w.task, s.tasks[w.task]) && h == g {
        AdvancedFromSource(s.roots[id].groups[g], s.roots[id].rows, page, w.maxPages, source, id, g);
      }
    case _ =>
      OtherStepsRelabel(s, a, id);
  }

  lemma NewGroupFromSource(manifest: Manifest, source: Source, id: TaskId, g: GroupKey)
    requires Distinct(Keys(manifest.groups)) && g in NewGroups(manifest.groups)
    ensures FromSource(NewGroups(manifest.groups)[g], source, id, g)
  {
    NewGroupsAreEmpty(manifest.groups);
  }

  lemma AdvancedFromSource(group: Group, rows: seq<Row>, page: Page, maxPages: nat, source: Source, id: TaskId, g: GroupKey)
    requires FromSource(group, source, id, g) && page == source(id, g, group.nextOffset)
    requires AdvanceGroup(group, rows, page, maxPages).Success?
    ensures FromSource(AdvanceGroup(group, rows, page, maxPages).value, source, id, g)
  {
  }

  lemma {:induction false} RunKeepsSource(now: int, references: map<string, Reference>, actions: seq<Action>, source: Source)
    requires Faithful(Empty(now, references), actions, source)
    ensures SourceInv(Run(Empty(now, references), actions), source)
  {
    if actions != [] {
      var n := |actions| - 1;
      var front := actions[..n];
      forall k | 0 <= k < |front|
        ensures AnsweredBy(Run(Empty(now, references), front[..k]), front[k], source)
      {
        assert front[..k] == actions[..k];
      }
      RunKeepsSource(now, references, front, source);
      RunKeepsInv(now, references, front);
      StepKeepsSource(Run(Empty(now, references), front), actions[n], source);
    }
  }

  // --- A resumed group continues the uninterrupted read -------------------------------------

  /** Reading a group from the start gives the first `n` committed pages followed by a read from
      where they stop. */
  lemma {:induction false} ReadContinues(group: Group, path: seq<nat>, source: Source, id: TaskId, g: GroupKey, n: nat, limit: nat)
    requires IsOffsetPath(group.pages, path) && Agrees(group, path) && FromSource(group, source, id, g)
    requires n <= |path| && n <= limit && (n == |path| ==> !group.completed)
    ensures ReadGroup(source, id, g, 0, limit)
            == Prepend(Flatten(group.pages, path[..n]),
                       ReadGroup(source, id, g, if n < |path| then path[n] else group.nextOffset, limit - n))
  {
    hide IsOffsetPath, Agrees, FromSource;
    var here := if n < |path| then path[n] else group.nextOffset;
    if n > 0 {
      hide Prepend, ReadGroup;
      ReadContinues(group, path, source, id, g, n - 1, limit);
      assert path[..n][..n - 1] == path[..n - 1];
      PageLeadsOn(group, path, n, source, id, g);
      OnePageRead(source, id, g, path[n - 1], limit - (n - 1));
      PrependTwice(Flatten(group.pages, path[..n - 1]), source(id, g, path[n - 1]).records,
                   ReadGroup(source, id, g, here, limit - n));
    } else {
      assert path[..0] == [];
      FirstOffset(group, path);
      EmptyPrepend(ReadGroup(source, id, g, here, limit));
    }
  }

  lemma PageLeadsOn(group: Group, path: seq<nat>, n: nat, source: Source, id: TaskId, g: GroupKey)
    requires IsOffsetPath(group.pages, path) && Agrees(group, path) && FromSource(group, source, id, g)
    requires 0 < n <= |path| && (n == |path| ==> !group.completed)
    ensures forall i :: 0 <= i < |path| ==> path[i] in group.pages
    ensures group.pages[path[n - 1]] == ReceiptOf(source(id, g, path[n - 1]))
    ensures source(id, g, path[n - 1]).hasMore
    ensures source(id, g, path[n - 1]).nextOffset == if n < |path| then path[n] else group.nextOffset
  {
    if n < |path| {
      assert LeadsTo(group.pages, path[n - 1], path[n]);
    }
  }

  lemma FirstOffset(group: Group, path: seq<nat>)
    requires IsOffsetPath(group.pages, path) && Agrees(group, path)
    ensures (if |path| > 0 then path[0] else group.nextOffset) == 0
  {
  }

  lemma OnePageRead(source: Source, id: TaskId, g: GroupKey, offset: nat, limit: nat)
    requires limit > 0
    ensures var page := source(id, g, offset);
            ReadGroup(source, id, g, offset, limit) ==
            if page.hasMore then Prepend(page.records, ReadGroup(source, id, g, page.nextOffset, limit - 1)) else Some(page.records)
  {
  }

  lemma EmptyPrepend(rest: Option<seq<Record>>)
    ensures Prepend([], rest) == rest
  {
    if rest.Some? {
      assert [] + rest.value == rest.value;
    }
  }

  lemma PrependTwice(a: seq<Record>, b: seq<Record>, rest: Option<seq<Record>>)
    ensures Prepend(a, Prepend(b, rest)) == Prepend(a + b, rest)
  {
    if rest.Some? {
      assert a + (b + rest.value) == (a + b) + rest.value;
    }
  }

  /** A group left collecting by any run resumes the uninterrupted read exactly where it stopped. */
  lemma ResumeContinuesRead(group: Group, source: Source, id: TaskId, g: GroupKey, limit: nat)
    requires GroupInv(group) && FromSource(group, source, id, g)
    requires !group.completed && group.pageCount <= limit
    ensures ReadGroup(source, id, g, 0, limit)
            == Prepend(PagesOf(group), ReadGroup(source, id, g, group.nextOffset, limit - group.pageCount))
  {
    hide ReadGroup, Prepend, FromSource, GroupInv;
    var path := PathFor(group);
    PagesOfPath(group, path);
    hide Agrees, IsOffsetPath;
    ReadContinues(group, path, source, id, g, |path|, limit);
    assert path[..|path|] == path;
  }

  /** A completed group holds the whole uninterrupted read. */
  lemma CompletedGroupIsFullRead(group: Group, source: Source, id: TaskId, g: GroupKey, limit: nat)
    requires GroupInv(group) && FromSource(group, source, id, g)
    requires group.completed && group.pageCount <= limit
    ensures ReadGroup(source, id, g, 0, limit) == Some(PagesOf(group))
  {
    var path := PathFor(group);
    var n := |path| - 1;
    ReadContinues(group, path, source, id, g, n, limit);
    assert group.pages[path[n]] == ReceiptOf(source(id, g, path[n]));
  }

  // --- A sealed checkpoint is the uninterrupted read ----------------------------------------

  lemma ReadyGroupsCompleted(root: Root, g: GroupKey)
    requires RootInv(root) && root.status == Ready && g in root.groups
    ensures root.groups[g].completed && Of(root.rows, g) == PagesOf(root.groups[g])
  {
    assert Complete(root.groups[g]);
  }

  /** However the run was interrupted, replayed or handed over, a sealed checkpoint has staged for
      each group exactly the records of one uninterrupted read. */
  lemma SealedIsUninterruptedRead(now: int, references: map<string, Reference>, actions: seq<Action>, source: Source,
                                  id: TaskId, g: GroupKey, limit: nat)
    requires Faithful(Empty(now, references), actions, source)
    requires var s := Run(Empty(now, references), actions);
             && id in s.roots && s.roots[id].status == Ready && g in s.roots[id].groups
             && s.roots[id].groups[g].pageCount <= limit
    ensures ReadGroup(source, id, g, 0, limit) == Some(Of(Run(Empty(now, references), actions).roots[id].rows, g))
  {
    hide Run, Empty, Faithful, RootInv;
    var s := Run(Empty(now, references), actions);
    RunKeepsInv(now, references, actions);
    RunKeepsSource(now, references, actions, source);
    ReadyGroupsCompleted(s.roots[id], g);
    RootHasGroupInv(s.roots[id], g);
    CompletedGroupIsFullRead(s.roots[id].groups[g], source, id, g, limit);
  }

  lemma RootHasGroupInv(root: Root, g: GroupKey)
    requires RootInv(root) && g in root.groups
    ensures GroupInv(root.groups[g]) && (g in Keys(root.manifest.groups))
  {
  }

  lemma {:induction false} OfHoldsGroupRows(rows: seq<Row>, g: GroupKey, record: Record)
    ensures record in Of(rows, g) <==> exists i :: 0 <= i < |rows| && rows[i] == Row(g, record)
  {
    if rows != [] {
      var n := |rows| - 1;
      OfHoldsGroupRows(rows[..n], g, record);
      assert forall i :: 0 <= i < n ==> rows[..n][i] == rows[i];
      if i :| 0 <= i < |rows| && rows[i] == Row(g, record) {
        assert i < n ==> rows[..n][i] == Row(g, record);
      }
    }
  }

  // --- Any two runs agree -------------------------------------------------------------------

  lemma {:induction false} SameAnswersSameRead(p: Source, i: TaskId, q: Source, j: TaskId, g: GroupKey, offset: nat, limit: nat)
    requires forall o :: p(i, g, o) == q(j, g, o)
    ensures ReadGroup(p, i, g, offset, limit) == ReadGroup(q, j, g, offset, limit)
    decreases limit
  {
    if limit > 0 {
      assert p(i, g, offset) == q(j, g, offset);
      SameAnswersSameRead(p, i, q, j, g, p(i, g, offset).nextOffset, limit - 1);
    }
  }

  lemma RowsAreGroupRows(root: Root, record: Record)
    requires RootInv(root) && Staged(root)
    ensures record in Records(root.rows) <==> exists g :: g in root.groups && record in Of(root.rows, g)
  {
    hide GroupInv, PagesOf, DistinctKeys, Total, Summarize, Of;
    if i :| 0 <= i < |root.rows| && root.rows[i].record == record {
      OfHoldsGroupRows(root.rows, root.rows[i].group, record);
      assert Records(root.rows)[i] == record;
    }
    if g :| g in root.groups && record in Of(root.rows, g) {
      OfHoldsGroupRows(root.rows, g, record);
      var i :| 0 <= i < |root.rows| && root.rows[i] == Row(g, record);
      assert Records(root.rows)[i] == record;
    }
  }

  lemma KeyedIncluded(a: seq<Record>, b: seq<Record>, k: string)
    requires DistinctKeys(a) && DistinctKeys(b) && k in Keyed(a)
    requires forall r :: r in a ==> r in b
    ensures k in Keyed(b) && Keyed(b)[k] == Keyed(a)[k]
  {
    hide Keyed;
    KeyedComesFrom(a);
    var i :| 0 <= i < |a| && a[i].recordKey == k;
    KeyedFinds(a, i);
    assert a[i] in b;
    var j :| 0 <= j < |b| && b[j] == a[i];
    KeyedFinds(b, j);
  }

  lemma KeyedDeterminedByRecords(a: seq<Record>, b: seq<Record>)
    requires DistinctKeys(a) && DistinctKeys(b)
    requires forall r :: r in a <==> r in b
    ensures Keyed(a) == Keyed(b)
  {
    hide Keyed, DistinctKeys;
    forall k | k in Keyed(a)
      ensures k in Keyed(b) && Keyed(b)[k] == Keyed(a)[k]
    {
      KeyedIncluded(a, b, k);
    }
    forall k | k in Keyed(b)
      ensures k in Keyed(a)
    {
      KeyedIncluded(b, a, k);
    }
  }

  ghost function Sealed(now: int, references: map<string, Reference>, actions: seq<Action>, id: TaskId): Option<Root> {
    var s := Run(Empty(now, references), actions);
    if id in s.roots && s.roots[id].status == Ready then Some(s.roots[id]) else None
  }

  lemma SealedGroup(now: int, references: map<string, Reference>, actions: seq<Action>, source: Source, id: TaskId, g: GroupKey, limit: nat)
    requires Faithful(Empty(now, references), actions, source)
    requires Sealed(now, references, actions, id).Some?
    ensures var root := Sealed(now, references, actions, id).value;
            && RootInv(root) && root.status == Ready
            && (g in root.groups && root.groups[g].pageCount <= limit ==>
                  ReadGroup(source, id, g, 0, limit) == Some(Of(root.rows, g)))
  {
    hide Run, Empty, RootInv, Faithful;
    RunKeepsInv(now, references, actions);
    var root := Sealed(now, references, actions, id).value;
    if g in root.groups && root.groups[g].pageCount <= limit {
      SealedIsUninterruptedRead(now, references, actions, source, id, g, limit);
    }
  }

  /** Two runs that seal the same manifest against sources answering alike have staged the same
      rows: one of them may be a single uninterrupted execution. */
  lemma SealedRunsAgree(now: int, references: map<string, Reference>, actions: seq<Action>, p: Source, i: TaskId,
                        later: int, others: map<string, Reference>, rerun: seq<Action>, q: Source, j: TaskId)
    requires Faithful(Empty(now, references), actions, p) && Faithful(Empty(later, others), rerun, q)
    requires Sealed(now, references, actions, i).Some? && Sealed(later, others, rerun, j).Some?
    requires forall g, o :: p(i, g, o) == q(j, g, o)
    requires Sealed(now, references, actions, i).value.manifest.groups == Sealed(later, others, rerun, j).value.manifest.groups
    ensures var a, b := Sealed(now, references, actions, i).value, Sealed(later, others, rerun, j).value;
            && (forall g :: g in a.groups ==> g in b.groups && Of(a.rows, g) == Of(b.rows, g))
            && Keyed(Records(a.rows)) == Keyed(Records(b.rows))
            && |a.rows| == |b.rows|
  {
    hide Sealed, Faithful, Empty;
    var a, b := Sealed(now, references, actions, i).value, Sealed(later, others, rerun, j).value;
    assert RootInv(a) && RootInv(b) && Staged(a) && Staged(b) by {
      hide RootInv;
      SealedGroup(now, references, actions, p, i, GroupKey("", F), 0);
      SealedGroup(later, others, rerun, q, j, GroupKey("", F), 0);
    }
    SameGroups(a, b);
    forall g | g in a.groups
      ensures g in b.groups && Of(a.rows, g) == Of(b.rows, g)
    {
      hide RootInv, ReadGroup;
      var limit := a.groups[g].pageCount + b.groups[g].pageCount;
      SealedGroup(now, references, actions, p, i, g, limit);
      SealedGroup(later, others, rerun, q, j, g, limit);
      SameAnswersSameRead(p, i, q, j, g, 0, limit);
    }
    SameGroupRowsSameKeys(a, b);
  }

  lemma SameGroups(a: Root, b: Root)
    requires RootInv(a) && RootInv(b) && a.manifest.groups == b.manifest.groups
    ensures forall g :: g in a.groups <==> g in b.groups
  {
  }

  lemma SameGroupRowsSameKeys(a: Root, b: Root)
    requires RootInv(a) && RootInv(b) && Staged(a) && Staged(b)
    requires forall g :: g in a.groups <==> g in b.groups
    requires forall g :: g in a.groups ==> Of(a.rows, g) == Of(b.rows, g)
    ensures Keyed(Records(a.rows)) == Keyed(Records(b.rows)) && |a.rows| == |b.rows|
  {
    forall r
      ensures r in Records(a.rows) <==> r in Records(b.rows)
    {
      RowsAreGroupRows(a, r);
      RowsAreGroupRows(b, r);
    }
    KeyedDeterminedByRecords(Records(a.rows), Records(b.rows));
    KeyedHolds(Records(a.rows));
    KeyedHolds(Records(b.rows));
  }

  // --- Counting checks that can never fire --------------------------------------------------

  /** The row counts that sealing and publishing compare always agree, and a sealed checkpoint
      always passes the validation that publishing repeats. */
  lemma CountChecksNeverFire(root: Root)
    requires RootInv(root) && Staged(root)
    ensures Summarize(root).Success? ==> |root.rows| == Summarize(root).value.total
    ensures root.status == Ready ==> Summarize(root).Success?
    ensures forall g :: g in root.groups && root.groups[g].completed ==> Complete(root.groups[g])
  {
    hide Summarize;
    if Summarize(root).Success? {
      SummaryIsTotal(root);
    }
    forall g | g in root.groups && root.groups[g].completed
      ensures Complete(root.groups[g])
    {
      var path := PathFor(root.groups[g]);
    }
  }

  lemma SummaryIsTotal(root: Root)
    requires Summarize(root).Success?
    ensures (forall k :: k in Keys(root.manifest.groups) ==> k in root.groups)
    ensures Summarize(root).value.total == Total(root.groups, Keys(root.manifest.groups))
  {
  }

  // --- Publication --------------------------------------------------------------------------

  ghost predicate Publishes(s: State, a: Action, id: TaskId) {
    && a.DoPublish?
    && Publish(s, a.w, a.problem, a.capacity).Success?
    && id == RootIdOf(a.w.task, s.tasks[a.w.task])
  }

  ghost predicate ExactPublication(s: State, t: State, id: TaskId, task: TaskId) {
    && id in s.roots && id in t.roots && task in t.tasks
    && var root := s.roots[id];
    && root.status == Ready
    && t.roots[id].status == Published && t.roots[id].rows == []
    && t.tasks[task].status == Completed
    && root.externalId in t.resultSets
    && t.resultSets[root.externalId].eventId == root.eventId
    && t.resultSets[root.externalId].rows == Keyed(Records(root.rows))
    && t.resultSets[root.externalId].count == |root.rows| == |Keyed(Records(root.rows))|
    && (forall x :: x in s.resultSets && x != root.externalId ==> x in t.resultSets && t.resultSets[x] == s.resultSets[x])
    && (forall x :: x in t.resultSets && x != root.externalId ==> x in s.resultSets)
  }

  /** Publication replaces one result set by exactly the staged rows, in the transaction that ends
      the task and retires the checkpoint; every other result set is untouched. */
  lemma PublicationIsExact(s: State, a: Action, id: TaskId)
    requires Inv(s) && Publishes(s, a, id)
    ensures ExactPublication(s, Step(s, a), id, a.w.task)
  {
    hide Summarize, RootInv;
    var root := s.roots[id];
    assert RootInv(root);
    ReadyRootPublishes(root);
    KeyedHolds(Records(root.rows));
  }

  /** What a run publishes is, record for record, what one uninterrupted read returns. */
  lemma PublishedIsUninterruptedRead(now: int, references: map<string, Reference>, actions: seq<Action>, source: Source,
                                     a: Action, id: TaskId, record: Record, limit: nat)
    requires Faithful(Empty(now, references), actions, source)
    requires Publishes(Run(Empty(now, references), actions), a, id)
    requires var s := Run(Empty(now, references), actions);
             id in s.roots && forall g :: g in s.roots[id].groups ==> s.roots[id].groups[g].pageCount <= limit
    ensures PublishedRecord(Run(Empty(now, references), actions), a, id, record)
            <==> exists g :: g in Keys(Run(Empty(now, references), actions).roots[id].manifest.groups)
                             && ReadGroup(source, id, g, 0, limit).Some?
                             && record in ReadGroup(source, id, g, 0, limit).value
  {
    hide Run, Empty, Faithful, Publishes, Summarize, ReadGroup, RootInv, Step;
    var s := Run(Empty(now, references), actions);
    RunKeepsInv(now, references, actions);
    PublicationIsExact(s, a, id);
    var root := s.roots[id];
    RowsAreGroupRows(root, record);
    ReadyRootPublishes(root);
    KeyedExactly(Records(root.rows), record);
    forall g | g in root.groups
      ensures ReadGroup(source, id, g, 0, limit) == Some(Of(root.rows, g))
    {
      SealedIsUninterruptedRead(now, references, actions, source, id, g, limit);
    }
    GroupsAreKeys(root);
  }

  ghost predicate PublishedRecord(s: State, a: Action, id: TaskId, record: Record)
    requires id in s.roots
  {
    var t := Step(s, a);
    && s.roots[id].externalId in t.resultSets
    && var rows := t.resultSets[s.roots[id].externalId].rows;
       record.recordKey in rows && rows[record.recordKey] == record
  }

  lemma GroupsAreKeys(root: Root)
    requires RootInv(root)
    ensures forall g :: g in root.groups <==> g in Keys(root.manifest.groups)
  {
  }

  lemma KeyedExactly(records: seq<Record>, record: Record)
    requires DistinctKeys(records)
    ensures record.recordKey in Keyed(records) && Keyed(records)[record.recordKey] == record <==> record in records
  {
    KeyedHolds(records);
    KeyedComesFrom(records);
  }

  // --- Status only moves forward ------------------------------------------------------------

  predicate MayBecome(x: Status, y: Status) {
    || x == y
    || (x == Collecting && y == Ready)
    || (x == Ready && y == Published)
    || ((x == Collecting || x == Ready) && y == Invalid)
    || ((x == Collecting || x == Ready || x == Invalid) && y == Expired)
  }

  lemma StatusMovesForward(s: State, a: Action, id: TaskId)
    requires id in s.roots
    ensures id in Step(s, a).roots && MayBecome(s.roots[id].status, Step(s, a).roots[id].status)
  {
    hide Summarize, AdvanceGroup, Associated, Keyed;
  }

  lemma {:induction false} PublishedForever(s: State, actions: seq<Action>, i: nat, j: nat, id: TaskId)
    requires i <= j <= |actions|
    requires id in Run(s, actions[..i]).roots && Run(s, actions[..i]).roots[id].status == Published
    ensures id in Run(s, actions[..j]).roots && Run(s, actions[..j]).roots[id].status == Published
    decreases j
  {
    hide Step;
    if i < j {
      PublishedForever(s, actions, i, j - 1, id);
      StatusMovesForward(Run(s, actions[..j - 1]), actions[j - 1], id);
      assert actions[..j][..j - 1] == actions[..j - 1];
    }
  }

  /** In any run a checkpoint is published at most once. */
  lemma PublishedAtMostOnce(now: int, references: map<string, Reference>, actions: seq<Action>, i: nat, j: nat, id: TaskId)
    requires i < j < |actions|
    requires Publishes(Run(Empty(now, references), actions[..i]), actions[i], id)
    ensures !Publishes(Run(Empty(now, references), actions[..j]), actions[j], id)
  {
    hide Step, Publishes, Inv;
    var s := Empty(now, references);
    RunKeepsInv(now, references, actions[..i]);
    PublicationIsExact(Run(s, actions[..i]), actions[i], id);
    assert actions[..i + 1][..i] == actions[..i];
    PublishedForever(s, actions, i + 1, j, id);
    if Publishes(Run(s, actions[..j]), actions[j], id) {
      PublishNeedsReady(Run(s, actions[..j]), actions[j], id);
    }
  }

  lemma PublishNeedsReady(s: State, a: Action, id: TaskId)
    requires Publishes(s, a, id)
    ensures id in s.roots && s.roots[id].status == Ready
  {
    hide Summarize, Keyed;
  }

  // --- Leases -------------------------------------------------------------------------------

  /** The worker in whose name a transaction runs. */
  ghost function Acting(a: Action): Option<Worker> {
    match a
    case DoHeartbeat(w, _) => Some(w)
    case DoFinishTask(w, _) => Some(w)
    case DoStart(w, _, _, _) => Some(w)
    case DoSavePage(w, _, _, _, _) => Some(w)
    case DoFinish(w, _) => Some(w)
    case DoInvalidate(w) => Some(w)
    case DoPublish(w, _, _) => Some(w)
    case DoPublishDirect(w, _, _, _, _, _) => Some(w)
    case _ => None
  }

  lemma DeadLeaseChangesNothing(s: State, a: Action, w: Worker)
    requires Acting(a) == Some(w) && !LeaseLive(s, w)
    ensures Step(s, a) == s
  {
    hide Summarize, AdvanceGroup, OpenRoot, Keyed, Associated;
  }

  lemma DeadLeaseStaysDead(s: State, a: Action, w: Worker)
    requires w.token in s.issued && !LeaseLive(s, w)
    ensures w.token in Step(s, a).issued && !LeaseLive(Step(s, a), w)
  {
    hide Summarize, AdvanceGroup, OpenRoot, Keyed, Associated, Matches, NewGroups, Removable;
    if Acting(a) == Some(w) {
      DeadLeaseChangesNothing(s, a, w);
    }
  }

  /** Once an executor's lease has lapsed, no transaction of that executor ever changes anything. */
  lemma {:induction false} LapsedWorkerIsHarmless(s: State, w: Worker, actions: seq<Action>, a: Action)
    requires w.token in s.issued && !LeaseLive(s, w) && Acting(a) == Some(w)
    ensures w.token in Run(s, actions).issued && !LeaseLive(Run(s, actions), w)
    ensures Step(Run(s, actions), a) == Run(s, actions)
    decreases |actions|
  {
    hide Step, LeaseLive;
    if actions != [] {
      var n := |actions| - 1;
      LapsedWorkerIsHarmless(s, w, actions[..n], a);
      DeadLeaseStaysDead(Run(s, actions[..n]), actions[n], w);
    }
    DeadLeaseChangesNothing(Run(s, actions), a, w);
  }

  // --- Hand-over ----------------------------------------------------------------------------

  /** Only the live holder of a checkpoint changes its receipts or rows. */
  lemma OnlyHolderWrites(s: State, a: Action, id: TaskId)
    requires id in s.roots && Step(s, a).roots[id].groups != s.roots[id].groups
    ensures Acting(a).Some? && s.roots[id].activeTask == Acting(a).value.task && LeaseLive(s, Acting(a).value)
  {
    hide Summarize, AdvanceGroup, Keyed, Associated, Matches, NewGroups, Removable;
  }

  lemma TasksAreKept(s: State, a: Action, task: TaskId)
    requires task in s.tasks
    ensures task in Step(s, a).tasks && Step(s, a).tasks[task].payload == s.tasks[task].payload
  {
    hide Summarize, AdvanceGroup, Keyed, Associated, Matches, NewGroups, Removable, LeaseLive, RepeatedKeys;
  }

  /** A task that handed its checkpoint over never holds it again. */
  lemma HandedOverForGood(s: State, a: Action, id: TaskId, task: TaskId)
    requires id in s.roots && task in s.tasks && s.roots[id].activeTask != task
    ensures id in Step(s, a).roots && task in Step(s, a).tasks && Step(s, a).roots[id].activeTask != task
  {
    hide Summarize, AdvanceGroup, Keyed, Associated, Matches, NewGroups, Removable, PublishDirect;
    TasksAreKept(s, a, task);
    if a.DoPublishDirect? {
      DirectLeavesRoots(s, a);
    }
  }

  /** A worker whose task does not hold the checkpoint changes nothing of it: no page, seal,
      invalidation or publication. */
  lemma OthersLeaveRoot(s: State, a: Action, id: TaskId)
    requires id in s.roots && Acting(a).Some? && s.roots[id].activeTask != Acting(a).value.task
    ensures id in Step(s, a).roots && Step(s, a).roots[id] == s.roots[id]
  {
    hide Summarize, AdvanceGroup, Keyed, Associated, Matches, NewGroups, PublishDirect;
    if a.DoPublishDirect? {
      DirectLeavesRoots(s, a);
    }
  }

  lemma {:induction false} FormerHolderNeverWrites(s: State, id: TaskId, task: TaskId, actions: seq<Action>, a: Action)
    requires id in s.roots && task in s.tasks && s.roots[id].activeTask != task
    requires Acting(a).Some? && Acting(a).value.task == task
    ensures id in Run(s, actions).roots && task in Run(s, actions).tasks && Run(s, actions).roots[id].activeTask != task
    ensures id in Step(Run(s, actions), a).roots
    ensures Step(Run(s, actions), a).roots[id] == Run(s, actions).roots[id]
    decreases |actions|
  {
    hide Step;
    if actions != [] {
      var n := |actions| - 1;
      FormerHolderNeverWrites(s, id, task, actions[..n], a);
      HandedOverForGood(Run(s, actions[..n]), actions[n], id, task);
    }
    OthersLeaveRoot(Run(s, actions), a, id);
  }

  /** A retry the checkpoint was handed to opens, once claimed, everything its predecessors staged. */
  lemma HandOverKeepsStaging(s: State, ended: TaskId, successor: TaskId, problem: Option<string>, token: Token, until: int, w: Worker)
    requires HandOver(s, ended, successor, problem).Success? && token !in s.issued && until > s.now
    requires w.task == successor && w.token == token && w.pageSize == s.roots[RootIdOf(ended, s.tasks[ended])].pageSize
    ensures var id, t := RootIdOf(ended, s.tasks[ended]), Claim(HandOver(s, ended, successor, problem).value, successor, token, until);
            && LeaseLive(t, w)
            && OpenRoot(t, w) == Success(Some(s.roots[id].(activeTask := successor)))
  {
  }

  // --- Closed checkpoints -------------------------------------------------------------------

  predicate Closed(status: Status) {
    status == Invalid || status == Expired || status == Published
  }

  lemma ClosedIsNotOpened(s: State, w: Worker, id: TaskId)
    requires w.task in s.tasks && id in s.roots && Closed(s.roots[id].status) && RootIdOf(w.task, s.tasks[w.task]) == id
    ensures OpenRoot(s, w).Failure?
  {
    hide Matches;
  }

  lemma ClosedIsLeftAlone(s: State, a: Action, id: TaskId)
    requires id in s.roots && Closed(s.roots[id].status)
    ensures id in Step(s, a).roots && Closed(Step(s, a).roots[id].status)
    ensures Step(s, a).roots[id].groups == s.roots[id].groups
    ensures !Publishes(s, a, id)
  {
    hide Summarize, AdvanceGroup, Keyed, Associated, Matches, NewGroups, PublishDirect, OpenRoot;
    if Acting(a).Some? && Acting(a).value.task in s.tasks && RootIdOf(Acting(a).value.task, s.tasks[Acting(a).value.task]) == id {
      ClosedIsNotOpened(s, Acting(a).value, id);
    }
    if a.DoPublishDirect? {
      DirectLeavesRoots(s, a);
    }
  }

  /** An invalidated, expired or published checkpoint is never written, sealed or published again. */
  lemma {:induction false} ClosedForGood(s: State, actions: seq<Action>, id: TaskId, a: Action)
    requires id in s.roots && Closed(s.roots[id].status)
    ensures var t := Run(s, actions);
            id in t.roots && Closed(t.roots[id].status) && t.roots[id].groups == s.roots[id].groups && !Publishes(t, a, id)
    decreases |actions|
  {
    hide Step, Publishes;
    if actions != [] {
      var n := |actions| - 1;
      ClosedForGood(s, actions[..n], id, a);
      ClosedIsLeftAlone(Run(s, actions[..n]), actions[n], id);
    }
    ClosedIsLeftAlone(Run(s, actions), a, id);
  }

  // --- What a published set holds -----------------------------------------------------------

  /** The records a transaction publishes under the external id, if it publishes there. */
  function Publication(s: State, a: Action, x: string): Option<seq<Record>> {
    match a
    case DoPublish(w, problem, capacity) =>
      if Publish(s, w, problem, capacity).Success? && s.tasks[w.task].payload.externalId == x then
        Some(Records(s.roots[RootIdOf(w.task, s.tasks[w.task])].rows))
      else None
    case DoPublishDirect(w, records, warned, expected, problem, capacity) =>
      if PublishDirect(s, w, records, warned, expected, problem, capacity).Success? && s.tasks[w.task].payload.externalId == x then
        Some(records)
      else None
    case _ => None
  }

  lemma SetsChangeByPublication(s: State, a: Action, x: string)
    requires x in Step(s, a).resultSets
    ensures Publication(s, a, x).Some? ==>
              && Step(s, a).resultSets[x].rows == Keyed(Publication(s, a, x).value)
              && Step(s, a).resultSets[x].count == |Publication(s, a, x).value|
    ensures Publication(s, a, x).None? ==>
              && x in s.resultSets
              && Step(s, a).resultSets[x].rows == s.resultSets[x].rows && Step(s, a).resultSets[x].count == s.resultSets[x].count
  {
    hide Summarize, Keyed, Associated, Matches, LeaseLive, RepeatedKeys;
    if !a.DoPublish? && !a.DoPublishDirect? {
      OtherStepsKeepResults(s, a, x);
    }
  }

  /** Action `n` of the run published the set as it stands, and no later action published there. */
  ghost predicate LastPublished(s: State, actions: seq<Action>, x: string, n: nat, records: seq<Record>) {
    && n < |actions| && Publication(Run(s, actions[..n]), actions[n], x) == Some(records)
    && forall m :: n < m < |actions| ==> Publication(Run(s, actions[..m]), actions[m], x).None?
  }

  /** In every run every published set is exactly one extraction: all the records of the last
      publication under its external id, none of any other, keyed without loss. */
  lemma {:induction false} PublishedSetIsOneExtraction(now: int, references: map<string, Reference>, actions: seq<Action>, x: string)
    returns (n: nat, records: seq<Record>)
    requires x in Run(Empty(now, references), actions).resultSets
    ensures LastPublished(Empty(now, references), actions, x, n, records)
    ensures var set' := Run(Empty(now, references), actions).resultSets[x];
            set'.rows == Keyed(records) && set'.count == |records| == |set'.rows|
    decreases |actions|
  {
    hide Step, Publication, Keyed, RootInv;
    var s, last := Empty(now, references), |actions| - 1;
    var before := Run(s, actions[..last]);
    RunKeepsInv(now, references, actions);
    SetsChangeByPublication(before, actions[last], x);
    if Publication(before, actions[last], x).Some? {
      n, records := last, Publication(before, actions[last], x).value;
    } else {
      n, records := PublishedSetIsOneExtraction(now, references, actions[..last], x);
      assert actions[..last][..n] == actions[..n];
      assert forall m :: n < m < last ==> actions[..last][..m] == actions[..m];
    }
  }

  // --- Checkpoints follow their edition -----------------------------------------------------

  /** The task's checkpoint, if it has one, is on the edition that the task's id resolves to. */
  predicate OnEdition(s: State, t: TaskId)
    requires t in s.tasks
  {
    var id := RootIdOf(t, s.tasks[t]);
    if id in s.roots then s.roots[id].eventId == ResolveEventId(s.aliases, s.tasks[t].payload.eventId)
    else s.tasks[t].payload.checkpointOf.None?
  }

  /** A checkpoint bears the name of the task that opened it and is held by one of its tasks. */
  predicate WellHeld(s: State, id: TaskId)
    requires id in s.roots
  {
    && id in s.tasks && s.tasks[id].payload.checkpointOf.None?
    && s.roots[id].activeTask in s.tasks
    && RootIdOf(s.roots[id].activeTask, s.tasks[s.roots[id].activeTask]) == id
  }

  ghost predicate EditionInv(s: State) {
    && (forall t :: t in s.tasks ==> OnEdition(s, t))
    && (forall id :: id in s.roots ==> WellHeld(s, id))
  }

  lemma MergeKeepsEdition(s: State, source: string, target: string)
    requires EditionInv(s)
    ensures EditionInv(MergeEditions(s, source, target))
  {
    hide OnEdition, WellHeld;
    var t := MergeEditions(s, source, target);
    if t != s {
      assert t.tasks == s.tasks;
      forall k | k in s.tasks
        ensures OnEdition(t, k)
      {
        MergedOnEdition(s, source, target, k);
      }
      forall id | id in s.roots
        ensures WellHeld(t, id)
      {
        SameHolder(s, t, id);
      }
    }
  }

  lemma MergedOnEdition(s: State, source: string, target: string, k: TaskId)
    requires k in s.tasks && OnEdition(s, k)
    ensures k in MergeEditions(s, source, target).tasks && OnEdition(MergeEditions(s, source, target), k)
  {
  }

  lemma SameHolder(s: State, t: State, id: TaskId)
    requires id in s.roots && id in t.roots && WellHeld(s, id) && t.roots[id].activeTask == s.roots[id].activeTask
    requires forall k :: k in s.tasks ==> k in t.tasks && t.tasks[k].payload == s.tasks[k].payload
    ensures WellHeld(t, id)
  {
  }

  /** The same checkpoints and tasks with the same editions, holders and requests. */
  ghost predicate SameNames(s: State, t: State) {
    && t.aliases == s.aliases && t.roots.Keys == s.roots.Keys && t.tasks.Keys == s.tasks.Keys
    && (forall id :: id in s.roots ==> t.roots[id].eventId == s.roots[id].eventId && t.roots[id].activeTask == s.roots[id].activeTask)
    && (forall k :: k in s.tasks ==> t.tasks[k].payload == s.tasks[k].payload)
  }

  lemma SameNamesKeepEdition(s: State, t: State)
    requires EditionInv(s) && SameNames(s, t)
    ensures EditionInv(t)
  {
    hide WellHeld;
    forall id | id in t.roots
      ensures WellHeld(t, id)
    {
      SameHolder(s, t, id);
    }
  }

  lemma QueueKeepsNames(s: State, a: Action)
    requires a.DoClaim? || a.DoHeartbeat? || a.DoRecover? || a.DoFinishTask? || a.DoTick?
    ensures SameNames(s, Step(s, a))
  {
  }

  lemma SavingKeepsNames(s: State, a: Action)
    requires a.DoSavePage?
    ensures SameNames(s, Step(s, a))
  {
    hide AdvanceGroup, Matches, Tagged, ReceiptOf;
  }

  lemma SealingKeepsNames(s: State, a: Action)
    requires a.DoFinish? || a.DoInvalidate? || a.DoCleanup?
    ensures SameNames(s, Step(s, a))
  {
    hide Summarize, Removable, Matches;
  }

  lemma PublicationsKeepNames(s: State, a: Action)
    requires a.DoPublishDirect? || a.DoPublish?
    ensures SameNames(s, Step(s, a))
  {
    hide Summarize, Keyed, RepeatedKeys, Matches, Associated;
    if a.DoPublishDirect? {
      DirectLeavesRoots(s, a);
    }
  }

  lemma StartKeepsEdition(s: State, a: Action)
    requires EditionInv(s) && a.DoStart?
    ensures EditionInv(Step(s, a))
  {
    hide Distinct, Associated, NewGroups, WellHeld;
    var t := Step(s, a);
    if t.roots != s.roots {
      forall id | id in t.roots
        ensures WellHeld(t, id)
      {
        if id in s.roots {
          SameHolder(s, t, id);
        } else {
          OpenedIsHeld(t, id);
        }
      }
    }
  }

  lemma OpenedIsHeld(t: State, id: TaskId)
    requires id in t.roots && id in t.tasks && t.roots[id].activeTask == id && t.tasks[id].payload.checkpointOf.None?
    ensures WellHeld(t, id)
  {
  }

  lemma HandOverKeepsEdition(s: State, a: Action)
    requires EditionInv(s) && (a.DoHandOver? || a.DoEnqueue?)
    ensures EditionInv(Step(s, a))
  {
    hide Associated;
  }

  lemma StepKeepsEdition(s: State, a: Action)
    requires EditionInv(s)
    ensures EditionInv(Step(s, a))
  {
    hide EditionInv, Start, HandOver, Enqueue, SameNames;
    match a
    case DoMerge(source, target) => MergeKeepsEdition(s, source, target);
    case DoStart(_, _, _, _) => StartKeepsEdition(s, a);
    case DoHandOver(_, _, _) => HandOverKeepsEdition(s, a);
    case DoEnqueue(_, _) => HandOverKeepsEdition(s, a);
    case DoPublish(_, _, _) =>
      PublicationsKeepNames(s, a);
      SameNamesKeepEdition(s, Step(s, a));
    case DoPublishDirect(_, _, _, _, _, _) =>
      PublicationsKeepNames(s, a);
      SameNamesKeepEdition(s, Step(s, a));
    case _ =>
      if a.DoSavePage? {
        SavingKeepsNames(s, a);
      } else if a.DoFinish? || a.DoInvalidate? || a.DoCleanup? {
        SealingKeepsNames(s, a);
      } else {
        QueueKeepsNames(s, a);
      }
      SameNamesKeepEdition(s, Step(s, a));
  }

  /** In every run a checkpoint is on the edition that the id its task was created with resolves to,
      and so for every retry of it: merges never make it incompatible with its tasks. */
  lemma {:induction false} CheckpointFollowsEdition(now: int, references: map<string, Reference>, actions: seq<Action>)
    ensures EditionInv(Run(Empty(now, references), actions))
  {
    hide Step;
    if actions != [] {
      CheckpointFollowsEdition(now, references, actions[..|actions| - 1]);
      StepKeepsEdition(Run(Empty(now, references), actions[..|actions| - 1]), actions[|actions| - 1]);
    }
  }
}
