/**
 The checkpoint transactions as the executor performs them, statement by statement over the
 tables. Each method is proved to commit exactly what the corresponding transaction of the state
 machine commits, or to leave every table as it was.
 */
module ResultCheckpointStore {
  import opened Wrappers
  import opened Sequences
  import opened ResultPages
  import opened ResultCheckpoint
  import Proofs = ResultCheckpointProofs

  /** A method agrees with a transaction: same outcome, same tables. */
  ghost predicate Implements(before: State, spec: Result<State, Error>, r: Result<(), Error>, after: State) {
    if spec.Success? then r.Success? && after == spec.value
    else r == Failure(spec.error) && after == before
  }

  lemma CleanupOneMore(before: State, swept: set<TaskId>, id: TaskId)
    ensures var s := ResultCheckpoint.Cleanup(before, swept);
            ResultCheckpoint.Cleanup(before, swept + {id})
            == if Removable(s, id) then s.(roots := s.roots[id := s.roots[id].(status := Expired, rows := [])]) else s
  {
    var s, t := ResultCheckpoint.Cleanup(before, swept), ResultCheckpoint.Cleanup(before, swept + {id});
    forall k | k in t.roots
      ensures k in s.roots
      ensures t.roots[k] == if k == id && Removable(s, id) then s.roots[id].(status := Expired, rows := []) else s.roots[k]
    {
    }
    if Removable(s, id) {
      assert t.roots == s.roots[id := s.roots[id].(status := Expired, rows := [])];
    } else {
      assert t.roots == s.roots;
    }
  }

  class ResultCheckpoints {
    var now: int
    var tasks: map<TaskId, Task>
    var issued: set<Token>
    var roots: map<TaskId, Root>
    var references: map<string, Reference>
    var resultSets: map<string, ResultSet>
    var aliases: map<string, string>

    function Tables(): State
      reads this
    {
      State(now, tasks, issued, roots, references, resultSets, aliases)
    }

    constructor (now: int, references: map<string, Reference>)
      ensures Tables() == Empty(now, references)
    {
      this.now, this.references := now, references;
      tasks, issued, roots, resultSets, aliases := map[], {}, map[], map[], map[];
    }

    /** Fence, capacity and the worker's own checkpoint: what every write begins with. */
    method OpenForWrite(w: Worker, capacity: bool) returns (r: Result<Option<Root>, Error>)
      ensures !LeaseLive(Tables(), w) ==> r == Failure(LeaseLost)
      ensures LeaseLive(Tables(), w) && !capacity ==> r == Failure(CapacityDeferred)
      ensures LeaseLive(Tables(), w) && capacity ==> r == OpenRoot(Tables(), w)
      ensures r.Success? && r.value.Some? ==>
                RootIdOf(w.task, tasks[w.task]) in roots && r.value.value == roots[RootIdOf(w.task, tasks[w.task])]
    {
      if !LeaseLive(Tables(), w) {
        return Failure(LeaseLost);
      }
      if !capacity {
        return Failure(CapacityDeferred);
      }
      r := OpenRoot(Tables(), w);
    }

    method Start(w: Worker, manifest: Manifest, problem: Option<string>, capacity: bool) returns (r: Result<(), Error>)
      modifies this`roots
      ensures Implements(old(Tables()), ResultCheckpoint.Start(old(Tables()), w, manifest, problem, capacity), r, Tables())
    {
      if manifest.groups == [] || !Distinct(Keys(manifest.groups)) {
        return Failure(GroupsInvalid);
      }
      if w.task in tasks && manifest.externalId != tasks[w.task].payload.externalId {
        return Failure(IdentityMismatch);
      }
      if !LeaseLive(Tables(), w) {
        return Failure(LeaseLost);
      }
      if !capacity {
        return Failure(CapacityDeferred);
      }
      var payload := tasks[w.task].payload;
      if !Associated(Tables(), payload)
         || WithoutTrailingSlashes(payload.url) != WithoutTrailingSlashes(manifest.sourceUrl) {
        return Failure(AssociationChanged);
      }
      if problem.Some? {
        return Failure(EditionProblem(problem.value));
      }
      var mine := OpenRoot(Tables(), w);
      if mine.Failure? {
        return Failure(mine.error);
      }
      if mine.value.Some? {
        if mine.value.value.manifest != manifest {
          return Failure(Incompatible);
        }
        return Success(());
      }
      if payload.checkpointOf.Some? {
        return Failure(Unavailable);
      }
      var groups: map<GroupKey, Group> := map[];
      for n := 0 to |manifest.groups|
        invariant groups == NewGroups(manifest.groups[..n])
      {
        assert manifest.groups[..n + 1][..n] == manifest.groups[..n];
        groups := groups[manifest.groups[n].0 := Group(false, 0, manifest.groups[n].1, 0, 0, map[])];
      }
      assert manifest.groups[..|manifest.groups|] == manifest.groups;
      roots := roots[w.task := Root(w.task, ResolveEventId(aliases, payload.eventId), payload.externalId, payload.url,
                                    w.pageSize, manifest, Collecting, now + RETENTION, groups, [])];
      r := Success(());
    }

    /** Insert the page's rows one by one; the first key conflict abandons them all. */
    method InsertRows(rows: seq<Row>, g: GroupKey, records: seq<Record>) returns (r: Result<seq<Row>, Error>)
      ensures AllFresh(rows, records) ==> r == Success(rows + Tagged(g, records))
      ensures !AllFresh(rows, records) ==> r == Failure(RowsRepeated)
    {
      var staged := rows;
      for n := 0 to |records|
        invariant staged == rows + Tagged(g, records[..n])
        invariant AllFresh(rows, records[..n])
      {
        if exists i :: 0 <= i < |staged| && !Distinguished(staged[i].record, records[n]) {
          ghost var i :| 0 <= i < |staged| && !Distinguished(staged[i].record, records[n]);
          if i >= |rows| {
            assert staged[i].record == records[i - |rows|];
          }
          return Failure(RowsRepeated);
        }
        forall k | 0 <= k < n
          ensures Distinguished(records[k], records[n])
        {
          assert staged[|rows| + k].record == records[k];
        }
        forall i | 0 <= i < |rows|
          ensures Distinguished(rows[i].record, records[n])
        {
          assert staged[i] == rows[i];
        }
        staged := staged + [Row(g, records[n])];
        assert Tagged(g, records[..n + 1]) == Tagged(g, records[..n]) + [Row(g, records[n])];
      }
      assert records[..|records|] == records;
      r := Success(staged);
    }

    method SavePage(w: Worker, g: GroupKey, offset: nat, page: Page, capacity: bool) returns (r: Result<(), Error>)
      modifies this`roots
      ensures Implements(old(Tables()), ResultCheckpoint.SavePage(old(Tables()), w, g, offset, page, capacity), r, Tables())
    {
      var mine := OpenForWrite(w, capacity);
      if mine.Failure? {
        return Failure(mine.error);
      }
      if mine.value.None? || mine.value.value.status != Collecting {
        return Failure(Unavailable);
      }
      var root := mine.value.value;
      if g in root.groups && offset in root.groups[g].pages {
        if root.groups[g].pages[offset] != ReceiptOf(page) {
          return Failure(Incompatible);
        }
        return Success(());
      }
      if g !in root.groups || root.groups[g].completed || root.groups[g].nextOffset != offset {
        return Failure(Incompatible);
      }
      var group := root.groups[g];
      if group.pageCount >= w.maxPages {
        return Failure(PageLimit);
      }
      var expected := if group.expectedTotal.Some? then group.expectedTotal else page.expected;
      if expected.Some? && page.expected.Some? && expected != page.expected {
        return Failure(TotalChanged);
      }
      var count := group.recordCount + |page.records|;
      if expected.Some? && (count > expected.value || (!page.hasMore && count != expected.value)) {
        return Failure(IncompleteExtraction);
      }
      if page.records != [] && PageStaged(group, page.records) {
        return Failure(PageRepeated);
      }
      var rows := InsertRows(root.rows, g, page.records);
      if rows.Failure? {
        return Failure(rows.error);
      }
      var advanced := Group(!page.hasMore, page.nextOffset, expected, count, group.pageCount + 1,
                            group.pages[offset := ReceiptOf(page)]);
      roots := roots[RootIdOf(w.task, tasks[w.task]) := root.(groups := root.groups[g := advanced], rows := rows.value)];
      r := Success(());
    }

    method AddCounts(groups: map<GroupKey, Group>, keys: seq<GroupKey>) returns (total: nat)
      requires forall k :: k in keys ==> k in groups
      ensures total == Total(groups, keys)
    {
      total := 0;
      for n := 0 to |keys|
        invariant total == Total(groups, keys[..n])
      {
        assert keys[..n + 1][..n] == keys[..n];
        total := total + groups[keys[n]].recordCount;
      }
      assert keys[..|keys|] == keys;
    }

    /** Whether every group is complete, and the sum of the expected totals when all are known. */
    method CheckGroups(groups: map<GroupKey, Group>, keys: seq<GroupKey>) returns (complete: bool, known: Option<nat>)
      requires forall k :: k in keys ==> k in groups
      ensures complete <==> forall k :: k in keys ==> Complete(groups[k])
      ensures known.Some? <==> forall k :: k in keys ==> groups[k].expectedTotal.Some?
      ensures known.Some? ==> known.value == ExpectedTotal(groups, keys)
    {
      complete, known := true, Some(0);
      for n := 0 to |keys|
        invariant complete <==> forall k :: k in keys[..n] ==> Complete(groups[k])
        invariant known.Some? <==> forall k :: k in keys[..n] ==> groups[k].expectedTotal.Some?
        invariant known.Some? ==> known.value == ExpectedTotal(groups, keys[..n])
      {
        var group := groups[keys[n]];
        assert keys[..n + 1][..n] == keys[..n];
        assert forall k :: k in keys[..n + 1] <==> k in keys[..n] || k == keys[n];
        complete := complete && Complete(group);
        known := if known.Some? && group.expectedTotal.Some? then Some(known.value + group.expectedTotal.value) else None;
      }
      assert keys[..|keys|] == keys;
    }

    /** Validate a checkpoint's groups and add up its counters. */
    method Summary(root: Root) returns (r: Result<Extraction, Error>)
      ensures r == Summarize(root)
    {
      var keys := Keys(root.manifest.groups);
      if !(forall k :: k in keys ==> k in root.groups) || !(forall k :: k in root.groups ==> k in keys) {
        return Failure(IncompleteExtraction);
      }
      var total := AddCounts(root.groups, keys);
      var complete, known := CheckGroups(root.groups, keys);
      if total == 0 {
        return Failure(NoResults);
      }
      if !complete {
        return Failure(IncompleteExtraction);
      }
      var expected := if root.manifest.expectedTotal.Some? then root.manifest.expectedTotal
                      else known;
      if expected.Some? && expected.value != total {
        return Failure(IncompleteExtraction);
      }
      r := Success(Extraction(total, expected));
    }

    method Finish(w: Worker, capacity: bool) returns (r: Result<(), Error>)
      modifies this`roots
      ensures Implements(old(Tables()), ResultCheckpoint.Finish(old(Tables()), w, capacity), r, Tables())
    {
      var mine := OpenForWrite(w, capacity);
      if mine.Failure? {
        return Failure(mine.error);
      }
      if mine.value.None? {
        return Failure(Unavailable);
      }
      var root := mine.value.value;
      var result := Summary(root);
      if result.Failure? {
        return Failure(result.error);
      }
      if |root.rows| != result.value.total {
        return Failure(IncompleteExtraction);
      }
      roots := roots[RootIdOf(w.task, tasks[w.task]) := root.(status := Ready)];
      r := Success(());
    }

    /** Only the live holder closes its own open checkpoint; whatever else there is stays. */
    method Invalidate(w: Worker)
      modifies this`roots
      ensures roots.Keys == old(roots).Keys
      ensures forall id :: id in roots ==> roots[id] == old(roots)[id] || roots[id] == old(roots)[id].(status := Invalid)
      ensures forall id :: id in roots ==>
                (roots[id] != old(roots)[id] <==>
                   && LeaseLive(old(Tables()), w) && id == RootIdOf(w.task, tasks[w.task]) && old(roots)[id].activeTask == w.task
                   && old(roots)[id].status in {Collecting, Ready})
      ensures Tables() == ResultCheckpoint.Invalidate(old(Tables()), w)
    {
      if LeaseLive(Tables(), w) {
        var id := RootIdOf(w.task, tasks[w.task]);
        if id in roots && roots[id].activeTask == w.task && (roots[id].status == Collecting || roots[id].status == Ready) {
          roots := roots[id := roots[id].(status := Invalid)];
        }
      }
    }

    /** Copy the staged rows, in order, into the published rows of the set. */
    method CopyRows(rows: seq<Row>) returns (published: map<string, Record>)
      ensures published == Keyed(Records(rows))
    {
      published := map[];
      for n := 0 to |rows|
        invariant published == Keyed(Records(rows[..n]))
      {
        assert Records(rows[..n + 1])[..n] == Records(rows[..n]);
        published := published[rows[n].record.recordKey := rows[n].record];
      }
      assert rows[..|rows|] == rows;
    }

    method Publish(w: Worker, problem: Option<string>, capacity: bool) returns (r: Result<(), Error>)
      modifies this`roots, this`tasks, this`resultSets
      ensures Implements(old(Tables()), ResultCheckpoint.Publish(old(Tables()), w, problem, capacity), r, Tables())
    {
      var mine := OpenForWrite(w, capacity);
      if mine.Failure? {
        return Failure(mine.error);
      }
      if mine.value.None? || mine.value.value.status != Ready {
        return Failure(Unavailable);
      }
      var root := mine.value.value;
      var result := Summary(root);
      if result.Failure? {
        return Failure(result.error);
      }
      if |root.rows| != result.value.total {
        return Failure(IncompleteExtraction);
      }
      var payload := tasks[w.task].payload;
      if !Associated(Tables(), payload) {
        return Failure(AssociationChanged);
      }
      if problem.Some? {
        return Failure(EditionProblem(problem.value));
      }
      var event := ResolveEventId(aliases, payload.eventId);
      if payload.externalId in resultSets && resultSets[payload.externalId].eventId != event {
        return Failure(AssociationChanged);
      }
      var published := CopyRows(root.rows);
      resultSets := resultSets[payload.externalId := ResultSet(event, |root.rows|, published)];
      var id := RootIdOf(w.task, tasks[w.task]);
      tasks := tasks[w.task := CompletedTask(tasks[w.task])];
      roots := roots[id := root.(status := Published, rows := [])];
      r := Success(());
    }

    /** Insert result rows one by one until a record key repeats. */
    method InsertResults(records: seq<Record>) returns (r: Result<map<string, Record>, Error>)
      ensures RepeatedKeys(records) ==> r == Failure(RowsRepeated)
      ensures !RepeatedKeys(records) ==> r == Success(Keyed(records))
    {
      var inserted: map<string, Record> := map[];
      for n := 0 to |records|
        invariant !RepeatedKeys(records[..n]) && inserted == Keyed(records[..n])
        invariant forall key :: key in inserted <==> exists i :: 0 <= i < n && records[i].recordKey == key
      {
        if records[n].recordKey in inserted {
          return Failure(RowsRepeated);
        }
        assert records[..n + 1][..n] == records[..n];
        inserted := inserted[records[n].recordKey := records[n]];
      }
      assert records[..|records|] == records;
      r := Success(inserted);
    }

    /** Publication without a checkpoint: one complete extraction held in memory. */
    method PublishDirect(w: Worker, records: seq<Record>, warned: bool, expected: Option<nat>, problem: Option<string>, capacity: bool)
      returns (r: Result<(), Error>)
      modifies this`tasks, this`resultSets
      ensures Implements(old(Tables()), ResultCheckpoint.PublishDirect(old(Tables()), w, records, warned, expected, problem, capacity), r, Tables())
    {
      hide RepeatedKeys, Keyed;
      if warned || records == [] || (expected.Some? && expected.value != |records|) {
        return Failure(IncompleteExtraction);
      }
      if !LeaseLive(Tables(), w) {
        return Failure(LeaseLost);
      }
      if !capacity {
        return Failure(CapacityDeferred);
      }
      var payload := tasks[w.task].payload;
      if !Associated(Tables(), payload) {
        return Failure(AssociationChanged);
      }
      if problem.Some? {
        return Failure(EditionProblem(problem.value));
      }
      var event := ResolveEventId(aliases, payload.eventId);
      if payload.externalId in resultSets && resultSets[payload.externalId].eventId != event {
        return Failure(AssociationChanged);
      }
      var inserted := InsertResults(records);
      if inserted.Failure? {
        return Failure(inserted.error);
      }
      resultSets := resultSets[payload.externalId := ResultSet(event, |records|, inserted.value)];
      tasks := tasks[w.task := CompletedTask(tasks[w.task])];
      r := Success(());
    }

    /** Retention: at most 25 expired checkpoints lose their rows in one pass. */
    method Cleanup(chosen: seq<TaskId>)
      requires |chosen| <= 25
      modifies this`roots
      ensures Tables() == ResultCheckpoint.Cleanup(old(Tables()), set id | id in chosen)
    {
      ghost var before, swept: set<TaskId> := Tables(), {};
      assert ResultCheckpoint.Cleanup(before, {}) == before by {
        assert ResultCheckpoint.Cleanup(before, {}).roots == before.roots;
      }
      for n := 0 to |chosen|
        invariant swept == set id | id in chosen[..n]
        invariant Tables() == ResultCheckpoint.Cleanup(before, swept)
      {
        var id := chosen[n];
        CleanupOneMore(before, swept, id);
        if Removable(Tables(), id) {
          roots := roots[id := roots[id].(status := Expired, rows := [])];
        }
        swept := swept + {id};
      }
      assert chosen[..|chosen|] == chosen;
    }

    /** A retry takes over an open checkpoint that is still its edition's and that nobody works on; it
        is queued for the same request, and only the holder of the checkpoint changes. */
    method HandOver(ended: TaskId, successor: TaskId, problem: Option<string>) returns (r: Result<(), Error>)
      modifies this`roots, this`tasks
      ensures r.Success? <==>
                && ended in old(tasks) && successor !in old(tasks) && successor !in old(roots)
                && old(tasks)[ended].status in {Failed, Partial} && problem.None?
                && Associated(old(Tables()), old(tasks)[ended].payload)
                && RootIdOf(ended, old(tasks)[ended]) in old(roots)
                && var root := old(roots)[RootIdOf(ended, old(tasks)[ended])];
                && Matches(old(Tables()), root, old(tasks)[ended].payload)
                && root.status in {Collecting, Ready} && root.expiresAt > now
                && !(root.activeTask in old(tasks) && old(tasks)[root.activeTask].status in {Queued, Running})
      ensures r.Failure? ==> tasks == old(tasks) && roots == old(roots)
      ensures r.Success? ==>
                && var id := RootIdOf(ended, old(tasks)[ended]);
                && tasks.Keys == old(tasks).Keys + {successor} && (forall t :: t in old(tasks) ==> tasks[t] == old(tasks)[t])
                && tasks[successor].status == Queued && RootIdOf(successor, tasks[successor]) == id
                && tasks[successor].payload.(checkpointOf := old(tasks)[ended].payload.checkpointOf) == old(tasks)[ended].payload
                && roots.Keys == old(roots).Keys && (forall k :: k in roots && k != id ==> roots[k] == old(roots)[k])
                && roots[id] == old(roots)[id].(activeTask := successor)
      ensures Implements(old(Tables()), ResultCheckpoint.HandOver(old(Tables()), ended, successor, problem), r, Tables())
    {
      if ended !in tasks || successor in tasks || successor in roots
         || (tasks[ended].status != Failed && tasks[ended].status != Partial) {
        return Failure(TaskConflict);
      }
      var payload := tasks[ended].payload;
      var id := RootIdOf(ended, tasks[ended]);
      if id !in roots {
        return Failure(Unavailable);
      }
      var root := roots[id];
      if !Matches(Tables(), root, payload) {
        return Failure(Incompatible);
      }
      if root.expiresAt <= now || root.status == Expired {
        return Failure(CheckpointExpired);
      }
      if root.status != Collecting && root.status != Ready {
        return Failure(Unavailable);
      }
      if root.activeTask in tasks && (tasks[root.activeTask].status == Queued || tasks[root.activeTask].status == Running) {
        return Failure(InUse);
      }
      if problem.Some? {
        return Failure(EditionProblem(problem.value));
      }
      if !Associated(Tables(), payload) {
        return Failure(AssociationChanged);
      }
      tasks := tasks[successor := Task(Queued, None, 0, payload.(checkpointOf := Some(id)))];
      roots := roots[id := root.(activeTask := successor)];
      r := Success(());
    }
  }
}
