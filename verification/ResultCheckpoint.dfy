/**
 The resumable result checkpoint as a state machine. Each function below is one database
 transaction: it either commits a new state or fails and leaves the state as it was.
 */
module ResultCheckpoint {
  import opened Wrappers
  import opened Sequences
  import opened ResultPages

  type TaskId = string
  type Token = nat

  datatype Gender = F | M

  datatype GroupKey = GroupKey(modality: string, gender: Gender)

  /** A committed page. Its content digest is injective, so the receipt stands for the records. */
  datatype Receipt = Receipt(nextOffset: nat, hasMore: bool, expectedTotal: Option<nat>, content: seq<Record>)

  /** One (modality, gender) group with the receipts of its pages, keyed by offset. */
  datatype Group =
    Group(completed: bool, nextOffset: nat, expectedTotal: Option<nat>, recordCount: nat, pageCount: nat,
          pages: map<nat, Receipt>)

  datatype Row = Row(group: GroupKey, record: Record)

  datatype Manifest =
    Manifest(groups: seq<(GroupKey, Option<nat>)>, expectedTotal: Option<nat>, externalId: string, sourceUrl: string,
             edition: string)

  datatype Status = Collecting | Ready | Invalid | Published | Expired

  datatype Root =
    Root(activeTask: TaskId, eventId: string, externalId: string, sourceUrl: string, pageSize: nat,
         manifest: Manifest, status: Status, expiresAt: int,
         groups: map<GroupKey, Group>, rows: seq<Row>)

  datatype TaskStatus = Queued | Running | Completed | Partial | Failed | Cancelled

  datatype TaskPayload = TaskPayload(eventId: string, externalId: string, url: string, checkpointOf: Option<TaskId>)

  datatype Task = Task(status: TaskStatus, token: Option<Token>, leaseUntil: int, payload: TaskPayload)

  datatype Reference = Reference(eventId: string, url: string)

  datatype ResultSet = ResultSet(eventId: string, count: nat, rows: map<string, Record>)

  datatype State =
    State(now: int, tasks: map<TaskId, Task>, issued: set<Token>, roots: map<TaskId, Root>,
          references: map<string, Reference>, resultSets: map<string, ResultSet>, aliases: map<string, string>)

  /** A running executor: the task it claimed, its lease token, and its own settings. */
  datatype Worker = Worker(task: TaskId, token: Token, pageSize: nat, maxPages: nat)

  datatype Error =
    | LeaseLost | CapacityDeferred | GroupsInvalid | IdentityMismatch | AssociationChanged | EditionProblem(code: string)
    | Incompatible | InUse | CheckpointExpired | Unavailable | PageLimit | TotalChanged | IncompleteExtraction
    | PageRepeated | RowsRepeated | NoResults | TaskConflict

  datatype Extraction = Extraction(total: nat, expected: Option<nat>)

  const RETENTION := 604800 // seven days, in seconds

  // --- Shared reads -------------------------------------------------------------------------

  function ResolveEventId(aliases: map<string, string>, id: string): string {
    if id in aliases then aliases[id] else id
  }

  predicate LeaseLive(s: State, w: Worker) {
    && w.task in s.tasks
    && s.tasks[w.task].status == Running
    && s.tasks[w.task].token == Some(w.token)
    && s.tasks[w.task].leaseUntil > s.now
  }

  function RootIdOf(id: TaskId, task: Task): TaskId {
    if task.payload.checkpointOf.Some? then task.payload.checkpointOf.value else id
  }

  predicate Matches(s: State, root: Root, payload: TaskPayload) {
    && root.eventId == ResolveEventId(s.aliases, payload.eventId)
    && root.externalId == payload.externalId
    && root.sourceUrl == payload.url
  }

  /** The worker's own checkpoint, when it may use one. */
  function OpenRoot(s: State, w: Worker): Result<Option<Root>, Error>
    requires w.task in s.tasks
  {
    var id := RootIdOf(w.task, s.tasks[w.task]);
    if id !in s.roots then Success(None)
    else
      var root := s.roots[id];
      if !Matches(s, root, s.tasks[w.task].payload) || root.pageSize != w.pageSize then Failure(Incompatible)
      else if root.activeTask != w.task then Failure(InUse)
      else if root.expiresAt <= s.now || root.status == Expired then Failure(CheckpointExpired)
      else if root.status != Collecting && root.status != Ready then Failure(Unavailable)
      else Success(Some(root))
  }

  predicate Associated(s: State, payload: TaskPayload) {
    && payload.externalId in s.references
    && s.references[payload.externalId].eventId == ResolveEventId(s.aliases, payload.eventId)
    && s.references[payload.externalId].url == payload.url
  }

  function WithoutTrailingSlashes(url: string): string {
    if |url| > 0 && url[|url| - 1] == '/' then WithoutTrailingSlashes(url[..|url| - 1]) else url
  }

  function Keys(groups: seq<(GroupKey, Option<nat>)>): (keys: seq<GroupKey>)
    ensures |keys| == |groups| && forall i :: 0 <= i < |keys| ==> keys[i] == groups[i].0
  {
    seq(|groups|, i requires 0 <= i < |groups| => groups[i].0)
  }

  // --- start --------------------------------------------------------------------------------

  function NewGroups(groups: seq<(GroupKey, Option<nat>)>): (m: map<GroupKey, Group>)
    ensures forall k :: k in m <==> k in Keys(groups)
  {
    if groups == [] then map[]
    else
      var last := |groups| - 1;
      assert Keys(groups) == Keys(groups[..last]) + [groups[last].0];
      NewGroups(groups[..last])[groups[last].0 := Group(false, 0, groups[last].1, 0, 0, map[])]
  }

  function Start(s: State, w: Worker, manifest: Manifest, problem: Option<string>, capacity: bool): Result<State, Error>
  {
    if manifest.groups == [] || !Distinct(Keys(manifest.groups)) then Failure(GroupsInvalid)
    else if w.task in s.tasks && manifest.externalId != s.tasks[w.task].payload.externalId then Failure(IdentityMismatch)
    else if !LeaseLive(s, w) then Failure(LeaseLost)
    else if !capacity then Failure(CapacityDeferred)
    else
      var payload := s.tasks[w.task].payload;
      if !Associated(s, payload) || WithoutTrailingSlashes(payload.url) != WithoutTrailingSlashes(manifest.sourceUrl) then
        Failure(AssociationChanged)
      else if problem.Some? then Failure(EditionProblem(problem.value))
      else
        var mine := OpenRoot(s, w);
        if mine.Failure? then Failure(mine.error)
        else if mine.value.Some? then
          (if mine.value.value.manifest != manifest then Failure(Incompatible) else Success(s))
        else if payload.checkpointOf.Some? then Failure(Unavailable)
        else
          Success(s.(roots := s.roots[w.task :=
            Root(w.task, ResolveEventId(s.aliases, payload.eventId), payload.externalId, payload.url, w.pageSize, manifest,
                 Collecting, s.now + RETENTION, NewGroups(manifest.groups), [])]))
  }

  // --- save_page ----------------------------------------------------------------------------

  predicate Distinguished(a: Record, b: Record) {
    a.recordKey != b.recordKey && a.dedupeKey != b.dedupeKey
  }

  predicate DistinctKeys(records: seq<Record>) {
    forall i, j :: 0 <= i < j < |records| ==> Distinguished(records[i], records[j])
  }

  /** Inserting all the records violates neither unique key of the staging table. */
  predicate AllFresh(rows: seq<Row>, records: seq<Record>) {
    && DistinctKeys(records)
    && (forall i, j :: 0 <= i < |rows| && 0 <= j < |records| ==> Distinguished(rows[i].record, records[j]))
  }

  function Tagged(g: GroupKey, records: seq<Record>): (rows: seq<Row>)
    ensures |rows| == |records| && forall i :: 0 <= i < |rows| ==> rows[i] == Row(g, records[i])
  {
    seq(|records|, i requires 0 <= i < |records| => Row(g, records[i]))
  }

  function ReceiptOf(page: Page): Receipt {
    Receipt(page.nextOffset, page.hasMore, page.expected, page.records)
  }

  predicate PageStaged(group: Group, records: seq<Record>) {
    exists o :: o in group.pages && group.pages[o].content == records
  }

  /** The checks made on a new page, and the group it leaves behind. */
  function AdvanceGroup(group: Group, rows: seq<Row>, page: Page, maxPages: nat): Result<Group, Error> {
    if group.pageCount >= maxPages then Failure(PageLimit)
    else
      var expected := if group.expectedTotal.Some? then group.expectedTotal else page.expected;
      var count := group.recordCount + |page.records|;
      if expected.Some? && page.expected.Some? && expected != page.expected then Failure(TotalChanged)
      else if expected.Some? && (count > expected.value || (!page.hasMore && count != expected.value)) then
        Failure(IncompleteExtraction)
      else if page.records != [] && PageStaged(group, page.records) then Failure(PageRepeated)
      else if !AllFresh(rows, page.records) then Failure(RowsRepeated)
      else
        Success(Group(!page.hasMore, page.nextOffset, expected, count, group.pageCount + 1,
                      group.pages[group.nextOffset := ReceiptOf(page)]))
  }

  function SavePage(s: State, w: Worker, g: GroupKey, offset: nat, page: Page, capacity: bool): Result<State, Error> {
    if !LeaseLive(s, w) then Failure(LeaseLost)
    else if !capacity then Failure(CapacityDeferred)
    else
      var mine := OpenRoot(s, w);
      if mine.Failure? then Failure(mine.error)
      else if mine.value.None? || mine.value.value.status != Collecting then Failure(Unavailable)
      else
        var root := mine.value.value;
        if g in root.groups && offset in root.groups[g].pages then
          (if root.groups[g].pages[offset] != ReceiptOf(page) then Failure(Incompatible) else Success(s))
        else if g !in root.groups || root.groups[g].completed || root.groups[g].nextOffset != offset then
          Failure(Incompatible)
        else
          var advanced := AdvanceGroup(root.groups[g], root.rows, page, w.maxPages);
          if advanced.Failure? then Failure(advanced.error)
          else
            Success(s.(roots := s.roots[RootIdOf(w.task, s.tasks[w.task]) := root.(
              groups := root.groups[g := advanced.value],
              rows := root.rows + Tagged(g, page.records))]))
  }

  // --- _result and finish -------------------------------------------------------------------

  function Total(groups: map<GroupKey, Group>, keys: seq<GroupKey>): nat
    requires forall k :: k in keys ==> k in groups
  {
    if keys == [] then 0
    else Total(groups, keys[..|keys| - 1]) + groups[keys[|keys| - 1]].recordCount
  }

  function ExpectedTotal(groups: map<GroupKey, Group>, keys: seq<GroupKey>): nat
    requires forall k :: k in keys ==> k in groups && groups[k].expectedTotal.Some?
  {
    if keys == [] then 0
    else ExpectedTotal(groups, keys[..|keys| - 1]) + groups[keys[|keys| - 1]].expectedTotal.value
  }

  predicate Complete(group: Group) {
    group.completed && (group.expectedTotal.Some? ==> group.expectedTotal.value == group.recordCount)
  }

  function Summarize(root: Root): Result<Extraction, Error> {
    var keys := Keys(root.manifest.groups);
    if !(forall k :: k in keys ==> k in root.groups) || !(forall k :: k in root.groups ==> k in keys) then
      Failure(IncompleteExtraction)
    else if Total(root.groups, keys) == 0 then Failure(NoResults)
    else if exists k :: k in root.groups && !Complete(root.groups[k]) then Failure(IncompleteExtraction)
    else
      var expected := if root.manifest.expectedTotal.Some? then root.manifest.expectedTotal
                      else if forall k :: k in keys ==> root.groups[k].expectedTotal.Some? then
                        Some(ExpectedTotal(root.groups, keys))
                      else None;
      if expected.Some? && expected.value != Total(root.groups, keys) then Failure(IncompleteExtraction)
      else Success(Extraction(Total(root.groups, keys), expected))
  }

  function Finish(s: State, w: Worker, capacity: bool): Result<State, Error> {
    if !LeaseLive(s, w) then Failure(LeaseLost)
    else if !capacity then Failure(CapacityDeferred)
    else
      var mine := OpenRoot(s, w);
      if mine.Failure? then Failure(mine.error)
      else if mine.value.None? then Failure(Unavailable)
      else
        var root := mine.value.value;
        var result := Summarize(root);
        if result.Failure? then Failure(result.error)
        else if |root.rows| != result.value.total then Failure(IncompleteExtraction)
        else Success(s.(roots := s.roots[RootIdOf(w.task, s.tasks[w.task]) := root.(status := Ready)]))
  }

  function Invalidate(s: State, w: Worker): State {
    if !LeaseLive(s, w) then s
    else
      var id := RootIdOf(w.task, s.tasks[w.task]);
      if id in s.roots && s.roots[id].activeTask == w.task && (s.roots[id].status == Collecting || s.roots[id].status == Ready)
      then s.(roots := s.roots[id := s.roots[id].(status := Invalid)])
      else s
  }

  // --- publish ------------------------------------------------------------------------------

  function Keyed(records: seq<Record>): map<string, Record> {
    if records == [] then map[]
    else
      var last := records[|records| - 1];
      Keyed(records[..|records| - 1])[last.recordKey := last]
  }

  function Records(rows: seq<Row>): (records: seq<Record>)
    ensures |records| == |rows| && forall i :: 0 <= i < |rows| ==> records[i] == rows[i].record
  {
    seq(|rows|, i requires 0 <= i < |rows| => rows[i].record)
  }

  function CompletedTask(task: Task): Task {
    task.(status := Completed, token := None)
  }

  /** Replace the published set of one external id; refused when it belongs to another edition. */
  function ReplaceResults(s: State, w: Worker, records: seq<Record>): Result<State, Error>
    requires w.task in s.tasks
  {
    var payload := s.tasks[w.task].payload;
    var event := ResolveEventId(s.aliases, payload.eventId);
    if payload.externalId in s.resultSets && s.resultSets[payload.externalId].eventId != event then
      Failure(AssociationChanged)
    else
      Success(s.(
        resultSets := s.resultSets[payload.externalId := ResultSet(event, |records|, Keyed(records))],
        tasks := s.tasks[w.task := CompletedTask(s.tasks[w.task])]))
  }

  function Publish(s: State, w: Worker, problem: Option<string>, capacity: bool): Result<State, Error> {
    if !LeaseLive(s, w) then Failure(LeaseLost)
    else if !capacity then Failure(CapacityDeferred)
    else
      var mine := OpenRoot(s, w);
      if mine.Failure? then Failure(mine.error)
      else if mine.value.None? || mine.value.value.status != Ready then Failure(Unavailable)
      else
        var root := mine.value.value;
        var result := Summarize(root);
        if result.Failure? then Failure(result.error)
        else if |root.rows| != result.value.total then Failure(IncompleteExtraction)
        else if !Associated(s, s.tasks[w.task].payload) then Failure(AssociationChanged)
        else if problem.Some? then Failure(EditionProblem(problem.value))
        else
          var replaced := ReplaceResults(s, w, Records(root.rows));
          if replaced.Failure? then replaced
          else
            Success(replaced.value.(roots :=
              s.roots[RootIdOf(w.task, s.tasks[w.task]) := root.(status := Published, rows := [])]))
  }

  /** The path without a checkpoint: one complete extraction held in memory. */
  function PublishDirect(s: State, w: Worker, records: seq<Record>, warned: bool, expected: Option<nat>, problem: Option<string>,
                         capacity: bool): Result<State, Error> {
    if warned || records == [] || (expected.Some? && expected.value != |records|) then Failure(IncompleteExtraction)
    else if !LeaseLive(s, w) then Failure(LeaseLost)
    else if !capacity then Failure(CapacityDeferred)
    else if !Associated(s, s.tasks[w.task].payload) then Failure(AssociationChanged)
    else if problem.Some? then Failure(EditionProblem(problem.value))
    else
      var replaced := ReplaceResults(s, w, records);
      if replaced.Failure? then replaced
      else if RepeatedKeys(records) then Failure(RowsRepeated)
      else replaced
  }

  /** Result rows are unique per set and record key. */
  predicate RepeatedKeys(records: seq<Record>) {
    exists i, j :: 0 <= i < j < |records| && records[i].recordKey == records[j].recordKey
  }

  // --- Retention and hand-over --------------------------------------------------------------

  predicate Removable(s: State, id: TaskId) {
    && id in s.roots
    && s.roots[id].expiresAt <= s.now
    && (s.roots[id].status == Collecting || s.roots[id].status == Ready || s.roots[id].status == Invalid)
    && !(s.roots[id].activeTask in s.tasks
         && s.tasks[s.roots[id].activeTask].status == Running
         && s.tasks[s.roots[id].activeTask].leaseUntil > s.now)
  }

  function Cleanup(s: State, chosen: set<TaskId>): State {
    s.(roots := map id | id in s.roots ::
      if id in chosen && Removable(s, id) then s.roots[id].(status := Expired, rows := []) else s.roots[id])
  }

  /** An administrator resumes a failed or partial task under a new one. */
  function HandOver(s: State, ended: TaskId, successor: TaskId, problem: Option<string>): Result<State, Error> {
    if ended !in s.tasks || successor in s.tasks || successor in s.roots
       || (s.tasks[ended].status != Failed && s.tasks[ended].status != Partial) then Failure(TaskConflict)
    else
      var payload := s.tasks[ended].payload;
      var id := RootIdOf(ended, s.tasks[ended]);
      if id !in s.roots then Failure(Unavailable)
      else
        var root := s.roots[id];
        if !Matches(s, root, payload) then Failure(Incompatible)
        else if root.expiresAt <= s.now || root.status == Expired then Failure(CheckpointExpired)
        else if root.status != Collecting && root.status != Ready then Failure(Unavailable)
        else if root.activeTask in s.tasks
                && (s.tasks[root.activeTask].status == Queued || s.tasks[root.activeTask].status == Running) then Failure(InUse)
        else if problem.Some? then Failure(EditionProblem(problem.value))
        else if !Associated(s, payload) then Failure(AssociationChanged)
        else
          Success(s.(
            tasks := s.tasks[successor := Task(Queued, None, 0, payload.(checkpointOf := Some(id)))],
            roots := s.roots[id := root.(activeTask := successor)]))
  }

  // --- The queue and edition merges ---------------------------------------------------------

  function Enqueue(s: State, id: TaskId, payload: TaskPayload): State {
    if id in s.tasks || id in s.roots then s
    else s.(tasks := s.tasks[id := Task(Queued, None, 0, payload.(checkpointOf := None))])
  }

  function Claim(s: State, id: TaskId, token: Token, until: int): State {
    if id in s.tasks && s.tasks[id].status == Queued && token !in s.issued then
      s.(tasks := s.tasks[id := s.tasks[id].(status := Running, token := Some(token), leaseUntil := until)],
         issued := s.issued + {token})
    else s
  }

  function Heartbeat(s: State, w: Worker, until: int): State {
    if LeaseLive(s, w) then s.(tasks := s.tasks[w.task := s.tasks[w.task].(leaseUntil := until)]) else s
  }

  function Recover(s: State, id: TaskId, exhausted: bool): State {
    if id in s.tasks && s.tasks[id].status == Running && s.tasks[id].leaseUntil < s.now then
      s.(tasks := s.tasks[id := s.tasks[id].(status := if exhausted then Failed else Queued, token := None)])
    else s
  }

  function FinishTask(s: State, w: Worker, outcome: TaskStatus): State {
    if LeaseLive(s, w) && outcome != Running && outcome != Cancelled then
      s.(tasks := s.tasks[w.task := s.tasks[w.task].(status := outcome, token := None)])
    else s
  }

  /** Merging two editions moves everything that names the source edition to the target. */
  function MergeEditions(s: State, source: string, target: string): State {
    if source in s.aliases || target in s.aliases || source == target then s
    else
      var move := (e: string) => if e == source then target else e;
      s.(roots := map id | id in s.roots :: s.roots[id].(eventId := move(s.roots[id].eventId)),
         references := map x | x in s.references :: s.references[x].(eventId := move(s.references[x].eventId)),
         resultSets := map x | x in s.resultSets :: s.resultSets[x].(eventId := move(s.resultSets[x].eventId)),
         aliases := (map a | a in s.aliases :: move(s.aliases[a]))[source := target])
  }

  // --- Runs ---------------------------------------------------------------------------------

  /** Everything that can happen. A crash is the absence of the steps that would have followed;
      `problem` and `capacity` are whatever the edition review and the capacity control answer. */
  datatype Action =
    | DoEnqueue(id: TaskId, payload: TaskPayload)
    | DoClaim(id: TaskId, token: Token, until: int)
    | DoHeartbeat(w: Worker, until: int)
    | DoRecover(id: TaskId, exhausted: bool)
    | DoFinishTask(w: Worker, outcome: TaskStatus)
    | DoStart(w: Worker, manifest: Manifest, problem: Option<string>, capacity: bool)
    | DoSavePage(w: Worker, group: GroupKey, offset: nat, page: Page, capacity: bool)
    | DoFinish(w: Worker, capacity: bool)
    | DoInvalidate(w: Worker)
    | DoPublish(w: Worker, problem: Option<string>, capacity: bool)
    | DoPublishDirect(w: Worker, records: seq<Record>, warned: bool, expected: Option<nat>, problem: Option<string>, capacity: bool)
    | DoCleanup(chosen: set<TaskId>)
    | DoHandOver(ended: TaskId, successor: TaskId, problem: Option<string>)
    | DoMerge(source: string, target: string)
    | DoTick(seconds: nat)

  function Committed(s: State, r: Result<State, Error>): State {
    if r.Success? then r.value else s
  }

  function Step(s: State, a: Action): State {
    match a
    case DoEnqueue(id, payload) => Enqueue(s, id, payload)
    case DoClaim(id, token, until) => Claim(s, id, token, until)
    case DoHeartbeat(w, until) => Heartbeat(s, w, until)
    case DoRecover(id, exhausted) => Recover(s, id, exhausted)
    case DoFinishTask(w, outcome) => FinishTask(s, w, outcome)
    case DoStart(w, manifest, problem, capacity) => Committed(s, Start(s, w, manifest, problem, capacity))
    case DoSavePage(w, g, offset, page, capacity) => Committed(s, SavePage(s, w, g, offset, page, capacity))
    case DoFinish(w, capacity) => Committed(s, Finish(s, w, capacity))
    case DoInvalidate(w) => Invalidate(s, w)
    case DoPublish(w, problem, capacity) => Committed(s, Publish(s, w, problem, capacity))
    case DoPublishDirect(w, records, warned, expected, problem, capacity) =>
      Committed(s, PublishDirect(s, w, records, warned, expected, problem, capacity))
    case DoCleanup(chosen) => Cleanup(s, chosen)
    case DoHandOver(ended, successor, problem) => Committed(s, HandOver(s, ended, successor, problem))
    case DoMerge(source, target) => MergeEditions(s, source, target)
    case DoTick(seconds) => s.(now := s.now + seconds)
  }

  function Run(s: State, actions: seq<Action>): State {
    if actions == [] then s else Step(Run(s, actions[..|actions| - 1]), actions[|actions| - 1])
  }

  function Empty(now: int, references: map<string, Reference>): State {
    State(now, map[], {}, map[], references, map[], map[])
  }
}
