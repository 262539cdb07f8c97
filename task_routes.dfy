/** The task routes of the API server (backend/src/routes/tasks.ts) over an in-memory
    version of the three tables they touch: tasks, tags, and the task-to-tag links.  The
    tag table is indexed by the tag's unique name, the key `connectOrCreate` looks tags up
    by, and a task keeps its links as the names of its tags in the order the request gave
    them (tags are never renamed or removed by these routes).  Ids come from one counter
    and timestamps from another that every created task advances.  Each handler returns
    the HTTP status and JSON body it would send. */
module TaskRoutes {
  import opened Wrappers
  import opened JsStrings
  import opened JsArrays

  datatype TagRecord = TagRecord(id: nat, name: string, color: Option<string>, createdAt: nat)

  datatype TaskRecord = TaskRecord(
    id: nat,
    title: string,
    description: Option<string>,
    status: string,
    createdAt: nat,
    updatedAt: nat,
    tagNames: seq<string>)

  /** A task as the routes send it: its links replaced by the linked tag records. */
  datatype TaskWithTags = TaskWithTags(
    id: nat,
    title: string,
    description: Option<string>,
    status: string,
    createdAt: nat,
    updatedAt: nat,
    tags: seq<TagRecord>)

  /** One element of the request's `tags` array. */
  datatype TagInput = TagInput(name: string, color: Option<string>)

  /** The POST body; a field the client left out is `None`. */
  datatype CreateRequest = CreateRequest(
    title: Option<string>,
    description: Option<string>,
    status: Option<string>,
    tags: Option<seq<TagInput>>)

  datatype Body =
    | TaskList(tasks: seq<TaskWithTags>)
    | Created(task: TaskWithTags)
    | Message(message: string)
    | Error(error: string)

  datatype Reply = Reply(status: nat, body: Body)

  // ---------------------------------------------------------------------------
  // Normalisation of the POST body
  // ---------------------------------------------------------------------------

  /** `!title?.trim()`: the title is missing or blank. */
  predicate TitleMissing(title: Option<string>) {
    title.None? || IsBlank(title.value)
  }

  /** `description?.trim() || null`: the trimmed description, or null when it is missing
      or blank. */
  function StoredDescription(d: Option<string>): (r: Option<string>)
    ensures r.None? <==> d.None? || IsBlank(d.value)
    ensures r.Some? ==> r.value == Trim(d.value) && r.value != "" && Trim(r.value) == r.value
  {
    if d.None? || IsBlank(d.value) then None
    else
      TrimIdempotent(d.value);
      Some(Trim(d.value))
  }

  /** `status || "pending"`: any non-empty string is kept as it is; there is no check
      against the three statuses the client offers. */
  function StoredStatus(s: Option<string>): (r: string)
    ensures r != ""
    ensures s.Some? && s.value != "" ==> r == s.value
    ensures s.None? || s.value == "" ==> r == "pending"
  {
    if s.Some? && s.value != "" then s.value else "pending"
  }

  /** `tags?.length ? … : undefined`: a missing and an empty array both link nothing. */
  function IncomingTags(req: CreateRequest): seq<TagInput> {
    if req.tags.Some? then req.tags.value else []
  }

  /** No two incoming tags share a name. */
  predicate DistinctNames(inc: seq<TagInput>) {
    forall k, l :: 0 <= k < l < |inc| ==> inc[k].name != inc[l].name
  }

  // ---------------------------------------------------------------------------
  // The tag table and `connectOrCreate`
  // ---------------------------------------------------------------------------

  /** The tag table, indexed by name, and the next free id. */
  datatype TagTable = TagTable(byName: map<string, TagRecord>, nextId: nat)

  /** Each tag is filed under its own name and has an id already handed out. */
  predicate TagTableValid(t: TagTable) {
    forall n :: n in t.byName ==> t.byName[n].name == n && t.byName[n].id < t.nextId
  }

  /** `connectOrCreate` for one incoming tag: an existing tag with exactly that name
      (the comparison is case sensitive) is linked as it is; otherwise a new tag with the
      incoming name and colour is created, stamped with the request's time. */
  function ConnectOrCreate(t: TagTable, tag: TagInput, now: nat): (r: TagTable)
    ensures tag.name in r.byName
    ensures t.nextId <= r.nextId
    ensures tag.name in t.byName ==> r == t
    ensures tag.name !in t.byName ==>
      && r.byName == t.byName[tag.name := TagRecord(t.nextId, tag.name, tag.color, now)]
      && r.nextId == t.nextId + 1
  {
    if tag.name in t.byName then t
    else TagTable(t.byName[tag.name := TagRecord(t.nextId, tag.name, tag.color, now)], t.nextId + 1)
  }

  /** `tags.map((tag) => ({ tag: { connectOrCreate: … } }))`, applied in order. */
  function ResolveAll(t: TagTable, inc: seq<TagInput>, now: nat): TagTable
    decreases |inc|
  {
    if inc == [] then t
    else ConnectOrCreate(ResolveAll(t, inc[..|inc| - 1], now), inc[|inc| - 1], now)
  }

  /** Existing tags are never changed or removed, and the id counter never goes back. */
  lemma {:induction false} ResolveKeepsExisting(t: TagTable, inc: seq<TagInput>, now: nat)
    ensures t.nextId <= ResolveAll(t, inc, now).nextId
    ensures forall n :: n in t.byName ==> n in ResolveAll(t, inc, now).byName && ResolveAll(t, inc, now).byName[n] == t.byName[n]
    decreases |inc|
  {
    if inc != [] {
      ResolveKeepsExisting(t, inc[..|inc| - 1], now);
    }
  }

  /** The table stays well formed. */
  lemma {:induction false} ResolveKeepsValid(t: TagTable, inc: seq<TagInput>, now: nat)
    requires TagTableValid(t)
    ensures TagTableValid(ResolveAll(t, inc, now))
    decreases |inc|
  {
    if inc != [] {
      ResolveKeepsValid(t, inc[..|inc| - 1], now);
    }
  }

  /** Every incoming name ends up in the table. */
  lemma {:induction false} ResolveCoversIncoming(t: TagTable, inc: seq<TagInput>, now: nat)
    ensures forall k :: 0 <= k < |inc| ==> inc[k].name in ResolveAll(t, inc, now).byName
    decreases |inc|
  {
    if inc != [] {
      var init := inc[..|inc| - 1];
      ResolveCoversIncoming(t, init, now);
      ResolveKeepsExisting(ResolveAll(t, init, now), [inc[|inc| - 1]], now);
      assert [inc[|inc| - 1]][..0] == [];
      forall k | 0 <= k < |inc| ensures inc[k].name in ResolveAll(t, inc, now).byName {
        if k < |init| {
          assert inc[k] == init[k];
        }
      }
    }
  }

  /** Every tag resolution adds carries the name of an incoming tag. */
  lemma {:induction false} ResolveAddsOnlyIncoming(t: TagTable, inc: seq<TagInput>, now: nat)
    ensures forall n :: n in ResolveAll(t, inc, now).byName ==>
      n in t.byName || exists k :: 0 <= k < |inc| && inc[k].name == n
    decreases |inc|
  {
    if inc != [] {
      var init := inc[..|inc| - 1];
      ResolveAddsOnlyIncoming(t, init, now);
      forall n | n in ResolveAll(t, inc, now).byName && n !in t.byName
        ensures exists k :: 0 <= k < |inc| && inc[k].name == n
      {
        if n in ResolveAll(t, init, now).byName {
          var k :| 0 <= k < |init| && init[k].name == n;
          assert inc[k] == init[k];
        } else {
          assert inc[|inc| - 1].name == n;
        }
      }
    }
  }

  /** When the incoming names are distinct, each name not yet in the table gets a new tag
      with the incoming colour, stamped with the request's time, and an id not handed
      out before. */
  lemma {:induction false} ResolveCreatesMissing(t: TagTable, inc: seq<TagInput>, now: nat)
    requires DistinctNames(inc)
    ensures forall k :: 0 <= k < |inc| && inc[k].name !in t.byName ==>
      var r := ResolveAll(t, inc, now).byName;
      && inc[k].name in r
      && r[inc[k].name].color == inc[k].color
      && r[inc[k].name].createdAt == now
      && r[inc[k].name].id >= t.nextId
    decreases |inc|
  {
    if inc != [] {
      var init := inc[..|inc| - 1];
      var prev := ResolveAll(t, init, now);
      var last := inc[|inc| - 1];
      assert DistinctNames(init) by {
        assert forall k :: 0 <= k < |init| ==> init[k] == inc[k];
      }
      ResolveCreatesMissing(t, init, now);
      ResolveKeepsExisting(t, init, now);
      if last.name !in t.byName {
        ResolveAddsOnlyIncoming(t, init, now);
        assert last.name !in prev.byName by {
          forall k | 0 <= k < |init| ensures init[k].name != last.name {
            assert init[k] == inc[k];
          }
        }
      }
      forall k | 0 <= k < |inc| && inc[k].name !in t.byName
        ensures var r := ResolveAll(t, inc, now).byName;
          inc[k].name in r && r[inc[k].name].color == inc[k].color && r[inc[k].name].createdAt == now
          && r[inc[k].name].id >= t.nextId
      {
        if k < |init| {
          assert inc[k] == init[k];
          assert inc[k].name != last.name;
        }
      }
    }
  }

  /** Everything the POST handler relies on about resolving a request's distinct tags. */
  lemma ResolveDistinct(t: TagTable, inc: seq<TagInput>, now: nat)
    requires TagTableValid(t) && DistinctNames(inc)
    ensures var r := ResolveAll(t, inc, now);
      && TagTableValid(r)
      && t.nextId <= r.nextId
      && (forall n :: n in t.byName ==> n in r.byName && r.byName[n] == t.byName[n])
      && (forall k :: 0 <= k < |inc| ==> inc[k].name in r.byName)
      && (forall k :: 0 <= k < |inc| && inc[k].name !in t.byName ==> r.byName[inc[k].name].color == inc[k].color)
  {
    ResolveKeepsExisting(t, inc, now);
    ResolveKeepsValid(t, inc, now);
    ResolveCoversIncoming(t, inc, now);
    ResolveCreatesMissing(t, inc, now);
  }

  /** The names of the incoming tags: the links the new task gets. */
  function Names(inc: seq<TagInput>): (ns: seq<string>)
    ensures |ns| == |inc| && forall k :: 0 <= k < |inc| ==> ns[k] == inc[k].name
  {
    seq(|inc|, k requires 0 <= k < |inc| => inc[k].name)
  }

  // ---------------------------------------------------------------------------
  // Tasks
  // ---------------------------------------------------------------------------

  /** Every link of every task names a tag of the table. */
  predicate LinksExist(tasks: seq<TaskRecord>, byName: map<string, TagRecord>) {
    forall i, k :: 0 <= i < |tasks| && 0 <= k < |tasks[i].tagNames| ==> tasks[i].tagNames[k] in byName
  }

  /** A task with its links replaced by the linked tag records, in link order. */
  function Flatten(byName: map<string, TagRecord>, t: TaskRecord): (w: TaskWithTags)
    requires forall k :: 0 <= k < |t.tagNames| ==> t.tagNames[k] in byName
    ensures w.id == t.id && w.title == t.title && w.description == t.description && w.status == t.status
    ensures w.createdAt == t.createdAt && w.updatedAt == t.updatedAt
    ensures |w.tags| == |t.tagNames| && forall k :: 0 <= k < |t.tagNames| ==> w.tags[k] == byName[t.tagNames[k]]
  {
    TaskWithTags(t.id, t.title, t.description, t.status, t.createdAt, t.updatedAt,
      seq(|t.tagNames| , k requires 0 <= k < |t.tagNames| => byName[t.tagNames[k]]))
  }

  /** Tasks in creation order: strictly increasing timestamps below the clock, and
      distinct ids below the id counter. */
  predicate Chronological(tasks: seq<TaskRecord>, clock: nat, nextId: nat) {
    && (forall i :: 0 <= i < |tasks| ==> tasks[i].id < nextId && tasks[i].createdAt < clock)
    && (forall i, j :: 0 <= i < j < |tasks| ==> tasks[i].createdAt < tasks[j].createdAt)
    && (forall i, j :: 0 <= i < j < |tasks| ==> tasks[i].id != tasks[j].id)
  }

  /** The GET body: every task, newest first, each with its tag records. */
  function NewestFirst(byName: map<string, TagRecord>, tasks: seq<TaskRecord>): (out: seq<TaskWithTags>)
    requires LinksExist(tasks, byName)
    ensures |out| == |tasks|
    ensures forall i :: 0 <= i < |tasks| ==> out[i] == Flatten(byName, tasks[|tasks| - 1 - i])
  {
    seq(|tasks|, i requires 0 <= i < |tasks| => Flatten(byName, tasks[|tasks| - 1 - i]))
  }

  /** `orderBy: { createdAt: "desc" }`: the list is sorted by strictly decreasing
      creation time. */
  lemma NewestFirstIsSorted(byName: map<string, TagRecord>, tasks: seq<TaskRecord>, clock: nat, nextId: nat)
    requires LinksExist(tasks, byName) && Chronological(tasks, clock, nextId)
    ensures var out := NewestFirst(byName, tasks);
      forall i, j :: 0 <= i < j < |out| ==> out[i].createdAt > out[j].createdAt
  {
    var out := NewestFirst(byName, tasks);
    var n := |tasks|;
    forall i, j | 0 <= i < j < n ensures out[i].createdAt > out[j].createdAt {
      assert tasks[n - 1 - j].createdAt < tasks[n - 1 - i].createdAt;
    }
  }

  /** Appending a task stamped with both counters keeps the order once they move on. */
  lemma AppendChronological(tasks: seq<TaskRecord>, clock: nat, nextId: nat, bigger: nat, t: TaskRecord)
    requires Chronological(tasks, clock, nextId) && t.id == nextId && t.createdAt == clock && nextId < bigger
    ensures Chronological(tasks + [t], clock + 1, bigger)
  {
  }

  /** A table that keeps every old tag keeps old links valid, and a task linking into the
      table may be appended. */
  lemma AppendLinksExist(tasks: seq<TaskRecord>, small: map<string, TagRecord>, big: map<string, TagRecord>, t: TaskRecord)
    requires LinksExist(tasks, small) && small.Keys <= big.Keys
    requires forall k :: 0 <= k < |t.tagNames| ==> t.tagNames[k] in big
    ensures LinksExist(tasks + [t], big)
  {
    var w := tasks + [t];
    forall i, k | 0 <= i < |w| && 0 <= k < |w[i].tagNames| ensures w[i].tagNames[k] in big {
      if i < |tasks| {
        assert w[i] == tasks[i];
      }
    }
  }

  /** The position of the task with this id. */
  function FindTask(tasks: seq<TaskRecord>, id: nat): (r: Option<nat>)
    ensures r.Some? ==> r.value < |tasks| && tasks[r.value].id == id
    ensures r.None? <==> forall i :: 0 <= i < |tasks| ==> tasks[i].id != id
  {
    if tasks == [] then None
    else if tasks[|tasks| - 1].id == id then Some(|tasks| - 1)
    else FindTask(tasks[..|tasks| - 1], id)
  }

  /** Removing a task keeps the creation order. */
  lemma RemoveAtChronological(tasks: seq<TaskRecord>, clock: nat, nextId: nat, i: nat)
    requires i < |tasks| && Chronological(tasks, clock, nextId)
    ensures Chronological(RemoveAt(tasks, i), clock, nextId)
  {
    var r := RemoveAt(tasks, i);
    RemoveAtPositions(tasks, i);
    forall a, b | 0 <= a < b < |r|
      ensures r[a].createdAt < r[b].createdAt && r[a].id != r[b].id
    {
      var a' := if a < i then a else a + 1;
      var b' := if b < i then b else b + 1;
      assert r[a] == tasks[a'] && r[b] == tasks[b'];
    }
    forall a | 0 <= a < |r| ensures r[a].id < nextId && r[a].createdAt < clock {
      assert r[a] == tasks[if a < i then a else a + 1];
    }
  }

  /** Removing a task keeps every other task's links. */
  lemma RemoveAtLinksExist(tasks: seq<TaskRecord>, byName: map<string, TagRecord>, i: nat)
    requires i < |tasks| && LinksExist(tasks, byName)
    ensures LinksExist(RemoveAt(tasks, i), byName)
  {
    var r := RemoveAt(tasks, i);
    RemoveAtPositions(tasks, i);
    forall a, k | 0 <= a < |r| && 0 <= k < |r[a].tagNames| ensures r[a].tagNames[k] in byName {
      assert r[a] == tasks[if a < i then a else a + 1];
    }
  }

  /** Removing the only task with an id removes that id and keeps every other task. */
  lemma RemoveAtKeepsOthers(tasks: seq<TaskRecord>, clock: nat, nextId: nat, i: nat)
    requires i < |tasks| && Chronological(tasks, clock, nextId)
    ensures forall j :: 0 <= j < |RemoveAt(tasks, i)| ==> RemoveAt(tasks, i)[j].id != tasks[i].id
    ensures forall t :: t in tasks && t.id != tasks[i].id ==> t in RemoveAt(tasks, i)
  {
    var r := RemoveAt(tasks, i);
    RemoveAtPositions(tasks, i);
    forall j | 0 <= j < |r| ensures r[j].id != tasks[i].id {
      if j < i {
        assert r[j] == tasks[j];
      } else {
        assert r[j] == tasks[j + 1];
      }
    }
    forall t | t in tasks && t.id != tasks[i].id ensures t in r {
      var j :| 0 <= j < |tasks| && tasks[j] == t;
      if j < i {
        assert r[j] == t;
      } else {
        assert r[j - 1] == t;
      }
    }
  }

  // ---------------------------------------------------------------------------
  // The store
  // ---------------------------------------------------------------------------

  class TaskStore {
    var tasks: seq<TaskRecord>
    var tags: TagTable
    var clock: nat

    /** The store's invariant: a well-formed tag table, tasks in creation order, and links
        to existing tags only. */
    predicate Valid()
      reads this
    {
      TagTableValid(tags) && Chronological(tasks, clock, tags.nextId) && LinksExist(tasks, tags.byName)
    }

    constructor ()
      ensures Valid() && tasks == [] && tags == TagTable(map[], 0) && clock == 0
    {
      tasks := [];
      tags := TagTable(map[], 0);
      clock := 0;
    }

    /** GET `/`: every task, newest first, each with its tag records; there is no
        per-user filter. */
    method List() returns (r: Reply)
      requires Valid()
      ensures r == Reply(200, TaskList(NewestFirst(tags.byName, tasks)))
      ensures forall i, j :: 0 <= i < j < |r.body.tasks| ==> r.body.tasks[i].createdAt > r.body.tasks[j].createdAt
    {
      NewestFirstIsSorted(tags.byName, tasks, clock, tags.nextId);
      r := Reply(200, TaskList(NewestFirst(tags.byName, tasks)));
    }

    /** POST `/`: a missing or blank title is refused with 400.  Otherwise the task is
        stored with a trimmed title, a trimmed-or-null description and a defaulted status,
        its tags resolved by exact name, and the stored task is sent back with 201.  Two
        incoming tags with the same name would link one tag twice, which the link table's
        key refuses: the request fails with 500 and nothing is stored. */
    method Create(req: CreateRequest) returns (r: Reply)
      requires Valid()
      modifies this
      ensures Valid()
      ensures r.status in {201, 400, 500}
      ensures r.status == 400 <==> TitleMissing(req.title)
      ensures r.status == 400 ==> r.body == Error("Title is required")
      ensures r.status == 500 <==> !TitleMissing(req.title) && !DistinctNames(IncomingTags(req))
      ensures r.status == 500 ==> r.body == Error("Failed to create task")
      ensures r.status != 201 ==> tasks == old(tasks) && tags == old(tags) && clock == old(clock)
      ensures r.status == 201 ==>
        && clock == old(clock) + 1
        && |tasks| == |old(tasks)| + 1 && tasks[..|old(tasks)|] == old(tasks)
        && (forall n :: n in old(tags.byName) ==> n in tags.byName && tags.byName[n] == old(tags.byName)[n])
        && r.body.Created?
        && r.body.task == Flatten(tags.byName, tasks[|old(tasks)|])
        && r.body.task.createdAt == old(clock)
        && (forall i :: 0 <= i < |old(tasks)| ==> old(tasks)[i].id != r.body.task.id)
        && r.body.task.title == Trim(req.title.value)
        && r.body.task.description == StoredDescription(req.description)
        && r.body.task.status == StoredStatus(req.status)
        && |r.body.task.tags| == |IncomingTags(req)|
        && (forall k :: 0 <= k < |IncomingTags(req)| ==> r.body.task.tags[k].name == IncomingTags(req)[k].name)
        && (forall k :: 0 <= k < |IncomingTags(req)| && IncomingTags(req)[k].name in old(tags.byName) ==>
              r.body.task.tags[k] == old(tags.byName)[IncomingTags(req)[k].name])
        && (forall k :: 0 <= k < |IncomingTags(req)| && IncomingTags(req)[k].name !in old(tags.byName) ==>
              && r.body.task.tags[k].color == IncomingTags(req)[k].color
              && r.body.task.tags[k].createdAt == old(clock)
              && r.body.task.tags[k].id >= old(tags.nextId))
        && (forall n :: n in tags.byName ==>
              n in old(tags.byName) || exists k :: 0 <= k < |IncomingTags(req)| && IncomingTags(req)[k].name == n)
    {
      if TitleMissing(req.title) {
        return Reply(400, Error("Title is required"));
      }
      var inc := IncomingTags(req);
      if !DistinctNames(inc) {
        return Reply(500, Error("Failed to create task"));
      }
      var now := clock;
      var id := tags.nextId;
      var before := TagTable(tags.byName, id + 1);
      var resolved := ResolveAll(before, inc, now);
      ResolveDistinct(before, inc, now);
      ResolveCreatesMissing(before, inc, now);
      ResolveAddsOnlyIncoming(before, inc, now);
      var task := TaskRecord(id, Trim(req.title.value), StoredDescription(req.description),
        StoredStatus(req.status), now, now, Names(inc));
      AppendChronological(tasks, clock, id, resolved.nextId, task);
      AppendLinksExist(tasks, tags.byName, resolved.byName, task);
      tasks := tasks + [task];
      tags := resolved;
      clock := clock + 1;
      r := Reply(201, Created(Flatten(tags.byName, task)));
    }

    /** DELETE `/:id`: a present id removes exactly that task and answers 200; an absent
        id makes the delete throw, answered with 500, and nothing changes.  Tags are
        never removed. */
    method Delete(id: nat) returns (r: Reply)
      requires Valid()
      modifies this
      ensures Valid()
      ensures tags == old(tags) && clock == old(clock)
      ensures r.status in {200, 500}
      ensures r.status == 500 <==> FindTask(old(tasks), id).None?
      ensures r.status == 500 ==> r.body == Error("Failed to delete task") && tasks == old(tasks)
      ensures r.status == 200 ==>
        && r.body == Message("Task deleted successfully")
        && tasks == RemoveAt(old(tasks), FindTask(old(tasks), id).value)
      ensures forall i :: 0 <= i < |tasks| ==> tasks[i].id != id
      ensures forall t :: t in old(tasks) && t.id != id ==> t in tasks
    {
      var found := FindTask(tasks, id);
      if found.None? {
        return Reply(500, Error("Failed to delete task"));
      }
      var i := found.value;
      RemoveAtChronological(tasks, clock, tags.nextId, i);
      RemoveAtLinksExist(tasks, tags.byName, i);
      RemoveAtKeepsOthers(tasks, clock, tags.nextId, i);
      tasks := RemoveAt(tasks, i);
      r := Reply(200, Message("Task deleted successfully"));
    }
  }

  /** A task that was just created is the first one the list returns. */
  method CreatedListedFirst(store: TaskStore, req: CreateRequest) returns (created: Reply, listed: Reply)
    requires store.Valid()
    modifies store
    ensures created.status == 201 ==>
      created.body.Created? && listed.body.TaskList? && |listed.body.tasks| > 0 && listed.body.tasks[0] == created.body.task
  {
    created := store.Create(req);
    listed := store.List();
  }
}
