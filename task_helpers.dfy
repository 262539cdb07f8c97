/** The pure parts of the client's task helpers (frontend/src/utils/taskHelpers.ts):
    the post-processing of the fetched list, the request bodies of create and update,
    and the search filter.  The HTTP calls themselves are not modelled. */
module TaskHelpers {
  import opened Wrappers
  import opened JsStrings
  import opened JsArrays
  import opened FrontendTypes
  import ColorMap

  // ---------------------------------------------------------------------------
  // fetchTasks: `data.slice().reverse()`
  // ---------------------------------------------------------------------------

  /** A reversed copy of the server's array. */
  function Reverse<T>(s: seq<T>): (r: seq<T>)
    ensures |r| == |s|
    ensures forall i :: 0 <= i < |s| ==> r[i] == s[|s| - 1 - i]
  {
    if s == [] then []
    else
      var rest := Reverse(s[1..]);
      assert forall i :: 0 <= i < |rest| ==> (rest + [s[0]])[i] == rest[i];
      rest + [s[0]]
  }

  /** The list `fetchTasks` resolves to: the same tasks, in the opposite order, each
      occurring as often as in the server's array.  Reversing twice gives back the
      server's order. */
  lemma FetchedTasksReversed(server: seq<Task>)
    ensures |Reverse(server)| == |server|
    ensures multiset(Reverse(server)) == multiset(server)
    ensures Reverse(Reverse(server)) == server
  {
    ReverseMultiset(server);
  }

  lemma {:induction false} ReverseMultiset<T>(s: seq<T>)
    ensures multiset(Reverse(s)) == multiset(s)
  {
    if s != [] {
      ReverseMultiset(s[1..]);
      assert s == [s[0]] + s[1..];
    }
  }

  // ---------------------------------------------------------------------------
  // createTask / updateTask request bodies
  // ---------------------------------------------------------------------------

  /** The argument of `createTask` and `updateTask`: `Partial<Task> & { tags: Tag[] }`.
      A `null` and an `undefined` description are both `None`. */
  datatype TaskData = TaskData(
    id: Option<string>,
    title: Option<string>,
    description: Option<string>,
    status: Option<string>,
    tags: seq<Tag>)

  /** One tag of a request body. */
  datatype TagBody = TagBody(name: string, color: string)

  /** The JSON body of a create or update request; a `None` description is sent as `null`. */
  datatype TaskBody = TaskBody(
    title: Option<string>,
    description: Option<string>,
    status: Option<string>,
    tags: seq<TagBody>)

  /** `tag.color ?? "#3b82f6"` */
  function ColorOrDefault(tag: Tag): string {
    if tag.color.Some? then tag.color.value else ColorMap.DEFAULT_COLOR
  }

  /** The body both `createTask` and `updateTask` send: `description || null` and each
      tag reduced to its name and a colour that is never null. */
  function RequestBody(data: TaskData): (b: TaskBody)
    ensures b.title == data.title && b.status == data.status
    ensures b.description.None? <==> data.description.None? || data.description.value == ""
    ensures b.description.Some? ==> b.description == data.description
    ensures |b.tags| == |data.tags|
    ensures forall i :: 0 <= i < |data.tags| ==>
      b.tags[i].name == data.tags[i].name &&
      (data.tags[i].color.Some? ==> b.tags[i].color == data.tags[i].color.value) &&
      (data.tags[i].color.None? ==> b.tags[i].color == "#3b82f6")
  {
    TaskBody(
      data.title,
      if data.description.Some? && data.description.value != "" then data.description else None,
      data.status,
      seq(|data.tags|, i requires 0 <= i < |data.tags| => TagBody(data.tags[i].name, ColorOrDefault(data.tags[i]))))
  }

  /** A body built from palette-coloured or uncoloured tags only carries colours that
      have badge classes of their own. */
  lemma BodyColorsAreMapped(data: TaskData)
    requires forall i :: 0 <= i < |data.tags| ==>
      data.tags[i].color.None? || data.tags[i].color.value in ColorMap.TAG_COLORS
    ensures forall i :: 0 <= i < |RequestBody(data).tags| ==>
      RequestBody(data).tags[i].color in ColorMap.COLOR_MAP
  {
    ColorMap.PaletteIsMapped();
  }

  // ---------------------------------------------------------------------------
  // filterTasks
  // ---------------------------------------------------------------------------

  /** `searchQuery.trim().toLowerCase()` */
  function NormalizeQuery(searchQuery: string): string {
    Lower(Trim(searchQuery))
  }

  /** The status test: `statusFilter === "all" || t.status === statusFilter`. */
  predicate StatusPasses(t: Task, statusFilter: string) {
    statusFilter == "all" || t.status == statusFilter
  }

  /** The texts a task is searched in: its title, its description when it has one, and
      the names of its tags. */
  predicate SomeTextContains(t: Task, q: string) {
    || Contains(Lower(t.title), q)
    || (t.description.Some? && Contains(Lower(t.description.value), q))
    || (t.tags.Some? && exists k :: 0 <= k < |t.tags.value| && Contains(Lower(t.tags.value[k].name), q))
  }

  /** The filter's callback, for a query that is already normalised. */
  predicate Keeps(t: Task, q: string, statusFilter: string) {
    StatusPasses(t, statusFilter) && (q == "" || SomeTextContains(t, q))
  }

  /** `filterTasks(tasks, searchQuery, statusFilter)`: the tasks that pass the status
      test and, unless the normalised query is empty, mention the query. */
  function FilterTasks(tasks: seq<Task>, searchQuery: string, statusFilter: string): (r: seq<Task>)
    ensures |r| <= |tasks|
    ensures forall i :: 0 <= i < |r| ==> r[i] in tasks
    ensures statusFilter != "all" ==> forall i :: 0 <= i < |r| ==> r[i].status == statusFilter
    ensures forall i :: 0 <= i < |r| ==>
      NormalizeQuery(searchQuery) == "" || SomeTextContains(r[i], NormalizeQuery(searchQuery))
    ensures forall i :: 0 <= i < |tasks| && Keeps(tasks[i], NormalizeQuery(searchQuery), statusFilter) ==>
      tasks[i] in r
  {
    var q := NormalizeQuery(searchQuery);
    Filter(tasks, (t: Task) => Keeps(t, q, statusFilter))
  }

  /** The filter returns a subsequence of its input: order is kept and no task is
      added or repeated. */
  lemma FilterTasksIsSubsequence(tasks: seq<Task>, searchQuery: string, statusFilter: string)
    ensures IsSubsequence(FilterTasks(tasks, searchQuery, statusFilter), tasks)
    ensures multiset(FilterTasks(tasks, searchQuery, statusFilter)) <= multiset(tasks)
  {
    var q := NormalizeQuery(searchQuery);
    FilterIsSubsequence(tasks, (t: Task) => Keeps(t, q, statusFilter));
    FilterMultiset(tasks, (t: Task) => Keeps(t, q, statusFilter));
  }

  /** A task of the input is in the output exactly when it passes the status test and
      the normalised query is empty or occurs in one of its texts. */
  lemma FilterTasksKeepsExactly(tasks: seq<Task>, searchQuery: string, statusFilter: string, t: Task)
    requires t in tasks
    ensures t in FilterTasks(tasks, searchQuery, statusFilter) <==>
      StatusPasses(t, statusFilter) &&
      (IsBlank(searchQuery) || SomeTextContains(t, Lower(Trim(searchQuery))))
  {
    var q := NormalizeQuery(searchQuery);
    var r := FilterTasks(tasks, searchQuery, statusFilter);
    assert q == "" <==> IsBlank(searchQuery);
    if t in r {
      var i :| 0 <= i < |r| && r[i] == t;
    }
    var j :| 0 <= j < |tasks| && tasks[j] == t;
  }

  /** With status "all" and a blank query nothing is filtered out. */
  lemma FilterTasksAllBlank(tasks: seq<Task>, searchQuery: string)
    requires IsBlank(searchQuery)
    ensures FilterTasks(tasks, searchQuery, "all") == tasks
  {
    var q := NormalizeQuery(searchQuery);
    assert q == "";
    FilterKeepsAll(tasks, (t: Task) => Keeps(t, q, "all"));
  }

  /** Filtering the filtered list again with the same arguments changes nothing. */
  lemma FilterTasksIdempotent(tasks: seq<Task>, searchQuery: string, statusFilter: string)
    ensures FilterTasks(FilterTasks(tasks, searchQuery, statusFilter), searchQuery, statusFilter)
      == FilterTasks(tasks, searchQuery, statusFilter)
  {
    var q := NormalizeQuery(searchQuery);
    var keep := (t: Task) => Keeps(t, q, statusFilter);
    var r := Filter(tasks, keep);
    FilterIdempotent(tasks, keep);
    FilterPointwise(r, (t: Task) => Keeps(t, q, statusFilter), keep);
  }

  /** Two queries with the same normalised form filter alike. */
  lemma FilterTasksSameQuery(tasks: seq<Task>, q1: string, q2: string, statusFilter: string)
    requires NormalizeQuery(q1) == NormalizeQuery(q2)
    ensures FilterTasks(tasks, q1, statusFilter) == FilterTasks(tasks, q2, statusFilter)
  {
    var n1, n2 := NormalizeQuery(q1), NormalizeQuery(q2);
    FilterPointwise(tasks, (t: Task) => Keeps(t, n1, statusFilter), (t: Task) => Keeps(t, n2, statusFilter));
  }

  /** White space around the query does not change the result. */
  lemma FilterTasksIgnoresPadding(tasks: seq<Task>, query: string, before: string, after: string, statusFilter: string)
    requires AllWhite(before) && AllWhite(after)
    ensures FilterTasks(tasks, before + query + after, statusFilter) == FilterTasks(tasks, query, statusFilter)
  {
    TrimPadded(before, query, after);
    FilterTasksSameQuery(tasks, before + query + after, query, statusFilter);
  }

  /** The letter case of the query does not change the result. */
  lemma FilterTasksIgnoresCase(tasks: seq<Task>, q1: string, q2: string, statusFilter: string)
    requires Lower(q1) == Lower(q2)
    ensures FilterTasks(tasks, q1, statusFilter) == FilterTasks(tasks, q2, statusFilter)
  {
    TrimLower(q1);
    TrimLower(q2);
    FilterTasksSameQuery(tasks, q1, q2, statusFilter);
  }
}
