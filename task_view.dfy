/** The task list page (frontend/src/components/tasks/TaskView.tsx): the `tasks` state
    cell and how saving and deleting replace it, plus what a card shows (the status
    label and the first tags).  The API calls are parameters: whether a token is present,
    and what the call returned.  The list updates are shared with the older page of
    ViewTasks. */
module TaskView {
  import opened Wrappers
  import opened JsArrays
  import opened FrontendTypes
  import opened TaskHelpers

  // ---------------------------------------------------------------------------
  // List updates
  // ---------------------------------------------------------------------------

  /** `t.map((task) => (task.id === saved.id ? saved : task))` */
  function ReplaceById(ts: seq<Task>, saved: Task): (r: seq<Task>)
    ensures |r| == |ts|
    ensures forall i :: 0 <= i < |ts| ==> r[i] == (if ts[i].id == saved.id then saved else ts[i])
  {
    seq(|ts|, i requires 0 <= i < |ts| => if ts[i].id == saved.id then saved else ts[i])
  }

  /** Replacing keeps every position's id, so the list's ids are those it had. */
  lemma ReplaceByIdKeepsIds(ts: seq<Task>, saved: Task)
    ensures forall i :: 0 <= i < |ts| ==> ReplaceById(ts, saved)[i].id == ts[i].id
  {
  }

  /** Saving the same task twice is the same as saving it once; a task whose id is not
      on the list changes nothing. */
  lemma ReplaceByIdIdempotent(ts: seq<Task>, saved: Task)
    ensures ReplaceById(ReplaceById(ts, saved), saved) == ReplaceById(ts, saved)
    ensures (forall i :: 0 <= i < |ts| ==> ts[i].id != saved.id) ==> ReplaceById(ts, saved) == ts
  {
  }

  /** `t.filter((task) => task.id !== id)` */
  function RemoveById(ts: seq<Task>, id: string): (r: seq<Task>)
    ensures forall i :: 0 <= i < |r| ==> r[i] in ts && r[i].id != id
    ensures forall i :: 0 <= i < |ts| && ts[i].id != id ==> ts[i] in r
  {
    Filter(ts, (t: Task) => t.id != id)
  }

  /** Deleting keeps the other tasks in their order and never repeats one. */
  lemma RemoveByIdKeepsOrder(ts: seq<Task>, id: string)
    ensures IsSubsequence(RemoveById(ts, id), ts)
    ensures multiset(RemoveById(ts, id)) <= multiset(ts)
  {
    FilterIsSubsequence(ts, (t: Task) => t.id != id);
    FilterMultiset(ts, (t: Task) => t.id != id);
  }

  /** Creating a task with a new id and then deleting it gives back the list as it was. */
  lemma CreateThenDelete(ts: seq<Task>, saved: Task)
    requires forall i :: 0 <= i < |ts| ==> ts[i].id != saved.id
    ensures RemoveById([saved] + ts, saved.id) == ts
  {
    FilterKeepsAll(ts, (t: Task) => t.id != saved.id);
    assert ([saved] + ts)[1..] == ts;
  }

  /** A deleted task is not shown whatever the search and status filter. */
  lemma DeletedNotShown(ts: seq<Task>, id: string, searchQuery: string, statusFilter: string)
    ensures forall i :: 0 <= i < |FilterTasks(RemoveById(ts, id), searchQuery, statusFilter)| ==>
      FilterTasks(RemoveById(ts, id), searchQuery, statusFilter)[i].id != id
  {
    var r := RemoveById(ts, id);
    var f := FilterTasks(r, searchQuery, statusFilter);
    forall i | 0 <= i < |f| ensures f[i].id != id {
      var k :| 0 <= k < |r| && r[k] == f[i];
    }
  }

  /** `taskData.id` is truthy: the save is an update. */
  predicate IsUpdate(data: TaskData) {
    data.id.Some? && data.id.value != ""
  }

  /** The list after a save: an update replaces by the saved task's id, a create puts the
      saved task first. */
  function AfterSave(ts: seq<Task>, data: TaskData, saved: Task): (r: seq<Task>)
    ensures IsUpdate(data) ==> |r| == |ts| && forall i :: 0 <= i < |ts| ==> r[i].id == ts[i].id
    ensures IsUpdate(data) ==> forall i :: 0 <= i < |ts| && ts[i].id == saved.id ==> r[i] == saved
    ensures !IsUpdate(data) ==> |r| == |ts| + 1 && r[0] == saved && r[1..] == ts
  {
    if IsUpdate(data) then ReplaceById(ts, saved) else [saved] + ts
  }

  // ---------------------------------------------------------------------------
  // Card contents
  // ---------------------------------------------------------------------------

  /** `status.indexOf("-")`: the position of the first dash, if any. */
  function IndexOfDash(s: string): (r: Option<nat>)
    ensures r.Some? ==> r.value < |s| && s[r.value] == '-' && NoDashBefore(s, r.value)
    ensures r.None? ==> NoDashBefore(s, |s|)
  {
    if s == [] then None
    else if s[0] == '-' then Some(0)
    else
      var rest := IndexOfDash(s[1..]);
      assert forall k :: 1 <= k <= |s| ==> (NoDashBefore(s, k) <==> NoDashBefore(s[1..], k - 1)) by {
        forall k | 1 <= k <= |s| ensures NoDashBefore(s, k) <==> NoDashBefore(s[1..], k - 1) {
          assert forall j :: 1 <= j < k ==> s[j] == s[1..][j - 1];
        }
      }
      if rest.None? then None else Some(rest.value + 1)
  }

  predicate NoDashBefore(s: string, i: nat)
    requires i <= |s|
  {
    forall k :: 0 <= k < i ==> s[k] != '-'
  }

  /** The status label `status.replace("-", " ")`: a string pattern replaces its first
      occurrence only. */
  function StatusLabel(s: string): string {
    var i := IndexOfDash(s);
    if i.None? then s else s[..i.value] + " " + s[i.value + 1..]
  }

  /** The label has the status's length, and differs from it only in that the first dash
      reads as a space; any later dash stays. */
  lemma StatusLabelPointwise(s: string)
    ensures |StatusLabel(s)| == |s|
    ensures forall i :: 0 <= i < |s| ==>
      StatusLabel(s)[i] == (if s[i] == '-' && NoDashBefore(s, i) then ' ' else s[i])
  {
    var r := StatusLabel(s);
    var d := IndexOfDash(s);
    forall i | 0 <= i < |s| ensures r[i] == (if s[i] == '-' && NoDashBefore(s, i) then ' ' else s[i]) {
      if d.Some? && i > d.value {
        assert !NoDashBefore(s, i) by {
          assert s[d.value] == '-';
        }
      }
    }
  }

  /** A status without a dash is shown as it is. */
  lemma StatusLabelNoDash(s: string)
    requires forall k :: 0 <= k < |s| ==> s[k] != '-'
    ensures StatusLabel(s) == s
  {
    StatusLabelPointwise(s);
  }

  /** With its first dash at `i`, the label is the status with that one character
      replaced by a space. */
  lemma StatusLabelFirstDash(s: string, i: nat)
    requires i < |s| && s[i] == '-' && NoDashBefore(s, i)
    ensures StatusLabel(s) == s[..i] + " " + s[i + 1..]
  {
    var d := IndexOfDash(s);
    assert d.Some? by {
      assert !NoDashBefore(s, |s|) by {
        assert s[i] == '-';
      }
    }
    assert d.value == i;
  }

  /** The statuses the forms offer read as "pending", "in progress" and "completed". */
  lemma PendingLabel()
    ensures StatusLabel("pending") == "pending"
  {
    StatusLabelNoDash("pending");
  }

  lemma InProgressLabel()
    ensures StatusLabel("in-progress") == "in progress"
  {
    var s := "in-progress";
    StatusLabelFirstDash(s, 2);
    assert s[..2] == "in" && s[3..] == "progress";
  }

  lemma CompletedLabel()
    ensures StatusLabel("completed") == "completed"
  {
    StatusLabelNoDash("completed");
  }

  /** The tag strip of a card: the first tags and the number in the `+n` indicator
      (zero when there is no indicator). */
  datatype TagStrip = TagStrip(shown: seq<Tag>, more: nat)

  /** Nothing is shown for a task without tags; otherwise the first `limit` tags, and the
      indicator counts exactly the tags left out. */
  function CardTags(tags: Option<seq<Tag>>, limit: nat): (strip: Option<TagStrip>)
    ensures strip.None? <==> tags.None? || tags.value == []
    ensures strip.Some? ==>
      && |strip.value.shown| == (if |tags.value| < limit then |tags.value| else limit)
      && strip.value.shown == tags.value[..|strip.value.shown|]
      && |strip.value.shown| + strip.value.more == |tags.value|
      && (strip.value.more > 0 <==> |tags.value| > limit)
  {
    if tags.None? || tags.value == [] then None
    else
      var n := |tags.value|;
      Some(TagStrip(tags.value[..if n < limit then n else limit], if n > limit then n - limit else 0))
  }

  /** This page shows at most two tags per card. */
  const CARD_TAG_LIMIT: nat := 2

  // ---------------------------------------------------------------------------
  // The page
  // ---------------------------------------------------------------------------

  class TaskBoard {
    var tasks: seq<Task>
    var loading: bool
    var searchQuery: string
    var statusFilter: string

    constructor ()
      ensures tasks == [] && loading && searchQuery == "" && statusFilter == "all"
    {
      tasks := [];
      loading := true;
      searchQuery := "";
      statusFilter := "all";
    }

    /** `filteredTasks` */
    function Filtered(): seq<Task>
      reads this
    {
      FilterTasks(tasks, searchQuery, statusFilter)
    }

    /** The initial fetch: without a token nothing happens; otherwise the list becomes
        what `fetchTasks` returned, or empty when it failed, and loading ends. */
    method Load(hasToken: bool, fetched: Option<seq<Task>>)
      modifies this
      ensures searchQuery == old(searchQuery) && statusFilter == old(statusFilter)
      ensures !hasToken ==> tasks == old(tasks) && loading == old(loading)
      ensures hasToken ==> tasks == (if fetched.Some? then fetched.value else []) && !loading
    {
      if !hasToken {
        return;
      }
      tasks := if fetched.Some? then fetched.value else [];
      loading := false;
    }

    /** `handleSave`: without a token, or when the API call throws (`saved` is `None`),
        the list is unchanged; otherwise it becomes `AfterSave` of the old list. */
    method HandleSave(hasToken: bool, data: TaskData, saved: Option<Task>)
      modifies this
      ensures loading == old(loading) && searchQuery == old(searchQuery) && statusFilter == old(statusFilter)
      ensures !hasToken || saved.None? ==> tasks == old(tasks)
      ensures hasToken && saved.Some? ==> tasks == AfterSave(old(tasks), data, saved.value)
    {
      if !hasToken || saved.None? {
        return;
      }
      tasks := AfterSave(tasks, data, saved.value);
    }

    /** `handleDelete`: the request is made only with a token, and the list loses the
        tasks with that id only once the request succeeded. */
    method HandleDelete(hasToken: bool, id: string, deleted: bool) returns (requested: bool)
      modifies this
      ensures loading == old(loading) && searchQuery == old(searchQuery) && statusFilter == old(statusFilter)
      ensures requested <==> hasToken
      ensures requested && deleted ==> tasks == RemoveById(old(tasks), id)
      ensures !(requested && deleted) ==> tasks == old(tasks)
    {
      requested := hasToken;
      if hasToken && deleted {
        tasks := RemoveById(tasks, id);
      }
    }
  }
}
