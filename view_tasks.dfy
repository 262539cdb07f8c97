/** The older task list page (frontend/src/components/ViewTasks.tsx).  It keeps the same
    state cells and list updates as the page of TaskView, but checks no token, asks for
    confirmation before deleting, and shows up to three tags per card. */
module ViewTasks {
  import opened Wrappers
  import opened FrontendTypes
  import opened TaskHelpers
  import opened TaskView

  /** This page shows at most three tags per card. */
  const LIST_TAG_LIMIT: nat := 3

  /** The three-tag strip of this page starts with the two-tag strip of the newer page,
      and both indicators count the same tags. */
  lemma StripsAgree(tags: Option<seq<Tag>>)
    ensures CardTags(tags, CARD_TAG_LIMIT).Some? <==> CardTags(tags, LIST_TAG_LIMIT).Some?
    ensures CardTags(tags, CARD_TAG_LIMIT).Some? ==>
      var two := CardTags(tags, CARD_TAG_LIMIT).value;
      var three := CardTags(tags, LIST_TAG_LIMIT).value;
      && two.shown <= three.shown
      && |two.shown| + two.more == |three.shown| + three.more
  {
  }

  class TaskListPage {
    var tasks: seq<Task>
    var loading: bool
    var searchQuery: string
    var statusFilter: string

    constructor ()
      ensures tasks == [] && loading && searchQuery == "" && statusFilter == "all"
    {
      tasks := [];
      loading := true;
      searchQuery := "";
      statusFilter := "all";
    }

    /** `filteredTasks` */
    function Filtered(): seq<Task>
      reads this
    {
      FilterTasks(tasks, searchQuery, statusFilter)
    }

    /** The initial fetch: the list becomes what `fetchTasks` returned, or empty when it
        failed, and loading ends. */
    method Load(fetched: Option<seq<Task>>)
      modifies this
      ensures searchQuery == old(searchQuery) && statusFilter == old(statusFilter)
      ensures tasks == (if fetched.Some? then fetched.value else []) && !loading
    {
      tasks := if fetched.Some? then fetched.value else [];
      loading := false;
    }

    /** `handleSave`: when the API call throws (`saved` is `None`) the list is unchanged;
        otherwise it becomes `AfterSave` of the old list. */
    method HandleSave(data: TaskData, saved: Option<Task>)
      modifies this
      ensures loading == old(loading) && searchQuery == old(searchQuery) && statusFilter == old(statusFilter)
      ensures saved.None? ==> tasks == old(tasks)
      ensures saved.Some? ==> tasks == AfterSave(old(tasks), data, saved.value)
    {
      if saved.None? {
        return;
      }
      tasks := AfterSave(tasks, data, saved.value);
    }

    /** `handleDelete`: the request is made only after the user confirmed, and the list
        loses the tasks with that id only once the request succeeded. */
    method HandleDelete(id: string, confirmed: bool, deleted: bool) returns (requested: bool)
      modifies this
      ensures loading == old(loading) && searchQuery == old(searchQuery) && statusFilter == old(statusFilter)
      ensures requested <==> confirmed
      ensures requested && deleted ==> tasks == RemoveById(old(tasks), id)
      ensures !(requested && deleted) ==> tasks == old(tasks)
    {
      requested := confirmed;
      if confirmed && deleted {
        tasks := RemoveById(tasks, id);
      }
    }
  }
}
