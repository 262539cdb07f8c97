/** The create/edit form of the task list page (frontend/src/components/tasks/TaskModal.tsx):
    its state cells, the tag editor with its case-insensitive duplicate guard, and the
    payload it hands to the parent on submit.  Rendering and focus are not modelled. */
module TaskModal {
  import opened Wrappers
  import opened JsStrings
  import opened JsArrays
  import opened FrontendTypes
  import opened TaskHelpers
  import ColorMap

  /** `tags.filter((t) => t.id !== id)`; the other tag editors use it too. */
  function WithoutTag(tags: seq<Tag>, id: string): (r: seq<Tag>)
    ensures forall i :: 0 <= i < |r| ==> r[i] in tags && r[i].id != id
    ensures forall i :: 0 <= i < |tags| && tags[i].id != id ==> tags[i] in r
  {
    Filter(tags, (t: Tag) => t.id != id)
  }

  /** Removing a tag keeps the order of the others and never duplicates one. */
  lemma WithoutTagKeepsOrder(tags: seq<Tag>, id: string)
    ensures IsSubsequence(WithoutTag(tags, id), tags)
    ensures multiset(WithoutTag(tags, id)) <= multiset(tags)
  {
    FilterIsSubsequence(tags, (t: Tag) => t.id != id);
    FilterMultiset(tags, (t: Tag) => t.id != id);
  }

  /** The tag `addTag` appends: a temporary id built from the clock reading `stamp`, the
      trimmed input as name, a palette colour picked by `colorIndex` (the source draws it
      with `Math.random()`) and the creation time. */
  function NewTag(name: string, stamp: string, colorIndex: nat, createdAt: string): (t: Tag)
    requires colorIndex < |ColorMap.TAG_COLORS|
    ensures t.color.Some? && t.color.value in ColorMap.TAG_COLORS
  {
    Tag("temp-" + stamp, name, Some(ColorMap.TAG_COLORS[colorIndex]), createdAt)
  }

  /** The key the duplicate guard compares. */
  function CaseKey(t: Tag): string {
    Lower(t.name)
  }

  /** No two tags have names that differ only in letter case. */
  predicate NoCaseDuplicates(tags: seq<Tag>) {
    DistinctBy(tags, CaseKey)
  }

  /** `tags.some((tag) => tag.name.toLowerCase() === tagName.trim().toLowerCase())` */
  predicate IsDuplicateName(tags: seq<Tag>, tagName: string) {
    exists i :: 0 <= i < |tags| && Lower(tags[i].name) == Lower(Trim(tagName))
  }

  /** Appending a tag whose name is new up to letter case keeps the list free of case
      duplicates. */
  lemma AppendKeepsNoCaseDuplicates(tags: seq<Tag>, t: Tag)
    requires NoCaseDuplicates(tags)
    requires forall i :: 0 <= i < |tags| ==> Lower(tags[i].name) != CaseKey(t)
    ensures NoCaseDuplicates(tags + [t])
  {
    var r := tags + [t];
    forall i, j | 0 <= i < j < |r| ensures CaseKey(r[i]) != CaseKey(r[j]) {
      assert r[i] == tags[i];
      if j < |tags| {
        assert r[j] == tags[j];
      }
    }
  }

  /** How `addTag` ended: it returned early on a blank input, refused a duplicate (with a
      toast), or appended a tag. */
  datatype AddOutcome = Blank | Duplicate | Added

  /** What a key press in the tag input did. */
  datatype KeyOutcome = KeyAdd(add: AddOutcome) | KeyPopped | KeyIgnored

  /** The form's state cells. */
  class TaskForm {
    var task: Option<Task>
    var title: string
    var description: string
    var status: string
    var tags: seq<Tag>
    var tagName: string

    /** `!!task?.id` */
    predicate IsEditing()
      reads this
    {
      task.Some? && task.value.id != ""
    }

    /** The initial state: copied from the task when editing, empty otherwise. */
    constructor (task: Option<Task>)
      ensures this.task == task
      ensures title == (if task.Some? then task.value.title else "")
      ensures description == (if task.Some? && task.value.description.Some? then task.value.description.value else "")
      ensures status == (if task.Some? && task.value.status != "" then task.value.status else "pending")
      ensures tags == (if task.Some? then TagsOrEmpty(task.value) else [])
      ensures tagName == ""
    {
      this.task := task;
      title := if task.Some? then task.value.title else "";
      description := if task.Some? && task.value.description.Some? then task.value.description.value else "";
      status := if task.Some? && task.value.status != "" then task.value.status else "pending";
      tags := if task.Some? then TagsOrEmpty(task.value) else [];
      tagName := "";
    }

    /** The effect that runs when a different task is passed in: a task overwrites the
      title, description, status and tags; a null task leaves them as they are.  The tag
      input is never touched. */
    method Resync(newTask: Option<Task>)
      modifies this
      ensures task == newTask && tagName == old(tagName)
      ensures newTask.None? ==>
        title == old(title) && description == old(description) && status == old(status) && tags == old(tags)
      ensures newTask.Some? ==>
        && title == newTask.value.title
        && description == (if newTask.value.description.Some? then newTask.value.description.value else "")
        && status == (if newTask.value.status != "" then newTask.value.status else "pending")
        && tags == TagsOrEmpty(newTask.value)
    {
      task := newTask;
      if newTask.Some? {
        var t := newTask.value;
        title := t.title;
        description := if t.description.Some? then t.description.value else "";
        status := if t.status != "" then t.status else "pending";
        tags := TagsOrEmpty(t);
      }
    }

    /** `addTag`: ignores a blank input, refuses a name that is already present up to
        letter case (leaving list and input as they were), and otherwise appends one new
        tag and clears the input.  A list without case duplicates stays so. */
    method AddTag(stamp: string, colorIndex: nat, createdAt: string) returns (outcome: AddOutcome)
      requires colorIndex < |ColorMap.TAG_COLORS|
      modifies this
      ensures task == old(task) && title == old(title) && description == old(description) && status == old(status)
      ensures outcome == Blank <==> IsBlank(old(tagName))
      ensures outcome == Duplicate <==> !IsBlank(old(tagName)) && IsDuplicateName(old(tags), old(tagName))
      ensures outcome != Added ==> tags == old(tags) && tagName == old(tagName)
      ensures outcome == Added ==>
        tags == old(tags) + [NewTag(Trim(old(tagName)), stamp, colorIndex, createdAt)] && tagName == ""
      ensures NoCaseDuplicates(old(tags)) ==> NoCaseDuplicates(tags)
    {
      if IsBlank(tagName) {
        return Blank;
      }
      if IsDuplicateName(tags, tagName) {
        return Duplicate;
      }
      var name := Trim(tagName);
      var tag := NewTag(name, stamp, colorIndex, createdAt);
      if NoCaseDuplicates(tags) {
        AppendKeepsNoCaseDuplicates(tags, tag);
      }
      tags := tags + [tag];
      tagName := "";
      outcome := Added;
    }

    /** `removeTag(id)`: drops every tag with that id and keeps the rest in order. */
    method RemoveTag(id: string)
      modifies this
      ensures task == old(task) && title == old(title) && description == old(description) && status == old(status)
      ensures tagName == old(tagName)
      ensures tags == WithoutTag(old(tags), id)
      ensures NoCaseDuplicates(old(tags)) ==> NoCaseDuplicates(tags)
    {
      if NoCaseDuplicates(tags) {
        FilterKeepsDistinctBy(tags, (t: Tag) => t.id != id, CaseKey);
      }
      tags := WithoutTag(tags, id);
    }

    /** `handleKeyDown`: Enter with a non-blank input runs `addTag`; Backspace with an
        empty input and at least one tag drops the last tag; any other key changes
        nothing. */
    method HandleKeyDown(key: string, stamp: string, colorIndex: nat, createdAt: string) returns (outcome: KeyOutcome)
      requires colorIndex < |ColorMap.TAG_COLORS|
      modifies this
      ensures task == old(task) && title == old(title) && description == old(description) && status == old(status)
      ensures outcome.KeyAdd? <==> key == "Enter" && !IsBlank(old(tagName))
      ensures outcome.KeyAdd? ==> outcome.add != Blank
      ensures outcome.KeyAdd? && outcome.add == Duplicate ==> tags == old(tags) && tagName == old(tagName)
      ensures outcome.KeyAdd? && outcome.add == Added ==>
        tags == old(tags) + [NewTag(Trim(old(tagName)), stamp, colorIndex, createdAt)] && tagName == ""
      ensures outcome == KeyPopped <==>
        key == "Backspace" && old(tagName) == "" && |old(tags)| > 0
      ensures outcome == KeyPopped ==> tags == old(tags)[..|old(tags)| - 1] && tagName == old(tagName)
      ensures outcome == KeyIgnored ==> tags == old(tags) && tagName == old(tagName)
      ensures NoCaseDuplicates(old(tags)) ==> NoCaseDuplicates(tags)
    {
      if key == "Enter" && !IsBlank(tagName) {
        var added := AddTag(stamp, colorIndex, createdAt);
        outcome := KeyAdd(added);
      } else if key == "Backspace" && tagName == "" && |tags| > 0 {
        ghost var before := tags;
        tags := tags[..|tags| - 1];
        if NoCaseDuplicates(before) {
          forall i, j | 0 <= i < j < |tags| ensures CaseKey(tags[i]) != CaseKey(tags[j]) {
            assert tags[i] == before[i] && tags[j] == before[j];
          }
        }
        outcome := KeyPopped;
      } else {
        outcome := KeyIgnored;
      }
    }

    /** `handleSubmit`: nothing is saved when the title is blank; otherwise the payload
        has the trimmed title, the trimmed description or none when it is blank, the
        status and tags as they stand, and an id exactly when a task is being edited.
        `saveOk` says whether the parent's `onSave` resolved; the modal closes exactly
        when a payload was handed over and saved, and stays open with its state after a
        failure. */
    method HandleSubmit(saveOk: bool) returns (payload: Option<TaskData>, closes: bool)
      ensures closes <==> payload.Some? && saveOk
      ensures payload.None? <==> IsBlank(title)
      ensures payload.Some? ==>
        && (payload.value.id.Some? <==> IsEditing())
        && (payload.value.id.Some? ==> payload.value.id.value == task.value.id)
        && payload.value.title == Some(Trim(title))
        && (payload.value.description.None? <==> IsBlank(description))
        && (payload.value.description.Some? ==> payload.value.description.value == Trim(description))
        && payload.value.status == Some(status)
        && payload.value.tags == tags
    {
      if IsBlank(title) {
        return None, false;
      }
      var id := if IsEditing() then Some(task.value.id) else None;
      var desc := if IsBlank(description) then None else Some(Trim(description));
      payload := Some(TaskData(id, Some(Trim(title)), desc, Some(status), tags));
      closes := saveOk;
    }
  }

  /** Opening the form on a task and submitting it unedited saves that task under its
      own id (when it has one), with its title trimmed, its status or "pending", and its
      tags; a task with a blank title is not saved. */
  method SubmitUnedited(t: Task) returns (payload: Option<TaskData>)
    ensures payload.None? <==> IsBlank(t.title)
    ensures payload.Some? ==>
      && payload.value.id == (if t.id != "" then Some(t.id) else None)
      && payload.value.title == Some(Trim(t.title))
      && payload.value.status == Some(if t.status != "" then t.status else "pending")
      && payload.value.tags == TagsOrEmpty(t)
  {
    var form := new TaskForm(Some(t));
    var closes;
    payload, closes := form.HandleSubmit(true);
  }
}
