/** The earlier create/edit form (frontend/src/components/TaskModal.tsx).  It has the same
    state cells, initialisation, tag removal, key handling and payload as the newer form
    of TaskModal, but its `addTag` has no duplicate guard. */
module LegacyTaskModal {
  import opened Wrappers
  import opened JsStrings
  import opened FrontendTypes
  import opened TaskHelpers
  import opened TaskModal
  import ColorMap

  class LegacyTaskForm {
    var task: Option<Task>
    var title: string
    var description: string
    var status: string
    var tags: seq<Tag>
    var tagName: string

    /** `!!task?.id` */
    predicate IsEditing()
      reads this
    {
      task.Some? && task.value.id != ""
    }

    /** The initial state: copied from the task when editing, empty otherwise. */
    constructor (task: Option<Task>)
      ensures this.task == task
      ensures title == (if task.Some? then task.value.title else "")
      ensures description == (if task.Some? && task.value.description.Some? then task.value.description.value else "")
      ensures status == (if task.Some? && task.value.status != "" then task.value.status else "pending")
      ensures tags == (if task.Some? then TagsOrEmpty(task.value) else [])
      ensures tagName == ""
    {
      this.task := task;
      title := if task.Some? then task.value.title else "";
      description := if task.Some? && task.value.description.Some? then task.value.description.value else "";
      status := if task.Some? && task.value.status != "" then task.value.status else "pending";
      tags := if task.Some? then TagsOrEmpty(task.value) else [];
      tagName := "";
    }

    /** The effect run when a different task is passed in; a null task changes nothing. */
    method Resync(newTask: Option<Task>)
      modifies this
      ensures task == newTask && tagName == old(tagName)
      ensures newTask.None? ==>
        title == old(title) && description == old(description) && status == old(status) && tags == old(tags)
      ensures newTask.Some? ==>
        && title == newTask.value.title
        && description == (if newTask.value.description.Some? then newTask.value.description.value else "")
        && status == (if newTask.value.status != "" then newTask.value.status else "pending")
        && tags == TagsOrEmpty(newTask.value)
    {
      task := newTask;
      if newTask.Some? {
        var t := newTask.value;
        title := t.title;
        description := if t.description.Some? then t.description.value else "";
        status := if t.status != "" then t.status else "pending";
        tags := TagsOrEmpty(t);
      }
    }

    /** `addTag`: a blank input is ignored; any other input is appended as a new tag,
        whatever tags are already there, and the input is cleared. */
    method AddTag(stamp: string, colorIndex: nat, createdAt: string) returns (added: bool)
      requires colorIndex < |ColorMap.TAG_COLORS|
      modifies this
      ensures task == old(task) && title == old(title) && description == old(description) && status == old(status)
      ensures added <==> !IsBlank(old(tagName))
      ensures !added ==> tags == old(tags) && tagName == old(tagName)
      ensures added ==>
        tags == old(tags) + [NewTag(Trim(old(tagName)), stamp, colorIndex, createdAt)] && tagName == ""
    {
      if IsBlank(tagName) {
        return false;
      }
      var name := Trim(tagName);
      var tag := NewTag(name, stamp, colorIndex, createdAt);
      tags := tags + [tag];
      tagName := "";
      added := true;
    }

    /** `removeTag(id)`: drops every tag with that id and keeps the rest in order. */
    method RemoveTag(id: string)
      modifies this
      ensures task == old(task) && title == old(title) && description == old(description) && status == old(status)
      ensures tagName == old(tagName)
      ensures tags == WithoutTag(old(tags), id)
    {
      tags := WithoutTag(tags, id);
    }

    /** `handleKeyDown`: Enter with a non-blank input adds a tag; Backspace with an empty
        input and at least one tag drops the last tag; any other key changes nothing. */
    method HandleKeyDown(key: string, stamp: string, colorIndex: nat, createdAt: string) returns (outcome: KeyOutcome)
      requires colorIndex < |ColorMap.TAG_COLORS|
      modifies this
      ensures task == old(task) && title == old(title) && description == old(description) && status == old(status)
      ensures outcome.KeyAdd? <==> key == "Enter" && !IsBlank(old(tagName))
      ensures outcome.KeyAdd? ==>
        outcome.add == Added &&
        tags == old(tags) + [NewTag(Trim(old(tagName)), stamp, colorIndex, createdAt)] && tagName == ""
      ensures outcome == KeyPopped <==>
        key == "Backspace" && old(tagName) == "" && |old(tags)| > 0
      ensures outcome == KeyPopped ==> tags == old(tags)[..|old(tags)| - 1] && tagName == old(tagName)
      ensures outcome == KeyIgnored ==> tags == old(tags) && tagName == old(tagName)
    {
      if key == "Enter" && !IsBlank(tagName) {
        var _ := AddTag(stamp, colorIndex, createdAt);
        outcome := KeyAdd(Added);
      } else if key == "Backspace" && tagName == "" && |tags| > 0 {
        tags := tags[..|tags| - 1];
        outcome := KeyPopped;
      } else {
        outcome := KeyIgnored;
      }
    }

    /** `handleSubmit`: as in the newer form, the payload is withheld when the title is
        blank, carries an id exactly when editing, and the modal closes exactly when the
        payload was saved. */
    method HandleSubmit(saveOk: bool) returns (payload: Option<TaskData>, closes: bool)
      ensures closes <==> payload.Some? && saveOk
      ensures payload.None? <==> IsBlank(title)
      ensures payload.Some? ==>
        && (payload.value.id.Some? <==> IsEditing())
        && (payload.value.id.Some? ==> payload.value.id.value == task.value.id)
        && payload.value.title == Some(Trim(title))
        && (payload.value.description.None? <==> IsBlank(description))
        && (payload.value.description.Some? ==> payload.value.description.value == Trim(description))
        && payload.value.status == Some(status)
        && payload.value.tags == tags
    {
      if IsBlank(title) {
        return None, false;
      }
      var id := if IsEditing() then Some(task.value.id) else None;
      var desc := if IsBlank(description) then None else Some(Trim(description));
      payload := Some(TaskData(id, Some(Trim(title)), desc, Some(status), tags));
      closes := saveOk;
    }
  }

  /** "Work" and "work" are both non-blank and agree once trimmed and lower-cased. */
  lemma WorkAndWork()
    ensures !IsBlank("Work") && !IsBlank("work")
    ensures Lower(Trim("Work")) == Lower(Trim("work"))
  {
    TrimTight("Work");
    TrimTight("work");
    assert LowerChar('W') == 'w';
  }

  /** Unlike the newer form, this one appends a tag whose name differs from an existing
      one only in letter case (such as "work" after "Work", by WorkAndWork): the tag list
      that `AddTag` then produces is no longer free of case duplicates. */
  lemma AddingCaseDuplicate(tags: seq<Tag>, tagName: string, stamp: string, colorIndex: nat, createdAt: string)
    requires colorIndex < |ColorMap.TAG_COLORS|
    requires IsDuplicateName(tags, tagName)
    ensures !NoCaseDuplicates(tags + [NewTag(Trim(tagName), stamp, colorIndex, createdAt)])
  {
    var t := NewTag(Trim(tagName), stamp, colorIndex, createdAt);
    var w := tags + [t];
    var i :| 0 <= i < |tags| && Lower(tags[i].name) == Lower(Trim(tagName));
    assert w[i] == tags[i] && w[|tags|] == t;
    assert CaseKey(w[i]) == CaseKey(w[|tags|]);
  }
}
