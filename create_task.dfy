/** The stand-alone create page (frontend/src/components/CreateTask.tsx): a form whose
    tags all come from its own `addTag`, and whose submit posts a request body and clears
    the form only after the server accepted it.  The `fetch` itself is a parameter: the
    caller says whether the response was `ok`. */
module CreateTask {
  import opened Wrappers
  import opened JsStrings
  import opened FrontendTypes
  import opened TaskHelpers
  import opened TaskModal
  import ColorMap

  /** Every tag carries a colour from the palette. */
  predicate PaletteColored(tags: seq<Tag>) {
    forall i :: 0 <= i < |tags| ==> tags[i].color.Some? && tags[i].color.value in ColorMap.TAG_COLORS
  }

  /** The body `handleSubmit` posts for the form's contents: the trimmed title, the
      description as typed (`task.description || null`), the status, and each tag's name
      and colour. */
  function CreateBody(title: string, description: string, status: string, tags: seq<Tag>): (b: TaskBody)
    ensures b.title == Some(Trim(title)) && b.status == Some(status)
    ensures b.description.None? <==> description == ""
    ensures b.description.Some? ==> b.description.value == description
    ensures |b.tags| == |tags|
    ensures forall i :: 0 <= i < |tags| ==>
      b.tags[i].name == tags[i].name &&
      b.tags[i].color == (if tags[i].color.Some? then tags[i].color.value else "#3b82f6")
  {
    RequestBody(TaskData(None, Some(Trim(title)), Some(description), Some(status), tags))
  }

  /** A body built from palette-coloured tags only carries colours with badge classes. */
  lemma CreateBodyColorsMapped(title: string, description: string, status: string, tags: seq<Tag>)
    requires PaletteColored(tags)
    ensures forall i :: 0 <= i < |CreateBody(title, description, status, tags).tags| ==>
      CreateBody(title, description, status, tags).tags[i].color in ColorMap.COLOR_MAP
  {
    BodyColorsAreMapped(TaskData(None, Some(Trim(title)), Some(description), Some(status), tags));
  }

  class CreateTaskForm {
    var title: string
    var description: string
    var status: string
    var tags: seq<Tag>
    var tagName: string

    /** The state `clearForm` leaves and the page starts in. */
    predicate IsCleared()
      reads this
    {
      title == "" && description == "" && status == "pending" && tags == [] && tagName == ""
    }

    /** The tags shown are all palette-coloured: they are only ever added by `addTag`. */
    predicate Valid()
      reads this
    {
      PaletteColored(tags)
    }

    constructor ()
      ensures IsCleared() && Valid()
    {
      title := "";
      description := "";
      status := "pending";
      tags := [];
      tagName := "";
    }

    /** `addTag`: a blank input is ignored, any other is appended with its trimmed name
        and a palette colour, and the input is cleared.  There is no duplicate guard. */
    method AddTag(stamp: string, colorIndex: nat, createdAt: string) returns (added: bool)
      requires Valid()
      requires colorIndex < |ColorMap.TAG_COLORS|
      modifies this
      ensures Valid()
      ensures title == old(title) && description == old(description) && status == old(status)
      ensures added <==> !IsBlank(old(tagName))
      ensures !added ==> tags == old(tags) && tagName == old(tagName)
      ensures added ==>
        tags == old(tags) + [NewTag(Trim(old(tagName)), stamp, colorIndex, createdAt)] && tagName == ""
    {
      if IsBlank(tagName) {
        return false;
      }
      var name := Trim(tagName);
      var tag := NewTag(name, stamp, colorIndex, createdAt);
      tags := tags + [tag];
      tagName := "";
      added := true;
    }

    /** The remove button of a badge: `setTags(tags.filter((t) => t.id !== tag.id))`. */
    method RemoveTag(id: string)
      requires Valid()
      modifies this
      ensures Valid()
      ensures title == old(title) && description == old(description) && status == old(status)
      ensures tagName == old(tagName)
      ensures tags == WithoutTag(old(tags), id)
    {
      tags := WithoutTag(tags, id);
    }

    /** `clearForm` */
    method ClearForm()
      modifies this
      ensures IsCleared() && Valid()
    {
      title := "";
      description := "";
      status := "pending";
      tags := [];
      tagName := "";
    }

    /** `handleSubmit`: with a blank title no request is sent and nothing changes.
        Otherwise the request carries `CreateBody` of the form's contents; the form is
        cleared when the response is `ok` and left as it was when it is not (or when the
        request fails). */
    method HandleSubmit(responseOk: bool) returns (sent: Option<TaskBody>)
      requires Valid()
      modifies this
      ensures Valid()
      ensures sent.None? <==> IsBlank(old(title))
      ensures sent.Some? ==> sent.value == CreateBody(old(title), old(description), old(status), old(tags))
      ensures sent.Some? ==> forall i :: 0 <= i < |sent.value.tags| ==> sent.value.tags[i].color in ColorMap.COLOR_MAP
      ensures sent.Some? && responseOk ==> IsCleared()
      ensures sent.None? || !responseOk ==>
        && title == old(title) && description == old(description) && status == old(status)
        && tags == old(tags) && tagName == old(tagName)
    {
      if IsBlank(title) {
        return None;
      }
      CreateBodyColorsMapped(title, description, status, tags);
      sent := Some(CreateBody(title, description, status, tags));
      if responseOk {
        ClearForm();
      }
    }
  }
}
