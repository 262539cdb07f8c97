/** The records the browser client exchanges with the API (frontend/src/types/index.ts).
    Identifiers and timestamps are the strings the JSON responses carry. */
module FrontendTypes {
  import opened Wrappers

  /** A tag; `color` is `null` when the tag was stored without one. */
  datatype Tag = Tag(id: string, name: string, color: Option<string>, createdAt: string)

  /** A task; `description` is `null` when absent and `tags` is an optional field. */
  datatype Task = Task(
    id: string,
    title: string,
    description: Option<string>,
    status: string,
    tags: Option<seq<Tag>>,
    createdAt: string,
    updatedAt: string)

  /** The `tags` field read as `task.tags || []`. */
  function TagsOrEmpty(t: Task): seq<Tag> {
    if t.tags.Some? then t.tags.value else []
  }
}
