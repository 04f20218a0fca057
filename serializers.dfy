/** The read representations: which fields each serializer exposes and
    which of them callers may write, and the task detail view with its
    nested tags and flat tag-id list. */
module Serializers {
  import opened Models

  const UserFields := ["id", "name", "email", "created_at", "updated_at", "is_active"]
  const UserReadOnlyFields := ["id", "created_at", "updated_at", "is_active"]

  const TagFields := ["id", "name", "description", "is_active", "created_at", "updated_at"]
  const TagReadOnlyFields := ["id", "created_at", "updated_at"]

  const TaskDetailFields := ["id", "title", "description", "status", "priority",
                             "tags", "tag_list", "is_active", "created_at", "updated_at",
                             "due_date", "completed_at"]
  const TaskDetailReadOnlyFields := ["id", "created_at", "updated_at", "completed_at"]
  /** The fields that are read-only by their own declaration: the nested
      `tags` is declared read-only and `tag_list` is a computed method field. */
  const TaskDetailDeclaredReadOnly := ["tags", "tag_list"]

  /** The fields of a serializer a caller may supply. */
  function Writable(fields: seq<string>, readOnly: seq<string>): (r: set<string>)
    ensures forall f :: f in r <==> f in fields && f !in readOnly
  {
    set f | f in fields && f !in readOnly
  }

  lemma IsActiveWritableForTagsOnly()
    ensures "is_active" in Writable(TagFields, TagReadOnlyFields)
    ensures "is_active" !in Writable(UserFields, UserReadOnlyFields)
  {
  }

  lemma TaskDetailServerFieldsReadOnly()
    ensures forall f :: f in ["id", "created_at", "updated_at", "completed_at", "tags", "tag_list"] ==>
              f in TaskDetailFields && f !in Writable(TaskDetailFields, TaskDetailReadOnlyFields + TaskDetailDeclaredReadOnly)
  {
  }

  /** The read representation of a task. */
  datatype TaskDetail = TaskDetail(
    id: Id,
    title: string,
    description: Option<string>,
    status: string,
    priority: int,
    tags: seq<Tag>,
    tagList: seq<Id>,
    isActive: bool,
    createdAt: Time,
    updatedAt: Time,
    dueDate: Option<Time>,
    completedAt: Option<Time>)

  /** Every tag the task's rows reference is stored under its own id. */
  predicate TagsResolve(task: Id, tags: map<Id, Tag>, links: seq<Link>) {
    forall t :: t in TagIdsOf(links, task) ==> t in tags && tags[t].base.id == t
  }

  lemma ValidStoreResolves(tasks: map<Id, Task>, tags: map<Id, Tag>, links: seq<Link>, task: Id)
    requires ValidStore(tasks, tags, links)
    ensures TagsResolve(task, tags, links)
  {
  }

  /** The nested `tags`: the tag rows the ids lead to. */
  function NestedTags(ids: seq<Id>, tags: map<Id, Tag>): seq<Tag>
    requires forall t :: t in ids ==> t in tags
  {
    seq(|ids|, i requires 0 <= i < |ids| => tags[ids[i]])
  }

  /** `tag_list`: the ids of the nested tags. */
  function TagList(nested: seq<Tag>): seq<Id> {
    seq(|nested|, i requires 0 <= i < |nested| => nested[i].base.id)
  }

  function Detail(task: Task, tags: map<Id, Tag>, links: seq<Link>): (r: TaskDetail)
    requires TagsResolve(task.base.id, tags, links)
    ensures r.id == task.base.id && ParseStatus(r.status) == Some(task.status)
    ensures r.title == task.title && r.description == task.description && r.priority == task.priority
    ensures r.dueDate == task.dueDate && r.completedAt == task.completedAt && r.isActive == task.base.isActive
    ensures r.createdAt == task.base.createdAt && r.updatedAt == task.base.updatedAt
    ensures r.tagList == TagIdsOf(links, task.base.id)
    ensures forall t :: t in r.tagList <==> Link(task.base.id, t) in links
    ensures |r.tags| == |r.tagList|
    ensures forall i :: 0 <= i < |r.tags| ==> r.tags[i].base.id == r.tagList[i] && r.tags[i] == tags[r.tagList[i]]
  {
    var nested := NestedTags(TagIdsOf(links, task.base.id), tags);
    StatusCodeRoundTrip(task.status);
    TaskDetail(task.base.id, task.title, task.description, StatusCode(task.status), task.priority,
               nested, TagList(nested), task.base.isActive, task.base.createdAt, task.base.updatedAt,
               task.dueDate, task.completedAt)
  }

  /** With unique association rows, no tag is listed twice. */
  lemma DetailListsEachTagOnce(task: Task, tags: map<Id, Tag>, links: seq<Link>)
    requires TagsResolve(task.base.id, tags, links) && Distinct(links)
    ensures Distinct(Detail(task, tags, links).tagList)
    ensures forall i, j :: 0 <= i < j < |Detail(task, tags, links).tags| ==>
              Detail(task, tags, links).tags[i] != Detail(task, tags, links).tags[j]
  {
    TagIdsOfDistinct(links, task.base.id);
  }
}
