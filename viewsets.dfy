/** The task endpoints: which serializer each action uses, the ordering
    and search settings of the listings, the completion action and the
    pending and completed listings. */
module Viewsets {
  import opened Models
  import opened Storage
  import opened Serializers
  import opened RequestSerializers

  datatype SerializerClass = TaskCreateUpdateSerializer | TaskDetailSerializer

  /** The write serializer serves the three write actions; every other
      action, the custom ones included, reads through the detail serializer. */
  function GetSerializerClass(action: string): (r: SerializerClass)
    ensures r == TaskCreateUpdateSerializer <==> action == "create" || action == "update" || action == "partial_update"
  {
    if action in ["create", "update", "partial_update"] then TaskCreateUpdateSerializer
    else TaskDetailSerializer
  }

  lemma ReadActionsUseDetail()
    ensures GetSerializerClass("list") == TaskDetailSerializer
    ensures GetSerializerClass("retrieve") == TaskDetailSerializer
    ensures GetSerializerClass("destroy") == TaskDetailSerializer
    ensures GetSerializerClass("complete") == TaskDetailSerializer
    ensures GetSerializerClass("pending") == TaskDetailSerializer
    ensures GetSerializerClass("completed") == TaskDetailSerializer
  {
  }

  /** One requested ordering: a field, ascending or descending. */
  datatype OrderTerm = OrderTerm(field: string, descending: bool)

  const TaskSearchFields := ["title", "description"]
  const TaskOrderingFields := ["created_at", "updated_at", "priority", "due_date"]
  const TaskDefaultOrdering := [OrderTerm("created_at", true)]

  const TagSearchFields := ["name", "description"]
  const TagOrderingFields := ["name", "created_at"]
  const TagDefaultOrdering := [OrderTerm("name", false)]

  /** The requested terms on allowed fields, in the order requested. */
  function AllowedTerms(requested: seq<OrderTerm>, allowed: seq<string>): (r: seq<OrderTerm>)
    ensures forall t :: t in r <==> t in requested && t.field in allowed
    ensures |r| <= |requested|
    ensures (forall t :: t in requested ==> t.field in allowed) ==> r == requested
  {
    if requested == [] then []
    else (if requested[0].field in allowed then [requested[0]] else []) + AllowedTerms(requested[1..], allowed)
  }

  /** The ordering a listing uses: the requested terms on allowed fields,
      or the default when none was requested or none is allowed. */
  function EffectiveOrdering(requested: Option<seq<OrderTerm>>, allowed: seq<string>, default: seq<OrderTerm>)
    : (r: seq<OrderTerm>)
    ensures (forall t :: t in default ==> t.field in allowed) ==> forall t :: t in r ==> t.field in allowed
    ensures requested.None? ==> r == default
    ensures r != default ==> requested.Some? && forall t :: t in r ==> t in requested.value
    ensures requested.Some? && (exists t :: t in requested.value && t.field in allowed) ==>
              forall t :: t in r <==> t in requested.value && t.field in allowed
    ensures requested.Some? && (forall t :: t in requested.value ==> t.field !in allowed) ==> r == default
    ensures requested.Some? && requested.value != [] && (forall t :: t in requested.value ==> t.field in allowed) ==>
              r == requested.value
  {
    match requested
    case None => default
    case Some(terms) =>
      var valid := AllowedTerms(terms, allowed);
      assert valid != [] ==> valid[0] in valid;
      if valid == [] then default else valid
  }

  /** Tasks are listed newest first unless an allowed field is requested;
      `title` is not an allowed ordering. */
  lemma TaskOrderingDefaults()
    ensures EffectiveOrdering(None, TaskOrderingFields, TaskDefaultOrdering) == [OrderTerm("created_at", true)]
    ensures EffectiveOrdering(Some([OrderTerm("title", false)]), TaskOrderingFields, TaskDefaultOrdering)
         == TaskDefaultOrdering
    ensures EffectiveOrdering(Some([OrderTerm("priority", true)]), TaskOrderingFields, TaskDefaultOrdering)
         == [OrderTerm("priority", true)]
    ensures forall r: Option<seq<OrderTerm>>, t ::
              t in EffectiveOrdering(r, TaskOrderingFields, TaskDefaultOrdering) ==> t.field in TaskOrderingFields
  {
    assert [OrderTerm("title", false)][1..] == [];
    assert [OrderTerm("priority", true)][1..] == [];
  }

  /** Tags are listed by name, ascending, unless an allowed field is requested. */
  lemma TagOrderingDefaults()
    ensures EffectiveOrdering(None, TagOrderingFields, TagDefaultOrdering) == [OrderTerm("name", false)]
    ensures forall r: Option<seq<OrderTerm>>, t ::
              t in EffectiveOrdering(r, TagOrderingFields, TagDefaultOrdering) ==> t.field in TagOrderingFields
  {
  }

  /** The ids of the tasks with status `s`. */
  function TasksWithStatus(tasks: map<Id, Task>, s: Status): (r: set<Id>)
    ensures forall id :: id in r <==> id in tasks && tasks[id].status == s
  {
    set id | id in tasks && tasks[id].status == s
  }

  /** Every task is in exactly one of the three status listings. */
  lemma StatusListingsPartition(tasks: map<Id, Task>)
    ensures TasksWithStatus(tasks, Pending) + TasksWithStatus(tasks, InProgress)
            + TasksWithStatus(tasks, Completed) == tasks.Keys
    ensures TasksWithStatus(tasks, Pending) !! TasksWithStatus(tasks, InProgress)
    ensures TasksWithStatus(tasks, Pending) !! TasksWithStatus(tasks, Completed)
    ensures TasksWithStatus(tasks, InProgress) !! TasksWithStatus(tasks, Completed)
  {
  }

  /** A status listing as returned: each selected task in its detail representation. */
  function Listing(tasks: map<Id, Task>, tags: map<Id, Tag>, links: seq<Link>, s: Status)
    : (r: map<Id, TaskDetail>)
    requires ValidStore(tasks, tags, links)
    ensures forall id :: id in r <==> id in tasks && tasks[id].status == s
    ensures forall id :: id in r ==> r[id] == Detail(tasks[id], tags, links) && r[id].status == StatusCode(s)
  {
    map id | id in TasksWithStatus(tasks, s) :: Detail(tasks[id], tags, links)
  }

  /** The `pending` action. */
  function PendingListing(tasks: map<Id, Task>, tags: map<Id, Tag>, links: seq<Link>): (r: map<Id, TaskDetail>)
    requires ValidStore(tasks, tags, links)
    ensures forall id :: id in r <==> id in tasks && tasks[id].status == Pending
    ensures forall id :: id in r ==> r[id] == Detail(tasks[id], tags, links)
    ensures forall id :: id in r ==> r[id].status == "pending" && r[id].id == id
  {
    Listing(tasks, tags, links, Pending)
  }

  /** The `completed` action. */
  function CompletedListing(tasks: map<Id, Task>, tags: map<Id, Tag>, links: seq<Link>): (r: map<Id, TaskDetail>)
    requires ValidStore(tasks, tags, links)
    ensures forall id :: id in r <==> id in tasks && tasks[id].status == Completed
    ensures forall id :: id in r ==> r[id] == Detail(tasks[id], tags, links)
    ensures forall id :: id in r ==> r[id].status == "completed" && r[id].id == id
  {
    Listing(tasks, tags, links, Completed)
  }

  /** The completion transition: whatever the prior status, the task becomes
      completed, stamped with `now`, and is saved. */
  function MarkCompleted(t: Task, now: Time): (r: Task)
    ensures r.status == Completed && r.completedAt == Some(now) && r.base.updatedAt == now
  {
    Saved(t.(status := Completed, completedAt := Some(now)), now)
  }

  /** Completion touches nothing but the status and the two stamps. */
  lemma MarkCompletedChangesOnlyStatusAndStamps(t: Task, now: Time)
    ensures var r := MarkCompleted(t, now);
      && r.title == t.title && r.description == t.description && r.priority == t.priority
      && r.dueDate == t.dueDate && r.base.id == t.base.id && r.base.createdAt == t.base.createdAt
      && r.base.isActive == t.base.isActive
  {
  }

  /** Completing twice is completing once with the later stamp. */
  lemma MarkCompletedIdempotent(t: Task, first: Time, second: Time)
    ensures MarkCompleted(MarkCompleted(t, first), second) == MarkCompleted(t, second)
    ensures MarkCompleted(MarkCompleted(t, first), second).status == MarkCompleted(t, first).status
  {
  }

  /** Nothing ties `completed_at` to the status: a generic update back to
      pending keeps the completion stamp. */
  lemma CompletedAtSurvivesStatusChange(t: Task, now: Time)
    ensures var back := ApplyFields(MarkCompleted(t, now), map["status" := SetStatus(Pending)]);
      back.status == Pending && back.completedAt == Some(now)
  {
  }

  /** A completed task leaves the pending listing and joins the completed one;
      no other task moves. */
  lemma CompletionMovesOnlyThatTask(tasks: map<Id, Task>, id: Id, now: Time)
    requires id in tasks
    ensures var after := tasks[id := MarkCompleted(tasks[id], now)];
      && TasksWithStatus(after, Completed) == TasksWithStatus(tasks, Completed) + {id}
      && TasksWithStatus(after, Pending) == TasksWithStatus(tasks, Pending) - {id}
      && TasksWithStatus(after, InProgress) == TasksWithStatus(tasks, InProgress) - {id}
  {
  }

  /** The `complete` action: an unknown id is not found; otherwise the task
      is completed and returned in its detail representation. */
  method Complete(store: Store, id: Id, now: Time) returns (r: Result<TaskDetail>)
    requires store.Valid()
    modifies store
    ensures store.Valid()
    ensures store.tags == old(store.tags) && store.links == old(store.links) && store.nextId == old(store.nextId)
    ensures id !in old(store.tasks) ==> r == Err(NotFound) && store.tasks == old(store.tasks)
    ensures id in old(store.tasks) ==>
              && store.tasks == old(store.tasks)[id := MarkCompleted(old(store.tasks)[id], now)]
              && GetSerializerClass("complete") == TaskDetailSerializer
              && TagsResolve(id, store.tags, store.links)
              && r == Ok(Detail(store.tasks[id], store.tags, store.links))
  {
    if id !in store.tasks {
      return Err(NotFound);
    }
    store.tasks := store.tasks[id := MarkCompleted(store.tasks[id], now)];
    r := Ok(Detail(store.tasks[id], store.tags, store.links));
  }
}
