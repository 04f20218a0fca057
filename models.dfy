/** The entities of the task store and the constraints their declarations
    impose: the shared base fields, tags, tasks with their three-valued
    status, and the task/tag association rows. */
module Models {

  datatype Option<+T> = None | Some(value: T)

  /** Identifiers are abstract fresh values (UUIDs in the system). */
  type Id = nat

  /** Instants are supplied by the caller's clock. */
  type Time = int

  /** The outcomes a request can end in besides success. */
  datatype Error =
    | ValidationError(fields: set<string>)  // rejected input, by field name
    | NotFound                              // no row with the given id
    | IntegrityError                        // a (task, tag) pair inserted twice
    | AttributeError                        // a missing attribute was looked up

  datatype Result<+T> = Ok(value: T) | Err(error: Error)

  const MaxTitleLength := 200
  const MaxTagNameLength := 50
  const MaxStatusLength := 20

  /** The status choices of a task. */
  datatype Status = Pending | InProgress | Completed

  /** The stored value of each status choice. */
  function StatusCode(s: Status): (code: string)
    ensures 0 < |code| <= MaxStatusLength
  {
    match s
    case Pending => "pending"
    case InProgress => "in_progress"
    case Completed => "completed"
  }

  /** Reads a stored status value; only the three choices are accepted. */
  function ParseStatus(code: string): (r: Option<Status>)
    ensures r.Some? ==> StatusCode(r.value) == code
    ensures r.None? ==> forall s: Status :: StatusCode(s) != code
  {
    if code == "pending" then Some(Pending)
    else if code == "in_progress" then Some(InProgress)
    else if code == "completed" then Some(Completed)
    else None
  }

  lemma StatusCodeRoundTrip(s: Status)
    ensures ParseStatus(StatusCode(s)) == Some(s)
  {
  }

  /** The fields every entity carries. */
  datatype Base = Base(id: Id, createdAt: Time, updatedAt: Time, isActive: bool)

  /** The base fields of a row inserted at `now`. */
  function NewBase(id: Id, now: Time): Base {
    Base(id, now, now, true)
  }

  datatype Tag = Tag(base: Base, name: string, description: Option<string>)

  datatype Task = Task(
    base: Base,
    title: string,
    description: Option<string>,
    status: Status,
    priority: int,
    dueDate: Option<Time>,
    completedAt: Option<Time>)

  /** A task row before any supplied field is set: every field holds
      its declared default. */
  function NewTask(id: Id, now: Time): (r: Task)
    ensures r.base.id == id && r.base.createdAt == now && r.base.updatedAt == now && r.base.isActive
    ensures r.status == Pending && r.priority == 0 && r.completedAt == None
  {
    Task(NewBase(id, now), "", None, Pending, 0, None, None)
  }

  /** Saving a task row stamps its modification time. */
  function Saved(t: Task, now: Time): (r: Task)
    ensures r.base.updatedAt == now
    ensures r.(base := t.base) == t && r.base.(updatedAt := t.base.updatedAt) == t.base
  {
    t.(base := t.base.(updatedAt := now))
  }

  lemma NewTaskDefaults(id: Id, now: Time)
    ensures NewTask(id, now).status == Pending && NewTask(id, now).priority == 0
    ensures NewTask(id, now).dueDate == None && NewTask(id, now).completedAt == None
    ensures NewTask(id, now).description == None
    ensures NewTask(id, now).base == Base(id, now, now, true)
  {
  }

  /** An association row: one task, one tag. */
  datatype Link = Link(task: Id, tag: Id)

  predicate Distinct<T(==)>(s: seq<T>) {
    forall i, j :: 0 <= i < j < |s| ==> s[i] != s[j]
  }

  /** The tag ids of a task's association rows, in row order. */
  function TagIdsOf(links: seq<Link>, task: Id): (r: seq<Id>)
    ensures forall t :: t in r <==> Link(task, t) in links
    ensures |r| <= |links|
  {
    if links == [] then []
    else (if links[0].task == task then [links[0].tag] else []) + TagIdsOf(links[1..], task)
  }

  lemma {:induction false} TagIdsOfDistinct(links: seq<Link>, task: Id)
    requires Distinct(links)
    ensures Distinct(TagIdsOf(links, task))
  {
    if links != [] {
      assert Distinct(links[1..]) by {
        forall i, j | 0 <= i < j < |links[1..]| ensures links[1..][i] != links[1..][j] {
          assert links[1..][i] == links[i + 1] && links[1..][j] == links[j + 1];
        }
      }
      TagIdsOfDistinct(links[1..], task);
      var rest := TagIdsOf(links[1..], task);
      if links[0].task == task {
        assert links[0].tag !in rest;
        assert TagIdsOf(links, task) == [links[0].tag] + rest;
      } else {
        assert TagIdsOf(links, task) == rest;
      }
    }
  }

  lemma {:induction false} TagIdsOfConcat(a: seq<Link>, b: seq<Link>, task: Id)
    ensures TagIdsOf(a + b, task) == TagIdsOf(a, task) + TagIdsOf(b, task)
  {
    if a == [] {
      assert a + b == b;
    } else {
      var head := if a[0].task == task then [a[0].tag] else [];
      assert (a + b)[0] == a[0];
      assert (a + b)[1..] == a[1..] + b;
      TagIdsOfConcat(a[1..], b, task);
      calc {
        TagIdsOf(a + b, task);
        head + TagIdsOf(a[1..] + b, task);
        head + (TagIdsOf(a[1..], task) + TagIdsOf(b, task));
        (head + TagIdsOf(a[1..], task)) + TagIdsOf(b, task);
      }
    }
  }

  lemma {:induction false} TagIdsOfNone(links: seq<Link>, task: Id)
    requires forall l :: l in links ==> l.task != task
    ensures TagIdsOf(links, task) == []
  {
    if links != [] {
      TagIdsOfNone(links[1..], task);
    }
  }

  /** The association rows of `task` for the tag ids `s`, in that order. */
  function Rows(task: Id, s: seq<Id>): (r: seq<Link>)
    ensures |r| == |s| && forall i :: 0 <= i < |s| ==> r[i] == Link(task, s[i])
  {
    seq(|s|, i requires 0 <= i < |s| => Link(task, s[i]))
  }

  lemma {:induction false} TagIdsOfRows(task: Id, s: seq<Id>, other: Id)
    ensures TagIdsOf(Rows(task, s), task) == s
    ensures other != task ==> TagIdsOf(Rows(task, s), other) == []
  {
    if s != [] {
      assert Rows(task, s)[1..] == Rows(task, s[1..]);
      TagIdsOfRows(task, s[1..], other);
    }
  }

  /** The rows of `links` that satisfy `keep`, in order. */
  function Keep(links: seq<Link>, keep: Link -> bool): (r: seq<Link>)
    ensures forall l :: l in r <==> l in links && keep(l)
    ensures |r| <= |links|
  {
    if links == [] then []
    else (if keep(links[0]) then [links[0]] else []) + Keep(links[1..], keep)
  }

  lemma {:induction false} KeepDistinct(links: seq<Link>, keep: Link -> bool)
    requires Distinct(links)
    ensures Distinct(Keep(links, keep))
  {
    if links != [] {
      assert Distinct(links[1..]) by {
        forall i, j | 0 <= i < j < |links[1..]| ensures links[1..][i] != links[1..][j] {
          assert links[1..][i] == links[i + 1] && links[1..][j] == links[j + 1];
        }
      }
      KeepDistinct(links[1..], keep);
      var rest := Keep(links[1..], keep);
      if keep(links[0]) {
        assert links[0] !in rest;
        assert Keep(links, keep) == [links[0]] + rest;
      } else {
        assert Keep(links, keep) == rest;
      }
    }
  }

  /** Filtering rows that never drops a row of `task` leaves the tag ids of
      `task` exactly as they were, order included. */
  lemma {:induction false} TagIdsOfKeep(links: seq<Link>, keep: Link -> bool, task: Id)
    requires forall t: Id :: keep(Link(task, t))
    ensures TagIdsOf(Keep(links, keep), task) == TagIdsOf(links, task)
  {
    if links != [] {
      TagIdsOfKeep(links[1..], keep, task);
      if keep(links[0]) {
        assert Keep(links, keep) == [links[0]] + Keep(links[1..], keep);
        assert ([links[0]] + Keep(links[1..], keep))[1..] == Keep(links[1..], keep);
      } else {
        assert links[0].task != task;
        assert Keep(links, keep) == Keep(links[1..], keep);
      }
    }
  }

  /** The rows left when a task is deleted: cascading delete of the rows
      that reference it. */
  function WithoutTask(links: seq<Link>, task: Id): (r: seq<Link>)
    ensures forall l :: l in r <==> l in links && l.task != task
  {
    Keep(links, (l: Link) => l.task != task)
  }

  /** The rows left when a tag is deleted: cascading delete of the rows
      that reference it. */
  function WithoutTag(links: seq<Link>, tag: Id): (r: seq<Link>)
    ensures forall l :: l in r <==> l in links && l.tag != tag
  {
    Keep(links, (l: Link) => l.tag != tag)
  }

  lemma WithoutTaskKeepsOthers(links: seq<Link>, task: Id, other: Id)
    requires other != task
    ensures TagIdsOf(WithoutTask(links, task), other) == TagIdsOf(links, other)
    ensures TagIdsOf(WithoutTask(links, task), task) == []
  {
    TagIdsOfKeep(links, (l: Link) => l.task != task, other);
    TagIdsOfNone(WithoutTask(links, task), task);
  }

  /** True when some tag row already carries `name`. */
  predicate NameTaken(tags: map<Id, Tag>, name: string) {
    exists id :: id in tags && tags[id].name == name
  }

  /** What the model declarations guarantee of the stored rows. */
  ghost predicate ValidStore(tasks: map<Id, Task>, tags: map<Id, Tag>, links: seq<Link>) {
    // a row's id is its primary key
    && (forall id :: id in tasks ==> tasks[id].base.id == id)
    && (forall id :: id in tags ==> tags[id].base.id == id)
    // tag names are present, bounded and unique
    && (forall id :: id in tags ==> 0 < |tags[id].name| <= MaxTagNameLength)
    && (forall a, b :: a in tags && b in tags && tags[a].name == tags[b].name ==> a == b)
    // association rows reference existing rows and no pair occurs twice
    && (forall l :: l in links ==> l.task in tasks && l.tag in tags)
    && Distinct(links)
  }

  /** In a valid store, a task's tag list names only existing tags, has no
      repeats, and is empty for a task that does not exist. */
  lemma ValidStoreTagLists(tasks: map<Id, Task>, tags: map<Id, Tag>, links: seq<Link>, task: Id)
    requires ValidStore(tasks, tags, links)
    ensures forall t :: t in TagIdsOf(links, task) ==> t in tags
    ensures Distinct(TagIdsOf(links, task))
    ensures task !in tasks ==> TagIdsOf(links, task) == []
  {
    TagIdsOfDistinct(links, task);
    if task !in tasks {
      TagIdsOfNone(links, task);
    }
  }
}
