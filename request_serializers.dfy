/** The write serializer for tasks: validation of the supplied fields,
    creation with one association row per supplied tag id up to the first
    repeated id, and update, which sets the supplied attributes and, when
    tag ids are supplied, is meant to replace the task's association rows
    by rows for those ids. As written, update names an accessor that does
    not exist and fails instead (`UpdateAsWritten`); `Update` is the
    intended behaviour. */
module RequestSerializers {
  import opened Models
  import opened Storage
  import opened Serializers

  const WriteFields := ["id", "title", "description", "status", "priority",
                        "tag_ids", "is_active", "due_date", "created_at", "updated_at"]
  const WriteReadOnlyFields := ["id", "created_at", "updated_at"]

  /** The task attributes the serializer sets: its writable fields other than `tag_ids`. */
  const Attributes := {"title", "description", "status", "priority", "is_active", "due_date"}

  /** A validated value for one task attribute. */
  datatype FieldValue =
    | SetTitle(title: string)
    | SetDescription(description: Option<string>)
    | SetStatus(status: Status)
    | SetPriority(priority: int)
    | SetIsActive(isActive: bool)
    | SetDueDate(dueDate: Option<Time>)

  /** The name of the attribute a value is for. */
  function Attribute(f: FieldValue): string {
    match f
    case SetTitle(_) => "title"
    case SetDescription(_) => "description"
    case SetStatus(_) => "status"
    case SetPriority(_) => "priority"
    case SetIsActive(_) => "is_active"
    case SetDueDate(_) => "due_date"
  }

  lemma AttributesAreTheWritableFields(f: FieldValue)
    ensures Attribute(f) in WriteFields && Attribute(f) !in WriteReadOnlyFields
    ensures Attribute(f) in Attributes && Attribute(f) != "tag_ids"
    ensures "completed_at" !in WriteFields
  {
  }

  /** Validated data: one value per supplied attribute, keyed by its name. */
  predicate WellFormed(data: map<string, FieldValue>) {
    forall k :: k in data ==> Attribute(data[k]) == k
  }

  /** The value of attribute `name` of a task, if it is one the serializer sets. */
  function Current(t: Task, name: string): Option<FieldValue> {
    if name == "title" then Some(SetTitle(t.title))
    else if name == "description" then Some(SetDescription(t.description))
    else if name == "status" then Some(SetStatus(t.status))
    else if name == "priority" then Some(SetPriority(t.priority))
    else if name == "is_active" then Some(SetIsActive(t.base.isActive))
    else if name == "due_date" then Some(SetDueDate(t.dueDate))
    else None
  }

  /** `setattr(instance, attr, value)` for one attribute. */
  function SetAttribute(t: Task, f: FieldValue): Task {
    match f
    case SetTitle(x) => t.(title := x)
    case SetDescription(x) => t.(description := x)
    case SetStatus(x) => t.(status := x)
    case SetPriority(x) => t.(priority := x)
    case SetIsActive(x) => t.(base := t.base.(isActive := x))
    case SetDueDate(x) => t.(dueDate := x)
  }

  /** The task with every supplied attribute set, all at once. */
  function ApplyFields(t: Task, data: map<string, FieldValue>): (r: Task)
    ensures r.base.id == t.base.id && r.base.createdAt == t.base.createdAt
    ensures r.base.updatedAt == t.base.updatedAt && r.completedAt == t.completedAt
  {
    Task(
      t.base.(isActive := if "is_active" in data && data["is_active"].SetIsActive?
                          then data["is_active"].isActive else t.base.isActive),
      if "title" in data && data["title"].SetTitle? then data["title"].title else t.title,
      if "description" in data && data["description"].SetDescription?
        then data["description"].description else t.description,
      if "status" in data && data["status"].SetStatus? then data["status"].status else t.status,
      if "priority" in data && data["priority"].SetPriority? then data["priority"].priority else t.priority,
      if "due_date" in data && data["due_date"].SetDueDate? then data["due_date"].dueDate else t.dueDate,
      t.completedAt)
  }

  /** A supplied attribute takes the supplied value. */
  lemma ApplyFieldsSetsSupplied(t: Task, data: map<string, FieldValue>, name: string)
    requires WellFormed(data) && name in data
    ensures Current(ApplyFields(t, data), name) == Some(data[name])
  {
  }

  /** An attribute that was not supplied keeps its old value. */
  lemma ApplyFieldsKeepsOthers(t: Task, data: map<string, FieldValue>, name: string)
    requires name !in data
    ensures Current(ApplyFields(t, data), name) == Current(t, name)
  {
  }

  lemma ApplyFieldsExtend(t: Task, done: map<string, FieldValue>, f: FieldValue)
    requires WellFormed(done) && Attribute(f) !in done
    ensures SetAttribute(ApplyFields(t, done), f) == ApplyFields(t, done[Attribute(f) := f])
  {
  }

  /** The loop that sets each validated attribute on the instance in turn. */
  method SetAttributes(t: Task, data: map<string, FieldValue>) returns (r: Task)
    requires WellFormed(data)
    ensures r == ApplyFields(t, data)
  {
    r := t;
    var pending := data.Keys;
    assert data - pending == map[];
    while pending != {}
      invariant pending <= data.Keys
      invariant r == ApplyFields(t, data - pending)
      decreases pending
    {
      var k :| k in pending;
      ApplyFieldsExtend(t, data - pending, data[k]);
      assert (data - pending)[k := data[k]] == data - (pending - {k});
      r := SetAttribute(r, data[k]);
      pending := pending - {k};
    }
    assert data - pending == data;
  }

  /** A supplied field as it arrives in the request. */
  datatype RawValue = Text(text: string) | Number(number: int) | Flag(flag: bool) | Moment(moment: Time) | Null

  /** Field-level validation of one supplied attribute. */
  function ParseField(name: string, v: RawValue): (r: Option<FieldValue>)
    ensures r.Some? ==> Attribute(r.value) == name
    ensures name !in Attributes ==> r.None?
    ensures name == "title" ==> (r.Some? <==> v.Text? && 0 < |v.text| <= MaxTitleLength)
    ensures r.Some? && name == "title" ==> r.value == SetTitle(v.text) && 0 < |r.value.title| <= MaxTitleLength
    ensures name == "description" ==> (r.Some? <==> v.Text? || v.Null?)
    ensures r.Some? && name == "description" ==> r.value.description == (if v.Text? then Some(v.text) else None)
    ensures name == "status" ==> (r.Some? <==> v.Text? && ParseStatus(v.text).Some?)
    ensures r.Some? && name == "status" ==> StatusCode(r.value.status) == v.text
    ensures name == "priority" ==> (r.Some? <==> v.Number?)
    ensures r.Some? && name == "priority" ==> r.value == SetPriority(v.number)
    ensures name == "is_active" ==> (r.Some? <==> v.Flag?)
    ensures r.Some? && name == "is_active" ==> r.value == SetIsActive(v.flag)
    ensures name == "due_date" ==> (r.Some? <==> v.Moment? || v.Null?)
    ensures r.Some? && name == "due_date" ==> r.value.dueDate == (if v.Moment? then Some(v.moment) else None)
  {
    match v
    case Text(s) =>
      if name == "title" then (if 0 < |s| <= MaxTitleLength then Some(SetTitle(s)) else None)
      else if name == "description" then Some(SetDescription(Some(s)))
      else if name == "status" then
        (match ParseStatus(s) case Some(st) => Some(SetStatus(st)) case None => None)
      else None
    case Number(n) => if name == "priority" then Some(SetPriority(n)) else None
    case Flag(b) => if name == "is_active" then Some(SetIsActive(b)) else None
    case Moment(m) => if name == "due_date" then Some(SetDueDate(Some(m))) else None
    case Null =>
      if name == "description" then Some(SetDescription(None))
      else if name == "due_date" then Some(SetDueDate(None))
      else None
  }

  /** The names of the supplied fields the serializer rejects. Fields that
      are not attributes (read-only or unknown) are ignored; `title` is
      required unless the update is partial; every tag id must name a tag. */
  function FieldErrors(data: map<string, RawValue>, tagIds: Option<seq<Id>>, partial: bool, tagKeys: set<Id>): set<string> {
    (set k | k in data && k in Attributes && ParseField(k, data[k]).None?)
    + (if !partial && "title" !in data then {"title"} else {})
    + (if tagIds.Some? && exists t :: t in tagIds.value && t !in tagKeys then {"tag_ids"} else {})
  }

  /** The data handed to create and update, with `tag_ids` absent or supplied. */
  datatype Validated = Validated(fields: map<string, FieldValue>, tagIds: Option<seq<Id>>)

  function Validate(data: map<string, RawValue>, tagIds: Option<seq<Id>>, partial: bool, tagKeys: set<Id>)
    : (r: Result<Validated>)
    ensures r.Err? <==> FieldErrors(data, tagIds, partial, tagKeys) != {}
    ensures r.Err? ==> r.error == ValidationError(FieldErrors(data, tagIds, partial, tagKeys))
    ensures r.Ok? ==> WellFormed(r.value.fields) && r.value.tagIds == tagIds
    ensures r.Ok? ==> r.value.fields.Keys == data.Keys * Attributes
    ensures r.Ok? ==> forall k :: k in r.value.fields ==> ParseField(k, data[k]) == Some(r.value.fields[k])
    ensures r.Ok? && !partial ==> "title" in r.value.fields
    ensures r.Ok? && tagIds.Some? ==> forall t :: t in tagIds.value ==> t in tagKeys
  {
    var errors := FieldErrors(data, tagIds, partial, tagKeys);
    if errors != {} then Err(ValidationError(errors))
    else
      var fields := map k | k in data && k in Attributes && ParseField(k, data[k]).Some? :: ParseField(k, data[k]).value;
      assert fields.Keys == data.Keys * Attributes by {
        forall k | k in data && k in Attributes ensures k in fields {
          assert k !in errors;
        }
      }
      Ok(Validated(fields, tagIds))
  }

  /** The association-insert loop as written: one row per id in order,
      stopping at the first pair the store already holds. */
  function InsertLinks(links: seq<Link>, task: Id, tagIds: seq<Id>): (r: (seq<Link>, bool))
    ensures links <= r.0 && |r.0| <= |links| + |tagIds|
    ensures forall l :: l in r.0 ==> l in links || (l.task == task && l.tag in tagIds)
    ensures r.1 ==> |r.0| == |links| + |tagIds|
    decreases |tagIds|
  {
    if tagIds == [] then (links, true)
    else if Link(task, tagIds[0]) in links then (links, false)
    else InsertLinks(links + [Link(task, tagIds[0])], task, tagIds[1..])
  }

  /** The first position from `j` on whose id occurs earlier, or |s|. */
  function FirstRepeatFrom(s: seq<Id>, j: nat): (k: nat)
    requires j <= |s|
    ensures j <= k <= |s|
    decreases |s| - j
  {
    if j == |s| then |s|
    else if s[j] in s[..j] then j
    else FirstRepeatFrom(s, j + 1)
  }

  lemma {:induction false} FirstRepeatFromSpec(s: seq<Id>, j: nat)
    requires j <= |s| && Distinct(s[..j])
    ensures Distinct(s[..FirstRepeatFrom(s, j)])
    ensures FirstRepeatFrom(s, j) == |s| <==> Distinct(s)
    decreases |s| - j
  {
    if j == |s| {
      assert s[..j] == s;
    } else if s[j] in s[..j] {
      var i :| 0 <= i < j && s[..j][i] == s[j];
      assert s[i] == s[j];
    } else {
      var longer := s[..j + 1];
      assert Distinct(longer) by {
        forall a, b | 0 <= a < b < j + 1 ensures longer[a] != longer[b] {
          if b < j {
            assert s[..j][a] == s[a] && s[..j][b] == s[b];
          } else {
            assert s[..j][a] == s[a];
          }
        }
      }
      FirstRepeatFromSpec(s, j + 1);
    }
  }

  /** The length of the longest duplicate-free prefix of `s`. */
  function FirstRepeat(s: seq<Id>): (k: nat)
    ensures k <= |s| && Distinct(s[..k])
    ensures k == |s| <==> Distinct(s)
  {
    assert s[..0] == [];
    FirstRepeatFromSpec(s, 0);
    FirstRepeatFrom(s, 0)
  }

  lemma {:induction false} InsertLinksFrom(links: seq<Link>, task: Id, ids: seq<Id>, j: nat)
    requires forall l :: l in links ==> l.task != task
    requires j <= |ids|
    ensures InsertLinks(links + Rows(task, ids[..j]), task, ids[j..])
         == (links + Rows(task, ids[..FirstRepeatFrom(ids, j)]), FirstRepeatFrom(ids, j) == |ids|)
    decreases |ids| - j
  {
    var acc := links + Rows(task, ids[..j]);
    if j == |ids| {
      assert ids[j..] == [];
      assert ids[..j] == ids;
    } else {
      assert ids[j..][0] == ids[j] && ids[j..][1..] == ids[j + 1..];
      assert Link(task, ids[j]) in acc <==> ids[j] in ids[..j] by {
        if Link(task, ids[j]) in acc {
          assert Link(task, ids[j]) !in links;
          var i :| 0 <= i < |acc| && acc[i] == Link(task, ids[j]);
          assert acc[i] == Rows(task, ids[..j])[i - |links|];
          assert ids[..j][i - |links|] == ids[j];
        }
        if ids[j] in ids[..j] {
          var i :| 0 <= i < j && ids[..j][i] == ids[j];
          assert acc[|links| + i] == Link(task, ids[j]);
        }
      }
      if ids[j] !in ids[..j] {
        assert ids[..j + 1] == ids[..j] + [ids[j]];
        assert Rows(task, ids[..j + 1]) == Rows(task, ids[..j]) + [Link(task, ids[j])];
        assert acc + [Link(task, ids[j])] == links + Rows(task, ids[..j + 1]);
        InsertLinksFrom(links, task, ids, j + 1);
      }
    }
  }

  /** When the task has no rows yet, the loop leaves rows for the longest
      duplicate-free prefix of the ids, and reports success exactly when the
      ids have no duplicate; rows inserted before a duplicate stay. */
  lemma InsertLinksOutcome(links: seq<Link>, task: Id, ids: seq<Id>)
    requires forall l :: l in links ==> l.task != task
    ensures InsertLinks(links, task, ids).0 == links + Rows(task, ids[..FirstRepeat(ids)])
    ensures InsertLinks(links, task, ids).1 <==> Distinct(ids)
    ensures TagIdsOf(InsertLinks(links, task, ids).0, task) == ids[..FirstRepeat(ids)]
    ensures Distinct(ids) ==> TagIdsOf(InsertLinks(links, task, ids).0, task) == ids
    ensures forall u :: u != task ==> TagIdsOf(InsertLinks(links, task, ids).0, u) == TagIdsOf(links, u)
  {
    assert ids[..0] == [] && ids[0..] == ids;
    assert links + Rows(task, ids[..0]) == links;
    InsertLinksFrom(links, task, ids, 0);
    var prefix := ids[..FirstRepeat(ids)];
    TagIdsOfConcat(links, Rows(task, prefix), task);
    TagIdsOfNone(links, task);
    TagIdsOfRows(task, prefix, task);
    assert Distinct(ids) ==> prefix == ids;
    forall u | u != task
      ensures TagIdsOf(InsertLinks(links, task, ids).0, u) == TagIdsOf(links, u)
    {
      TagIdsOfConcat(links, Rows(task, prefix), u);
      TagIdsOfRows(task, prefix, u);
    }
  }

  /** The association rows after update, and whether it succeeded: absent
      ids leave the rows alone; supplied ids delete this task's rows and
      insert rows for the ids. */
  function ReplaceLinks(links: seq<Link>, task: Id, tagIds: Option<seq<Id>>): (r: (seq<Link>, bool))
    ensures tagIds.None? ==> r == (links, true)
    ensures forall l: Link :: l.task != task ==> (l in r.0 <==> l in links)
    ensures tagIds.Some? ==> forall l :: l in r.0 && l.task == task ==> l.tag in tagIds.value
  {
    match tagIds
    case None => (links, true)
    case Some(ids) => InsertLinks(WithoutTask(links, task), task, ids)
  }

  lemma ReplaceLinksOutcome(links: seq<Link>, task: Id, tagIds: Option<seq<Id>>)
    ensures tagIds.None? ==> ReplaceLinks(links, task, tagIds) == (links, true)
    ensures tagIds.Some? ==>
              && (ReplaceLinks(links, task, tagIds).1 <==> Distinct(tagIds.value))
              && TagIdsOf(ReplaceLinks(links, task, tagIds).0, task) == tagIds.value[..FirstRepeat(tagIds.value)]
    ensures tagIds.Some? && Distinct(tagIds.value) ==> TagIdsOf(ReplaceLinks(links, task, tagIds).0, task) == tagIds.value
    ensures tagIds == Some([]) ==> ReplaceLinks(links, task, tagIds).1 && TagIdsOf(ReplaceLinks(links, task, tagIds).0, task) == []
    ensures forall u :: u != task ==> TagIdsOf(ReplaceLinks(links, task, tagIds).0, u) == TagIdsOf(links, u)
  {
    if tagIds.Some? {
      var rest := WithoutTask(links, task);
      InsertLinksOutcome(rest, task, tagIds.value);
      forall u | u != task ensures TagIdsOf(rest, u) == TagIdsOf(links, u) {
        WithoutTaskKeepsOthers(links, task, u);
      }
    }
  }

  /** The association rows after update as written, and whether it
      succeeded: looking up the misspelt accessor fails before any row is
      touched. */
  function ReplaceLinksAsWritten(links: seq<Link>, task: Id, tagIds: Option<seq<Id>>): (r: (seq<Link>, bool))
    ensures r.0 == links
    ensures r.1 <==> tagIds.None?
  {
    match tagIds
    case None => (links, true)
    case Some(_) => (links, false)
  }

  /** A task with one tag, updated with an empty id list: as written the tag
      stays attached and the request fails; the intended update clears it. */
  lemma AccessorNameCounterexample()
    ensures ReplaceLinksAsWritten([Link(0, 1)], 0, Some([])) == ([Link(0, 1)], false)
    ensures TagIdsOf(ReplaceLinksAsWritten([Link(0, 1)], 0, Some([])).0, 0) == [1]
    ensures ReplaceLinks([Link(0, 1)], 0, Some([])) == ([], true)
  {
    assert [Link(0, 1)][1..] == [];
    assert WithoutTask([Link(0, 1)], 0) == [];
  }

  /** The loop that inserts one association row per tag id. */
  method AttachTags(store: Store, task: Id, tagIds: seq<Id>) returns (ok: bool)
    requires store.Valid() && task in store.tasks
    requires forall t :: t in tagIds ==> t in store.tags
    modifies store`links
    ensures store.Valid()
    ensures (store.links, ok) == InsertLinks(old(store.links), task, tagIds)
  {
    var i := 0;
    while i < |tagIds|
      invariant 0 <= i <= |tagIds|
      invariant store.Valid()
      invariant InsertLinks(store.links, task, tagIds[i..]) == InsertLinks(old(store.links), task, tagIds)
    {
      assert tagIds[i..][0] == tagIds[i] && tagIds[i..][1..] == tagIds[i + 1..];
      ok := store.InsertLink(task, tagIds[i]);
      if !ok {
        return;
      }
      i := i + 1;
    }
    assert tagIds[i..] == [];
    ok := true;
  }

  /** Inserting the task row of a create: a fresh id, the supplied
      attributes over the defaults, and as yet no association rows. */
  method InsertTask(store: Store, fields: map<string, FieldValue>, now: Time) returns (id: Id)
    requires store.Valid() && WellFormed(fields)
    modifies store`tasks, store`nextId
    ensures store.Valid()
    ensures id == old(store.nextId) && id !in old(store.tasks) && store.nextId == id + 1
    ensures store.tasks == old(store.tasks)[id := ApplyFields(NewTask(id, now), fields)]
    ensures TagIdsOf(store.links, id) == []
  {
    ValidStoreTagLists(store.tasks, store.tags, store.links, store.nextId);
    id := store.FreshId();
    var t := SetAttributes(NewTask(id, now), fields);
    store.tasks := store.tasks[id := t];
  }

  /** Creating a task: the row is inserted with the supplied attributes over
      the defaults, then one association row per supplied tag id. A repeated
      id makes the store refuse that row; the task and the rows inserted
      before it remain. */
  method Create(store: Store, data: Validated, now: Time) returns (r: Result<Id>)
    requires store.Valid() && WellFormed(data.fields)
    requires data.tagIds.Some? ==> forall t :: t in data.tagIds.value ==> t in store.tags
    modifies store
    ensures store.Valid()
    ensures store.tasks == old(store.tasks)[old(store.nextId) := ApplyFields(NewTask(old(store.nextId), now), data.fields)]
    ensures store.tags == old(store.tags) && store.nextId == old(store.nextId) + 1
    ensures old(store.nextId) !in old(store.tasks)
    ensures (store.links, r.Ok?) == InsertLinks(old(store.links), old(store.nextId), if data.tagIds.Some? then data.tagIds.value else [])
    ensures r == if r.Ok? then Ok(old(store.nextId)) else Err(IntegrityError)
    ensures data.tagIds.None? ==> r.Ok? && store.links == old(store.links)
    ensures data.tagIds.None? ==> TagIdsOf(store.links, old(store.nextId)) == []
    ensures data.tagIds.Some? ==> (r.Ok? <==> Distinct(data.tagIds.value))
    ensures data.tagIds.Some? ==> TagIdsOf(store.links, old(store.nextId)) == data.tagIds.value[..FirstRepeat(data.tagIds.value)]
    ensures forall u :: u != old(store.nextId) ==> TagIdsOf(store.links, u) == TagIdsOf(old(store.links), u)
  {
    var tagIds := if data.tagIds.Some? then data.tagIds.value else [];
    var id := InsertTask(store, data.fields, now);
    InsertLinksOutcome(store.links, id, tagIds);
    var ok := AttachTags(store, id, tagIds);
    r := if ok then Ok(id) else Err(IntegrityError);
  }

  /** The association part of update: when tag ids are supplied (even
      none), the task's rows are deleted and rows for the ids inserted. */
  method ReplaceTags(store: Store, id: Id, tagIds: Option<seq<Id>>) returns (ok: bool)
    requires store.Valid() && id in store.tasks
    requires tagIds.Some? ==> forall t :: t in tagIds.value ==> t in store.tags
    modifies store`links
    ensures store.Valid()
    ensures (store.links, ok) == ReplaceLinks(old(store.links), id, tagIds)
  {
    if tagIds.Some? {
      KeepDistinct(store.links, (l: Link) => l.task != id);
      store.links := WithoutTask(store.links, id);
      ok := AttachTags(store, id, tagIds.value);
    } else {
      ok := true;
    }
  }

  /** Updating a task: the supplied attributes are set and the row saved;
      then, when tag ids are supplied (even none), the task's association
      rows are deleted and rows for the ids inserted, with the same
      non-atomic failure on a repeated id as creation. */
  method Update(store: Store, id: Id, data: Validated, now: Time) returns (r: Result<Id>)
    requires store.Valid() && id in store.tasks && WellFormed(data.fields)
    requires data.tagIds.Some? ==> forall t :: t in data.tagIds.value ==> t in store.tags
    modifies store
    ensures store.Valid()
    ensures store.tasks == old(store.tasks)[id := Saved(ApplyFields(old(store.tasks)[id], data.fields), now)]
    ensures store.tags == old(store.tags) && store.nextId == old(store.nextId)
    ensures (store.links, r.Ok?) == ReplaceLinks(old(store.links), id, data.tagIds)
    ensures r == if r.Ok? then Ok(id) else Err(IntegrityError)
    ensures data.tagIds.None? ==> r.Ok? && store.links == old(store.links)
    ensures data.tagIds.Some? ==> (r.Ok? <==> Distinct(data.tagIds.value))
    ensures data.tagIds.Some? ==> TagIdsOf(store.links, id) == data.tagIds.value[..FirstRepeat(data.tagIds.value)]
    ensures forall u :: u != id ==> TagIdsOf(store.links, u) == TagIdsOf(old(store.links), u)
  {
    ReplaceLinksOutcome(store.links, id, data.tagIds);
    var t := SetAttributes(store.tasks[id], data.fields);
    store.tasks := store.tasks[id := Saved(t, now)];
    var ok := ReplaceTags(store, id, data.tagIds);
    r := if ok then Ok(id) else Err(IntegrityError);
  }

  /** Update as written: the attributes are set and saved, then the lookup
      of the association accessor fails whenever tag ids are supplied, so the
      rows never change and the request ends in an error. */
  method UpdateAsWritten(store: Store, id: Id, data: Validated, now: Time) returns (r: Result<Id>)
    requires store.Valid() && id in store.tasks && WellFormed(data.fields)
    modifies store
    ensures store.Valid()
    ensures store.tasks == old(store.tasks)[id := Saved(ApplyFields(old(store.tasks)[id], data.fields), now)]
    ensures store.tags == old(store.tags) && store.nextId == old(store.nextId)
    ensures (store.links, r.Ok?) == ReplaceLinksAsWritten(old(store.links), id, data.tagIds)
    ensures r == if data.tagIds.Some? then Err(AttributeError) else Ok(id)
  {
    var t := SetAttributes(store.tasks[id], data.fields);
    store.tasks := store.tasks[id := Saved(t, now)];
    if data.tagIds.Some? {
      r := Err(AttributeError);
    } else {
      r := Ok(id);
    }
  }
}
