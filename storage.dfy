/** The record store: the task, tag and association tables, updated in
    place, with the uniqueness and cascade rules of the model declarations. */
module Storage {
  import opened Models

  class Store {
    var tasks: map<Id, Task>
    var tags: map<Id, Tag>
    var links: seq<Link>
    /** Every id handed out so far is below this one, so a new row's id is fresh. */
    var nextId: Id

    ghost predicate Valid()
      reads this
    {
      && ValidStore(tasks, tags, links)
      && (forall id :: id in tasks ==> id < nextId)
      && (forall id :: id in tags ==> id < nextId)
    }

    constructor ()
      ensures Valid()
      ensures tasks == map[] && tags == map[] && links == [] && nextId == 0
    {
      tasks, tags, links, nextId := map[], map[], [], 0;
    }

    /** Draws an id that no existing task or tag has. */
    method FreshId() returns (id: Id)
      requires Valid()
      modifies this`nextId
      ensures Valid()
      ensures id == old(nextId) && nextId == id + 1
      ensures id !in tasks && id !in tags
    {
      id := nextId;
      nextId := nextId + 1;
    }

    /** Creating a tag through the tag endpoint: the name must be present,
        at most 50 characters long and not used by any other tag. */
    method CreateTag(name: string, description: Option<string>, isActive: Option<bool>, now: Time)
      returns (r: Result<Id>)
      requires Valid()
      modifies this
      ensures Valid()
      ensures tasks == old(tasks) && links == old(links)
      ensures if 0 < |name| <= MaxTagNameLength && !NameTaken(old(tags), name) then
                && r == Ok(old(nextId)) && nextId == old(nextId) + 1
                && tags == old(tags)[old(nextId) := Tag(
                     Base(old(nextId), now, now, if isActive.Some? then isActive.value else true),
                     name, description)]
              else
                r == Err(ValidationError({"name"})) && tags == old(tags) && nextId == old(nextId)
    {
      if 0 < |name| <= MaxTagNameLength && !NameTaken(tags, name) {
        var id := FreshId();
        var active := if isActive.Some? then isActive.value else true;
        tags := tags[id := Tag(Base(id, now, now, active), name, description)];
        r := Ok(id);
      } else {
        r := Err(ValidationError({"name"}));
      }
    }

    /** Deleting a task cascades to its association rows; tags stay. */
    method DeleteTask(id: Id) returns (r: Result<Id>)
      requires Valid()
      modifies this
      ensures Valid()
      ensures tags == old(tags) && nextId == old(nextId)
      ensures if id in old(tasks) then
                r == Ok(id) && tasks == old(tasks) - {id} && links == WithoutTask(old(links), id)
              else
                r == Err(NotFound) && tasks == old(tasks) && links == old(links)
    {
      if id in tasks {
        KeepDistinct(links, (l: Link) => l.task != id);
        tasks := tasks - {id};
        links := WithoutTask(links, id);
        r := Ok(id);
      } else {
        r := Err(NotFound);
      }
    }

    /** Deleting a tag cascades to its association rows; tasks stay. */
    method DeleteTag(id: Id) returns (r: Result<Id>)
      requires Valid()
      modifies this
      ensures Valid()
      ensures tasks == old(tasks) && nextId == old(nextId)
      ensures if id in old(tags) then
                r == Ok(id) && tags == old(tags) - {id} && links == WithoutTag(old(links), id)
              else
                r == Err(NotFound) && tags == old(tags) && links == old(links)
    {
      if id in tags {
        KeepDistinct(links, (l: Link) => l.tag != id);
        tags := tags - {id};
        links := WithoutTag(links, id);
        r := Ok(id);
      } else {
        r := Err(NotFound);
      }
    }

    /** Inserting one association row; the store refuses a pair that is
        already present. */
    method InsertLink(task: Id, tag: Id) returns (ok: bool)
      requires Valid() && task in tasks && tag in tags
      modifies this`links
      ensures Valid()
      ensures ok == (Link(task, tag) !in old(links))
      ensures links == if ok then old(links) + [Link(task, tag)] else old(links)
    {
      ok := Link(task, tag) !in links;
      if ok {
        ghost var before := links;
        links := links + [Link(task, tag)];
        assert forall i :: 0 <= i < |before| ==> links[i] == before[i];
      }
    }
  }
}
