/** A client of the contracts: a task created with two tags, retagged
    through an update, cleared, and completed. */
module Scenario {
  import opened Models
  import opened Storage
  import opened Serializers
  import opened RequestSerializers
  import opened Viewsets

  /** Three tags; a fourth with a taken name is refused. */
  method ThreeTags(now: Time) returns (store: Store)
    ensures fresh(store) && store.Valid()
    ensures store.tags.Keys == {0, 1, 2} && store.tasks == map[] && store.links == [] && store.nextId == 3
  {
    store := new Store();
    var r1 := store.CreateTag("urgent", None, None, now);
    assert r1 == Ok(0) && store.tags.Keys == {0};
    assert !NameTaken(store.tags, "home") by {
      assert store.tags[0].name == "urgent" != "home";
    }
    var r2 := store.CreateTag("home", None, None, now);
    assert r2 == Ok(1) && store.tags.Keys == {0, 1};
    assert !NameTaken(store.tags, "work") by {
      assert store.tags[0].name == "urgent" != "work";
      assert store.tags[1].name == "home" != "work";
    }
    var r3 := store.CreateTag("work", None, None, now);
    assert r3 == Ok(2);
    assert NameTaken(store.tags, "home") by {
      assert store.tags[1].name == "home";
    }
    var again := store.CreateTag("home", None, None, now);
    assert again == Err(ValidationError({"name"}));
  }

  /** Created with tags 0 and 1. */
  method CreateReport(store: Store, now: Time)
    requires store.Valid() && store.tags.Keys == {0, 1, 2} && store.tasks == map[] && store.nextId == 3
    modifies store
    ensures store.Valid() && store.tasks.Keys == {3} && store.tags.Keys == {0, 1, 2}
    ensures TagIdsOf(store.links, 3) == [0, 1]
    ensures store.tasks[3].status == Pending && store.tasks[3].completedAt == None
  {
    var data := map["title" := SetTitle("Write report")];
    assert WellFormed(data);
    assert Distinct([0, 1]);
    var created := Create(store, Validated(data, Some([0, 1])), now);
    assert [0, 1][..FirstRepeat([0, 1])] == [0, 1];
  }

  /** Retagged from 0 and 1 to 1 and 2. */
  method Retag(store: Store, now: Time)
    requires store.Valid() && store.tasks.Keys == {3} && store.tags.Keys == {0, 1, 2}
    modifies store
    ensures store.Valid() && store.tasks.Keys == {3} && TagIdsOf(store.links, 3) == [1, 2]
  {
    assert Distinct([1, 2]);
    var updated := Update(store, 3, Validated(map[], Some([1, 2])), now);
    assert [1, 2][..FirstRepeat([1, 2])] == [1, 2];
  }

  /** The request body of the task above passes validation. */
  lemma ReportRequestIsValid(tagKeys: set<Id>)
    requires 0 in tagKeys && 1 in tagKeys
    ensures Validate(map["title" := Text("Write report")], Some([0, 1]), false, tagKeys)
         == Ok(Validated(map["title" := SetTitle("Write report")], Some([0, 1])))
  {
    var data := map["title" := Text("Write report")];
    assert FieldErrors(data, Some([0, 1]), false, tagKeys) == {};
    var r := Validate(data, Some([0, 1]), false, tagKeys);
    assert r.value.fields.Keys == {"title"};
    assert ParseField("title", Text("Write report")) == Some(SetTitle("Write report"));
    assert r.value.fields["title"] == SetTitle("Write report");
    assert r.value.fields == map["title" := SetTitle("Write report")];
    assert r.value == Validated(map["title" := SetTitle("Write report")], Some([0, 1]));
  }

  /** An update without tag ids keeps them; an empty list clears them;
      completion reports the completed task. */
  method KeepClearComplete(store: Store, now: Time)
    requires store.Valid() && store.tasks.Keys == {3} && TagIdsOf(store.links, 3) == [1, 2]
    modifies store
  {
    var untouched := Update(store, 3, Validated(map["priority" := SetPriority(2)], None), now);
    assert untouched == Ok(3);
    assert TagIdsOf(store.links, 3) == [1, 2];
    assert store.tasks[3].priority == 2;

    var cleared := Update(store, 3, Validated(map[], Some([])), now + 1);
    assert cleared == Ok(3);
    assert TagIdsOf(store.links, 3) == [];

    var done := Complete(store, 3, now + 2);
    assert done.Ok? && done.value.status == "completed" && done.value.completedAt == Some(now + 2);
    var missing := Complete(store, 7, now + 3);
    assert missing == Err(NotFound);
  }

  /** The whole story in order: three tags, a task created with two of them,
      retagged, kept, cleared and completed. */
  method Walkthrough(now: Time) {
    var store := ThreeTags(now);
    CreateReport(store, now);
    Retag(store, now + 1);
    KeepClearComplete(store, now + 2);
  }
}
