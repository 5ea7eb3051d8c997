/**
 * A client of the store: the request sequence of the repository's functional
 * tests, with the replies those tests expect, follows from the contracts of
 * the store's methods alone.
 */
module Clients {
  import opened Wrappers
  import opened Issues
  import opened Listing
  import opened IssueStore

  const Project := "apitest"

  /** Two records in the test project, "ID1" then "ID2". */
  ghost predicate TwoIssues(store: Store)
    reads store
  {
    var s := store.Collection(Project);
    |s| == 2 && s[0].id == "ID1" && s[1].id == "ID2"
  }

  method FunctionalTestsHold(render: Time -> string) {
    var store := CreatesHold();
    ListsHold(store, render);
    UpdatesHold(store);
    DeletesHold(store);
  }

  method CreatesHold() returns (store: Store)
    ensures fresh(store) && TwoIssues(store) && store.Collection("other") == []
  {
    store := new Store();
    var full := CreateRequest(Some("Full fields"), Some("Text with all fields"), Some("Tester"),
                              Some("Dev"), Some("In QA"));
    var r1 := store.Create(Project, full, "ID1", 1);
    assert r1.Created? && r1.issue.open && r1.issue.assignedTo == "Dev" && r1.issue.statusText == "In QA";
    var x1 := r1.issue;
    assert store.Collection(Project) == [x1];

    var required := CreateRequest(Some("Required only"), Some("Text only required"), Some("Tester"), None, None);
    var r2 := store.Create(Project, required, "ID2", 2);
    assert r2.Created? && r2.issue.assignedTo == "" && r2.issue.statusText == "";
    var x2 := r2.issue;
    assert store.Collection(Project) == [x1, x2];

    var r3 := store.Create(Project, CreateRequest(Some("Missing fields"), None, None, None, None), "ID3", 3);
    assert r3 == Failure(RequiredMissing, None);
    assert store.Collection(Project) == [x1, x2];
  }

  method ListsHold(store: Store, render: Time -> string)
    requires TwoIssues(store) && store.Collection("other") == []
    modifies store
    ensures TwoIssues(store)
  {
    ListAllHolds(store, render);
    ListByCreatorHolds(store, render);
    var other := store.List("other", map[], render);
    assert other == [];
  }

  method ListAllHolds(store: Store, render: Time -> string)
    requires TwoIssues(store)
    modifies store
    ensures forall p :: store.Collection(p) == old(store.Collection(p))
  {
    var s := store.Collection(Project);
    var all := store.List(Project, map[], render);
    FilterNoKeys(s, map[], render);
    assert |all| == 2;
  }

  method ListByCreatorHolds(store: Store, render: Time -> string)
    modifies store
    ensures forall p :: store.Collection(p) == old(store.Collection(p))
  {
    var byTester := store.List(Project, map["created_by" := "Tester"], render);
    forall x | x in byTester ensures x.createdBy == "Tester" {
      SingleKeyQuery(x, "created_by", "Tester", render);
    }
  }

  method UpdatesHold(store: Store)
    requires TwoIssues(store)
    modifies store
    ensures TwoIssues(store)
  {
    UpdateTitleHolds(store);
    UpdateTextAndCloseHolds(store);
    UpdateErrorsHold(store);
  }

  method UpdateTitleHolds(store: Store)
    requires TwoIssues(store)
    modifies store
    ensures TwoIssues(store) && store.Collection(Project)[1] == old(store.Collection(Project))[1]
    ensures store.Collection(Project)[0].issueTitle == "Updated title"
  {
    var u1 := store.Update(Project, UpdateRequest(Some("ID1"), Some("Updated title"), None, None, None, None, None), 4);
    assert u1 == Done(SuccessfullyUpdated, "ID1");
  }

  method UpdateTextAndCloseHolds(store: Store)
    requires TwoIssues(store) && store.Collection(Project)[0].issueTitle == "Updated title"
    modifies store
    ensures TwoIssues(store) && store.Collection(Project)[1] == old(store.Collection(Project))[1]
    ensures !store.Collection(Project)[0].open && store.Collection(Project)[0].issueTitle == "Updated title"
  {
    var u2 := store.Update(Project, UpdateRequest(Some("ID1"), None, Some("Updated text"), None, None, None,
                                                  Some(OpenBool(false))), 5);
    assert u2 == Done(SuccessfullyUpdated, "ID1");
  }

  method UpdateErrorsHold(store: Store)
    requires TwoIssues(store)
    modifies store
    ensures forall p :: store.Collection(p) == old(store.Collection(p))
  {
    var u3 := store.Update(Project, UpdateRequest(None, None, Some("No id"), None, None, None, None), 6);
    assert u3 == Failure(MissingId, None);
    var u4 := store.Update(Project, UpdateRequest(Some("ID1"), None, None, None, None, None, None), 7);
    assert u4 == Failure(NoUpdateFields, Some("ID1"));
    var u5 := store.Update(Project, UpdateRequest(Some("INVALIDID"), None, Some("Try update"), None, None, None, None), 8);
    assert u5 == Failure(CouldNotUpdate, Some("INVALIDID"));
  }

  method DeletesHold(store: Store)
    requires TwoIssues(store)
    modifies store
  {
    var x2 := store.Collection(Project)[1];
    var d1 := store.Delete(Project, Some("ID1"));
    assert d1 == Done(SuccessfullyDeleted, "ID1");
    assert store.Collection(Project) == [x2];
    var d2 := store.Delete(Project, Some("BADID"));
    assert d2 == Failure(CouldNotDelete, Some("BADID"));
    var d3 := store.Delete(Project, None);
    assert d3 == Failure(MissingId, None);
  }
}
