/**
 * The process-wide store: a map from project name to that project's ordered
 * collection of issues, changed in place by the four request handlers.
 */
module IssueStore {
  import opened Wrappers
  import opened Issues
  import opened Listing

  type Projects = map<string, seq<Issue>>

  /** A project's collection; a project never looked up reads as empty. */
  function CollectionOf(m: Projects, p: string): seq<Issue> {
    if p in m then m[p] else []
  }

  /**
   * The map after looking up project `p`: an unknown project gets an empty
   * collection, and no project's collection changes.
   */
  function Vivify(m: Projects, p: string): (r: Projects)
    ensures r.Keys == m.Keys + {p}
    ensures p in m ==> r == m
    ensures forall q :: CollectionOf(r, q) == CollectionOf(m, q)
  {
    if p in m then m else m[p := []]
  }

  /**
   * The PUT handler's assignments to the found record, field by field: each
   * field that was sent is assigned, and `updated_on` is set last.
   */
  method AssignFields(x: Issue, req: UpdateRequest, now: Time) returns (issue: Issue)
    ensures issue == Apply(x, req, now)
  {
    issue := x;
    if req.issueTitle.Some? { issue := issue.(issueTitle := req.issueTitle.value); }
    if req.issueText.Some? { issue := issue.(issueText := req.issueText.value); }
    if req.createdBy.Some? { issue := issue.(createdBy := req.createdBy.value); }
    if req.assignedTo.Some? { issue := issue.(assignedTo := req.assignedTo.value); }
    if req.statusText.Some? { issue := issue.(statusText := req.statusText.value); }
    if req.open.Some? { issue := issue.(open := OpensIssue(req.open.value)); }
    issue := issue.(updatedOn := now);
  }

  class Store {
    var projects: Projects

    /** The store starts with no project. */
    constructor ()
      ensures projects == map[]
    {
      projects := map[];
    }

    function Collection(p: string): seq<Issue>
      reads this
    {
      CollectionOf(projects, p)
    }

    /** getProjectStore: the project's collection, created empty on first lookup. */
    method GetProjectStore(project: string) returns (issues: seq<Issue>)
      modifies this
      ensures projects == Vivify(old(projects), project)
      ensures project in projects && issues == projects[project] == old(Collection(project))
    {
      if project !in projects {
        projects := projects[project := []];
      }
      issues := projects[project];
    }

    /** GET: the records of the project that satisfy every query key, in order. */
    method List(project: string, q: Query, render: Time -> string) returns (found: seq<Issue>)
      modifies this
      ensures projects == Vivify(old(projects), project)
      ensures found == Filter(old(Collection(project)), q, render)
    {
      var issues := GetProjectStore(project);
      found := Filter(issues, q, render);
    }

    /** POST: validate, then append the new record; `id` and `now` are supplied by the caller. */
    method Create(project: string, req: CreateRequest, id: string, now: Time) returns (reply: Reply)
      modifies this
      ensures var step := CreateStep(old(Collection(project)), req, id, now);
        && reply == step.reply
        && projects == if reply.Failure? then old(projects) else old(projects)[project := step.issues]
      ensures forall p :: p != project ==> Collection(p) == old(Collection(p))
    {
      if !Present(req.issueTitle) || !Present(req.issueText) || !Present(req.createdBy) {
        return Failure(RequiredMissing, None);
      }
      var issues := GetProjectStore(project);
      var doc := NewIssue(req, id, now);
      projects := projects[project := issues + [doc]];
      reply := Created(doc);
    }

    /**
     * PUT: the two request checks come before the lookup, so they leave the map
     * as it was; an unknown identifier leaves the project created but empty-handed.
     */
    method Update(project: string, req: UpdateRequest, now: Time) returns (reply: Reply)
      modifies this
      ensures var step := UpdateStep(old(Collection(project)), req, now);
        && reply == step.reply
        && projects == if UpdatePrecheck(req).Some? then old(projects)
                       else old(projects)[project := step.issues]
      ensures reply.Failure? ==> forall p :: Collection(p) == old(Collection(p))
      ensures forall p :: p != project ==> Collection(p) == old(Collection(p))
    {
      if !Present(req.id) {
        return Failure(MissingId, None);
      }
      if !HasUpdates(req) {
        return Failure(NoUpdateFields, req.id);
      }
      var issues := GetProjectStore(project);
      var idx := FindIndex(issues, req.id.value);
      if idx == -1 {
        return Failure(CouldNotUpdate, req.id);
      }
      var issue := AssignFields(issues[idx], req, now);
      assert UpdateStep(issues, req, now) == Step(Done(SuccessfullyUpdated, req.id.value), issues[idx := issue]);
      projects := projects[project := issues[idx := issue]];
      reply := Done(SuccessfullyUpdated, req.id.value);
    }

    /** DELETE: remove the first record with the identifier, keeping the others in order. */
    method Delete(project: string, id: Option<string>) returns (reply: Reply)
      modifies this
      ensures var step := DeleteStep(old(Collection(project)), id);
        && reply == step.reply
        && projects == if !Present(id) then old(projects) else old(projects)[project := step.issues]
      ensures reply.Failure? ==> forall p :: Collection(p) == old(Collection(p))
      ensures forall p :: p != project ==> Collection(p) == old(Collection(p))
    {
      if !Present(id) {
        return Failure(MissingId, None);
      }
      var issues := GetProjectStore(project);
      var idx := FindIndex(issues, id.value);
      if idx == -1 {
        return Failure(CouldNotDelete, id);
      }
      projects := projects[project := issues[..idx] + issues[idx + 1..]];
      reply := Done(SuccessfullyDeleted, id.value);
    }
  }

  /**
   * After a successful create, a listing shows what it showed before, then the
   * new record if it satisfies the query.
   */
  lemma ListAfterCreate(s: seq<Issue>, req: CreateRequest, id: string, now: Time,
                        q: Query, render: Time -> string)
    ensures var r := CreateStep(s, req, id, now);
      r.reply.Created? ==>
        Filter(r.issues, q, render) ==
          Filter(s, q, render) + if Matches(r.reply.issue, q, render) then [r.reply.issue] else []
  {
    var r := CreateStep(s, req, id, now);
    if r.reply.Created? {
      var x := r.reply.issue;
      assert r.issues == s + [x];
      FilterAppend(s, [x], q, render);
      FilterSingle(x, q, render);
    }
  }
}
