/**
 * Issue records, the request and reply shapes of the three writing
 * handlers, and what each handler does to ONE project's collection.
 *
 * Each handler is given here as a pure function from the collection before
 * the request to a `Step`: the reply sent and the collection afterwards.
 * The class in module IssueStore performs the same handlers in place and is
 * proved to agree with these functions.
 */
module Issues {
  import opened Wrappers

  /** The clock value a handler reads; supplied by the caller. */
  type Time = int

  datatype Issue = Issue(
    id: string,
    issueTitle: string,
    issueText: string,
    createdBy: string,
    assignedTo: string,
    statusText: string,
    createdOn: Time,
    updatedOn: Time,
    open: bool)

  /** Body of a create request; an absent key is `None`. */
  datatype CreateRequest = CreateRequest(
    issueTitle: Option<string>,
    issueText: Option<string>,
    createdBy: Option<string>,
    assignedTo: Option<string>,
    statusText: Option<string>)

  /** The `open` key of an update body may be a JSON boolean or a string. */
  datatype OpenValue = OpenBool(b: bool) | OpenText(s: string)

  /** Body of an update request; an absent key is `None`. */
  datatype UpdateRequest = UpdateRequest(
    id: Option<string>,
    issueTitle: Option<string>,
    issueText: Option<string>,
    createdBy: Option<string>,
    assignedTo: Option<string>,
    statusText: Option<string>,
    open: Option<OpenValue>)

  /** The JSON object a writing handler answers with. */
  datatype Reply =
    | Created(issue: Issue)                    // the created record itself
    | Done(result: string, id: string)         // { result, _id }
    | Failure(error: string, sentId: Option<string>) // { error } or { error, _id }

  /** What a handler does to one project's collection. */
  datatype Step = Step(reply: Reply, issues: seq<Issue>)

  const RequiredMissing := "required field(s) missing"
  const MissingId := "missing _id"
  const NoUpdateFields := "no update field(s) sent"
  const CouldNotUpdate := "could not update"
  const CouldNotDelete := "could not delete"
  const SuccessfullyUpdated := "successfully updated"
  const SuccessfullyDeleted := "successfully deleted"

  /**
   * A string field that was sent and is not "". For string values this is
   * both JavaScript truthiness (`!x` is its negation) and the test
   * "neither undefined nor ''".
   */
  predicate Present(f: Option<string>) {
    f.Some? && f.value != ""
  }

  /** Holds when no record of `s` has identifier `id`. */
  ghost predicate Unknown(s: seq<Issue>, id: string) {
    forall j :: 0 <= j < |s| ==> s[j].id != id
  }

  /** `k` is the first position of `s` whose identifier is `id`. */
  ghost predicate FirstWithId(s: seq<Issue>, id: string, k: int) {
    0 <= k < |s| && s[k].id == id && forall j :: 0 <= j < k ==> s[j].id != id
  }

  /** Position of the first record with identifier `id`, or -1 (Array.prototype.findIndex). */
  function FindIndex(s: seq<Issue>, id: string): (r: int)
    ensures -1 <= r < |s|
    ensures r == -1 <==> Unknown(s, id)
    ensures r != -1 ==> FirstWithId(s, id, r)
  {
    if s == [] then -1
    else if s[0].id == id then 0
    else
      var k := FindIndex(s[1..], id);
      if k == -1 then -1 else k + 1
  }

  // ---------------------------------------------------------------- create

  /** The record a valid create request produces. */
  function NewIssue(req: CreateRequest, id: string, now: Time): Issue
    requires Present(req.issueTitle) && Present(req.issueText) && Present(req.createdBy)
  {
    Issue(id, req.issueTitle.value, req.issueText.value, req.createdBy.value,
          req.assignedTo.GetOr(""), req.statusText.GetOr(""), now, now, true)
  }

  /**
   * POST: reject when a required field is missing or empty, otherwise append
   * the new record. `id` stands for the freshly generated identifier.
   */
  function CreateStep(s: seq<Issue>, req: CreateRequest, id: string, now: Time): (r: Step)
    ensures r.reply.Failure? <==>
      !Present(req.issueTitle) || !Present(req.issueText) || !Present(req.createdBy)
    ensures r.reply.Failure? ==> r == Step(Failure(RequiredMissing, None), s)
    ensures !r.reply.Failure? ==> r.reply.Created?
    ensures r.reply.Created? ==>
      var x := r.reply.issue;
      && r.issues == s + [x]
      && x.id == id
      && x.open
      && x.createdOn == x.updatedOn == now
      && Some(x.issueTitle) == req.issueTitle
      && Some(x.issueText) == req.issueText
      && Some(x.createdBy) == req.createdBy
      && (req.assignedTo == None ==> x.assignedTo == "")
      && (req.assignedTo != None ==> Some(x.assignedTo) == req.assignedTo)
      && (req.statusText == None ==> x.statusText == "")
      && (req.statusText != None ==> Some(x.statusText) == req.statusText)
  {
    if !Present(req.issueTitle) || !Present(req.issueText) || !Present(req.createdBy) then
      Step(Failure(RequiredMissing, None), s)
    else
      var x := NewIssue(req, id, now);
      Step(Created(x), s + [x])
  }

  // ---------------------------------------------------------------- update

  /** At least one updatable key was sent with a value other than "". */
  predicate HasUpdates(req: UpdateRequest) {
    || Present(req.issueTitle)
    || Present(req.issueText)
    || Present(req.createdBy)
    || Present(req.assignedTo)
    || Present(req.statusText)
    || (req.open.Some? && req.open.value != OpenText(""))
  }

  /** The value `open` takes on update: only `true` and "true" open the issue. */
  predicate OpensIssue(v: OpenValue) {
    v == OpenBool(true) || v == OpenText("true")
  }

  /** The checks PUT makes before it looks at the store; `None` lets it proceed. */
  function UpdatePrecheck(req: UpdateRequest): Option<Reply> {
    if !Present(req.id) then Some(Failure(MissingId, None))
    else if !HasUpdates(req) then Some(Failure(NoUpdateFields, req.id))
    else None
  }

  /**
   * The field assignments of a successful update: every key that was sent,
   * "" included, is assigned, and `updated_on` is refreshed.
   */
  function Apply(x: Issue, req: UpdateRequest, now: Time): (r: Issue)
    ensures r.id == x.id && r.createdOn == x.createdOn && r.updatedOn == now
    ensures req.issueTitle == None ==> r.issueTitle == x.issueTitle
    ensures req.issueText == None ==> r.issueText == x.issueText
    ensures req.createdBy == None ==> r.createdBy == x.createdBy
    ensures req.assignedTo == None ==> r.assignedTo == x.assignedTo
    ensures req.statusText == None ==> r.statusText == x.statusText
    ensures req.open == None ==> r.open == x.open
    ensures req.issueTitle != None ==> Some(r.issueTitle) == req.issueTitle
    ensures req.issueText != None ==> Some(r.issueText) == req.issueText
    ensures req.createdBy != None ==> Some(r.createdBy) == req.createdBy
    ensures req.assignedTo != None ==> Some(r.assignedTo) == req.assignedTo
    ensures req.statusText != None ==> Some(r.statusText) == req.statusText
    ensures req.open != None ==> (r.open <==> OpensIssue(req.open.value))
  {
    x.(issueTitle := req.issueTitle.GetOr(x.issueTitle),
       issueText := req.issueText.GetOr(x.issueText),
       createdBy := req.createdBy.GetOr(x.createdBy),
       assignedTo := req.assignedTo.GetOr(x.assignedTo),
       statusText := req.statusText.GetOr(x.statusText),
       open := if req.open.Some? then OpensIssue(req.open.value) else x.open,
       updatedOn := now)
  }

  /**
   * PUT: "missing _id", then "no update field(s) sent", then "could not
   * update"; otherwise the first record with that identifier is updated.
   */
  function UpdateStep(s: seq<Issue>, req: UpdateRequest, now: Time): (r: Step)
    ensures |r.issues| == |s|
    ensures forall j :: 0 <= j < |s| ==>
      r.issues[j].id == s[j].id && r.issues[j].createdOn == s[j].createdOn
    ensures r.reply.Failure? ==> r.issues == s
    ensures r.reply.Failure? <==>
      !Present(req.id) || !HasUpdates(req) || Unknown(s, req.id.value)
    ensures !Present(req.id) ==> r.reply == Failure(MissingId, None)
    ensures Present(req.id) && !HasUpdates(req) ==> r.reply == Failure(NoUpdateFields, req.id)
    ensures Present(req.id) && HasUpdates(req) && Unknown(s, req.id.value) ==>
      r.reply == Failure(CouldNotUpdate, req.id)
    ensures !r.reply.Failure? ==>
      && r.reply == Done(SuccessfullyUpdated, req.id.value)
      && exists k :: FirstWithId(s, req.id.value, k) && r.issues == s[k := Apply(s[k], req, now)]
  {
    match UpdatePrecheck(req)
    case Some(e) => Step(e, s)
    case None =>
      var k := FindIndex(s, req.id.value);
      if k == -1 then Step(Failure(CouldNotUpdate, req.id), s)
      else Step(Done(SuccessfullyUpdated, req.id.value), s[k := Apply(s[k], req, now)])
  }

  // ---------------------------------------------------------------- delete

  /**
   * DELETE: "missing _id", then "could not delete"; otherwise the first record
   * with that identifier is removed and the others keep their order.
   */
  function DeleteStep(s: seq<Issue>, id: Option<string>): (r: Step)
    ensures r.reply.Failure? ==> r.issues == s
    ensures r.reply.Failure? <==> !Present(id) || Unknown(s, id.value)
    ensures !Present(id) ==> r.reply == Failure(MissingId, None)
    ensures Present(id) && Unknown(s, id.value) ==> r.reply == Failure(CouldNotDelete, id)
    ensures !r.reply.Failure? ==>
      && r.reply == Done(SuccessfullyDeleted, id.value)
      && |r.issues| == |s| - 1
      && exists k :: FirstWithId(s, id.value, k) && r.issues == s[..k] + s[k + 1..]
  {
    if !Present(id) then Step(Failure(MissingId, None), s)
    else
      var k := FindIndex(s, id.value);
      if k == -1 then Step(Failure(CouldNotDelete, id), s)
      else Step(Done(SuccessfullyDeleted, id.value), s[..k] + s[k + 1..])
  }
}

/** Properties of the handlers that relate several calls or whole collections. */
module IssueLemmas {
  import opened Wrappers
  import opened Issues
  import opened Sequences

  /** No two records of the collection share an identifier. */
  ghost predicate UniqueIds(s: seq<Issue>) {
    forall i, j :: 0 <= i < j < |s| ==> s[i].id != s[j].id
  }

  /** Sending the same update twice at the same time has the effect of sending it once. */
  lemma {:induction false} UpdateIdempotent(s: seq<Issue>, req: UpdateRequest, now: Time)
    ensures var r := UpdateStep(s, req, now); UpdateStep(r.issues, req, now) == r
  {
    var r := UpdateStep(s, req, now);
    if UpdatePrecheck(req).None? {
      var id := req.id.value;
      var k := FindIndex(s, id);
      if k != -1 {
        var x := Apply(s[k], req, now);
        assert r.issues == s[k := x];
        assert Apply(x, req, now) == x;
        assert FirstWithId(r.issues, id, k);
      }
    }
  }

  /**
   * A successful delete removes exactly the first record with that identifier:
   * one occurrence fewer, and the remaining records in their old order.
   */
  lemma {:induction false} DeleteRemovesExactlyOne(s: seq<Issue>, id: Option<string>)
    ensures var r := DeleteStep(s, id);
      r.reply.Done? ==>
        var k := FindIndex(s, id.value);
        && 0 <= k < |s|
        && multiset(r.issues) == multiset(s) - multiset{s[k]}
        && IsSubsequence(r.issues, s)
  {
    var r := DeleteStep(s, id);
    if r.reply.Done? {
      var k := FindIndex(s, id.value);
      assert s == s[..k] + [s[k]] + s[k + 1..];
      assert r.issues == s[..k] + s[k + 1..];
      RemoveAtIsSubsequence(s, k);
    }
  }

  /** A create with an identifier not yet in the collection keeps identifiers unique. */
  lemma {:induction false} CreateFreshIdKeepsUnique(s: seq<Issue>, req: CreateRequest, id: string, now: Time)
    requires UniqueIds(s) && Unknown(s, id)
    ensures UniqueIds(CreateStep(s, req, id, now).issues)
  {
    var r := CreateStep(s, req, id, now);
    if r.reply.Created? {
      forall i, j | 0 <= i < j < |r.issues| ensures r.issues[i].id != r.issues[j].id {
        if j == |s| {
          assert r.issues[i] == s[i];
        }
      }
    }
  }

  /**
   * Nothing checks the generated identifier: a valid create whose identifier is
   * already taken leaves two records with the same identifier.
   */
  lemma {:induction false} CreateTakenIdDuplicates(s: seq<Issue>, req: CreateRequest, id: string, now: Time)
    requires !Unknown(s, id)
    requires Present(req.issueTitle) && Present(req.issueText) && Present(req.createdBy)
    ensures !UniqueIds(CreateStep(s, req, id, now).issues)
  {
    var r := CreateStep(s, req, id, now);
    var i :| 0 <= i < |s| && s[i].id == id;
    assert r.issues[i].id == r.issues[|s|].id;
  }

  /** Update never changes an identifier, so it keeps identifiers unique. */
  lemma {:induction false} UpdateKeepsUnique(s: seq<Issue>, req: UpdateRequest, now: Time)
    requires UniqueIds(s)
    ensures UniqueIds(UpdateStep(s, req, now).issues)
  {
    var r := UpdateStep(s, req, now);
    forall i, j | 0 <= i < j < |r.issues| ensures r.issues[i].id != r.issues[j].id {
      assert r.issues[i].id == s[i].id && r.issues[j].id == s[j].id;
    }
  }

  /**
   * With unique identifiers, a successful delete leaves no record with the
   * deleted identifier, and identifiers stay unique.
   */
  lemma {:induction false} DeleteUniqueRemovesId(s: seq<Issue>, id: Option<string>)
    requires UniqueIds(s)
    ensures var r := DeleteStep(s, id);
      && UniqueIds(r.issues)
      && (r.reply.Done? ==> Unknown(r.issues, id.value))
  {
    var r := DeleteStep(s, id);
    if r.reply.Done? {
      var k := FindIndex(s, id.value);
      assert r.issues == s[..k] + s[k + 1..];
      forall j | 0 <= j < |r.issues| ensures r.issues[j].id != id.value {
        if j < k { assert r.issues[j] == s[j]; } else { assert r.issues[j] == s[j + 1]; }
      }
      forall i, j | 0 <= i < j < |r.issues| ensures r.issues[i].id != r.issues[j].id {
        var i' := if i < k then i else i + 1;
        var j' := if j < k then j else j + 1;
        assert r.issues[i] == s[i'] && r.issues[j] == s[j'];
      }
    }
  }

  /**
   * An update whose fields are all absent or "" is refused, so a field cannot
   * be blanked by sending "" on its own.
   */
  lemma BlankOnlyUpdateRefused(s: seq<Issue>, req: UpdateRequest, now: Time)
    requires Present(req.id)
    requires req.issueTitle in {None, Some("")} && req.issueText in {None, Some("")}
    requires req.createdBy in {None, Some("")} && req.assignedTo in {None, Some("")}
    requires req.statusText in {None, Some("")} && req.open in {None, Some(OpenText(""))}
    ensures UpdateStep(s, req, now) == Step(Failure(NoUpdateFields, req.id), s)
  {
  }

  /**
   * Sent alongside a real update, "" is assigned: the title is blanked, and
   * `open: ""` closes the issue.
   */
  lemma BlankAlongsideUpdateApplied(s: seq<Issue>, req: UpdateRequest, now: Time)
    requires Present(req.id) && Present(req.issueText) && !Unknown(s, req.id.value)
    requires req.issueTitle == Some("") && req.open == Some(OpenText(""))
    ensures var r := UpdateStep(s, req, now);
      && r.reply == Done(SuccessfullyUpdated, req.id.value)
      && var k := FindIndex(s, req.id.value);
         r.issues[k].issueTitle == "" && !r.issues[k].open
  {
  }
}
