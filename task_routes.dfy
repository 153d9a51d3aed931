/**
 * The `/tasks` router: list, create, update and delete, each scoped to the
 * user that `verifyToken` put on the request. The Mongo collection is the
 * sequence `tasks` of a `TaskStore`; a store failure is the parameter `fault`
 * (the error message the driver would throw), and `now` is the clock.
 */
module TaskRoutes {
  import opened Wrappers
  import opened TaskSchema
  import opened Http
  import AccessGuard

  const TitleIsRequired: string := "Title is required"
  const TaskNotFound: string := "Task not found"
  const TaskDeleted: string := "Task deleted successfully"
  /** Head of Mongoose's message when `:id` is not an ObjectId. */
  const CastFailed: string := "Cast to ObjectId failed"
  /** Head of Mongoose's message when `save()` fails a schema validator. */
  const ValidationFailed: string := "Task validation failed"

  /**
   * The body of `POST /`. Only the first five fields are read by the
   * handler; `status` and `userId` stand for anything else a client sends.
   */
  datatype CreateBody = CreateBody(
    title: Option<string>,
    description: Option<string>,
    priority: Option<string>,
    dueDate: Option<int>,
    tags: Option<seq<string>>,
    status: Option<string>,
    userId: Option<UserId>)

  /** The body of `PUT /:id`: each present field is copied onto the task. */
  datatype Patch = Patch(
    title: Option<string>,
    description: Option<string>,
    status: Option<string>,
    priority: Option<string>,
    dueDate: Option<Option<int>>,
    tags: Option<seq<string>>,
    userId: Option<UserId>)

  const EmptyPatch: Patch := Patch(None, None, None, None, None, None, None)

  /** The `:id` path segment: an ObjectId, or text that cannot be cast to one. */
  datatype IdParam = ObjectId(id: TaskId) | NotObjectId(text: string)

  /** A request that reached the router, with its method and path. */
  datatype Request =
    | GetTasks
    | PostTask(body: CreateBody)
    | PutTask(taskId: IdParam, patch: Patch)
    | DeleteTask(taskId: IdParam)

  /** The compound filter `{ _id: id, userId: owner }`. */
  predicate Matches(t: Task, id: TaskId, owner: UserId) {
    t.id == id && t.userId == owner
  }

  ghost predicate Owns(ts: seq<Task>, owner: UserId, id: TaskId) {
    exists i :: 0 <= i < |ts| && Matches(ts[i], id, owner)
  }

  ghost predicate UniqueIds(ts: seq<Task>) {
    forall i, j :: 0 <= i < j < |ts| ==> ts[i].id != ts[j].id
  }

  /** Ids are unique and below the next fresh id; every task passed validation. */
  ghost predicate StoreInvariant(ts: seq<Task>, nextId: TaskId) {
    && UniqueIds(ts)
    && (forall i :: 0 <= i < |ts| ==> ts[i].id < nextId)
    && (forall i :: 0 <= i < |ts| ==> WellFormed(ts[i]))
  }

  /** `Task.find({ userId: owner })`, in collection order. */
  function Owned(ts: seq<Task>, owner: UserId): (r: seq<Task>)
    ensures forall t :: t in r <==> t in ts && t.userId == owner
    ensures |r| <= |ts|
  {
    if ts == [] then []
    else if ts[0].userId == owner then [ts[0]] + Owned(ts[1..], owner)
    else Owned(ts[1..], owner)
  }

  /** Newest first: `createdAt` never increases along the sequence. */
  ghost predicate NewestFirst(ts: seq<Task>) {
    forall i, j :: 0 <= i < j < |ts| ==> ts[i].createdAt >= ts[j].createdAt
  }

  function Insert(t: Task, ts: seq<Task>): (r: seq<Task>)
    requires NewestFirst(ts)
    ensures NewestFirst(r)
    ensures multiset(r) == multiset(ts) + multiset{t}
    ensures r != [] && (r[0] == t || (ts != [] && r[0] == ts[0]))
  {
    if ts == [] || t.createdAt >= ts[0].createdAt then [t] + ts
    else
      var rest := Insert(t, ts[1..]);
      assert ts == [ts[0]] + ts[1..];
      [ts[0]] + rest
  }

  /** `.sort({ createdAt: -1 })`; tasks created at the same time keep their order. */
  function SortNewestFirst(ts: seq<Task>): (r: seq<Task>)
    ensures NewestFirst(r)
    ensures multiset(r) == multiset(ts)
  {
    if ts == [] then []
    else
      assert ts == [ts[0]] + ts[1..];
      Insert(ts[0], SortNewestFirst(ts[1..]))
  }

  /** `findOne({ _id: id, userId: owner })`: the position of the first match. */
  function Find(ts: seq<Task>, id: TaskId, owner: UserId): (r: Option<nat>)
    ensures r.None? <==> !Owns(ts, owner, id)
    ensures r.Some? ==> r.value < |ts| && Matches(ts[r.value], id, owner)
  {
    if ts == [] then None
    else if Matches(ts[0], id, owner) then Some(0)
    else match Find(ts[1..], id, owner)
      case None =>
        assert forall i :: 1 <= i < |ts| ==> ts[i] == ts[1..][i - 1];
        None
      case Some(k) => Some(k + 1)
  }

  /**
   * `Object.assign(task, body)` followed by `save()`: every field the patch
   * carries is overwritten, including the owner. The save fails (`None`) when
   * the result breaks a schema validator. `updatedAt` moves to `now` only
   * when some field really changed, as Mongoose's timestamps do.
   */
  function Assign(t: Task, p: Patch, now: int): (r: Option<Task>)
    ensures r.Some? <==>
      && (p.status.Some? ==> ParseStatus(p.status.value).Some?)
      && (p.priority.Some? ==> ParsePriority(p.priority.value).Some?)
      && (if p.title.Some? then p.title.value != "" else WellFormed(t))
    ensures r.Some? ==> WellFormed(r.value)
    ensures r.Some? ==> r.value.id == t.id && r.value.createdAt == t.createdAt
  {
    var status := if p.status.Some? then ParseStatus(p.status.value) else Some(t.status);
    var priority := if p.priority.Some? then ParsePriority(p.priority.value) else Some(t.priority);
    if status.None? || priority.None? then None
    else
      var u := t.(
        title := p.title.GetOr(t.title),
        description := p.description.GetOr(t.description),
        status := status.value,
        priority := priority.value,
        dueDate := p.dueDate.GetOr(t.dueDate),
        tags := p.tags.GetOr(t.tags),
        userId := p.userId.GetOr(t.userId));
      if !WellFormed(u) then None
      else if u == t then Some(t)
      else Some(u.(updatedAt := now))
  }

  /** A partial update overwrites exactly the fields the patch carries. */
  lemma AssignOverwritesPresentFields(t: Task, p: Patch, now: int)
    requires Assign(t, p, now).Some?
    ensures var u := Assign(t, p, now).value;
      && u.title == (if p.title.Some? then p.title.value else t.title)
      && u.description == (if p.description.Some? then p.description.value else t.description)
      && (p.status.Some? ==> StatusName(u.status) == p.status.value)
      && (p.status.None? ==> u.status == t.status)
      && (p.priority.Some? ==> PriorityName(u.priority) == p.priority.value)
      && (p.priority.None? ==> u.priority == t.priority)
      && u.dueDate == (if p.dueDate.Some? then p.dueDate.value else t.dueDate)
      && u.tags == (if p.tags.Some? then p.tags.value else t.tags)
      && u.userId == (if p.userId.Some? then p.userId.value else t.userId)
      && (u.updatedAt == t.updatedAt || u.updatedAt == now)
  {
  }

  /** An empty body changes nothing, not even `updatedAt`. */
  lemma AssignEmptyPatch(t: Task, now: int)
    requires WellFormed(t)
    ensures Assign(t, EmptyPatch, now) == Some(t)
  {
  }

  /** Sending the same update twice leaves the task as the first one did. */
  lemma AssignIdempotent(t: Task, p: Patch, now: int, later: int)
    requires Assign(t, p, now).Some?
    ensures Assign(Assign(t, p, now).value, p, later) == Assign(t, p, now)
  {
  }

  /** Nothing stops a body from handing the task to another user. */
  lemma AssignCanReassignOwner(t: Task, newOwner: UserId, now: int)
    requires WellFormed(t)
    ensures var p := EmptyPatch.(userId := Some(newOwner));
      Assign(t, p, now).Some? && Assign(t, p, now).value.userId == newOwner
  {
  }

  /** `GET /` once admitted: the caller's tasks, newest first, as a 200. */
  function ListResponse(ts: seq<Task>, owner: UserId, fault: Option<string>): (r: Response)
    ensures fault.Some? ==> r == Failure(500, fault.value)
    ensures fault.None? ==>
      && r.status == 200 && r.body.TaskArray?
      && NewestFirst(r.body.tasks)
      && multiset(r.body.tasks) == multiset(Owned(ts, owner))
  {
    if fault.Some? then Failure(500, fault.value)
    else Response(200, TaskArray(SortNewestFirst(Owned(ts, owner))))
  }

  /** The response, new collection and next fresh id of `POST /`. */
  function CreateSpec(ts: seq<Task>, nextId: TaskId, owner: UserId, body: CreateBody, now: int,
                      fault: Option<string>): (Response, seq<Task>, TaskId)
  {
    if body.title.None? || body.title.value == "" then (Failure(400, TitleIsRequired), ts, nextId)
    else
      var fields := Fields(body.title.value, body.description, body.priority, body.dueDate,
                           body.tags.GetOr([]), owner);
      match Construct(nextId, fields, now)
      case None => (Failure(500, ValidationFailed), ts, nextId)
      case Some(t) =>
        if fault.Some? then (Failure(500, fault.value), ts, nextId)
        else (Response(201, TaskJson(t)), ts + [t], nextId + 1)
  }

  /** The response and new collection of `PUT /:id`. */
  ghost function UpdateSpec(ts: seq<Task>, owner: UserId, id: IdParam, p: Patch, now: int, fault: Option<string>)
    : (Response, seq<Task>)
  {
    if id.NotObjectId? then (Failure(500, CastFailed), ts)
    else if fault.Some? then (Failure(500, fault.value), ts)
    else if !Owns(ts, owner, id.id) then (Failure(404, TaskNotFound), ts)
    else
      var i :| 0 <= i < |ts| && Matches(ts[i], id.id, owner);
      match Assign(ts[i], p, now)
      case None => (Failure(500, ValidationFailed), ts)
      case Some(u) => (Response(200, TaskJson(u)), ts[i := u])
  }

  /** The response and new collection of `DELETE /:id`. */
  ghost function DeleteSpec(ts: seq<Task>, owner: UserId, id: IdParam, fault: Option<string>)
    : (Response, seq<Task>)
  {
    if id.NotObjectId? then (Failure(500, CastFailed), ts)
    else if fault.Some? then (Failure(500, fault.value), ts)
    else if !Owns(ts, owner, id.id) then (Failure(404, TaskNotFound), ts)
    else
      var i :| 0 <= i < |ts| && Matches(ts[i], id.id, owner);
      (Response(200, Message(TaskDeleted)), ts[..i] + ts[i + 1..])
  }

  class TaskStore {
    /** The `tasks` collection. */
    var tasks: seq<Task>
    /** The next fresh `_id`. */
    var nextId: TaskId

    ghost predicate Valid()
      reads this
    {
      StoreInvariant(tasks, nextId)
    }

    constructor ()
      ensures Valid() && tasks == []
    {
      tasks, nextId := [], 0;
    }

    /** `GET /`. */
    method List(owner: UserId, fault: Option<string>) returns (r: Response)
      requires Valid()
      ensures r == ListResponse(tasks, owner, fault)
      ensures fault.None? ==>
        && r.status == 200 && r.body.TaskArray?
        && (forall t :: t in r.body.tasks <==> t in tasks && t.userId == owner)
        && NewestFirst(r.body.tasks)
    {
      if fault.Some? {
        return Failure(500, fault.value);
      }
      var found := Owned(tasks, owner);
      var sorted := SortNewestFirst(found);
      assert forall t :: t in sorted <==> t in found by {
        forall t ensures t in sorted <==> t in found {
          assert t in sorted <==> t in multiset(sorted);
        }
      }
      return Response(200, TaskArray(sorted));
    }

    /** `POST /`. */
    method Create(owner: UserId, body: CreateBody, now: int, fault: Option<string>) returns (r: Response)
      requires Valid()
      modifies this
      ensures Valid()
      ensures (r, tasks, nextId) == CreateSpec(old(tasks), old(nextId), owner, body, now, fault)
    {
      if body.title.None? || body.title.value == "" {
        return Failure(400, TitleIsRequired);
      }
      var fields := Fields(body.title.value, body.description, body.priority, body.dueDate,
                           body.tags.GetOr([]), owner);
      var task := Construct(nextId, fields, now);
      if task.None? {
        return Failure(500, ValidationFailed);
      }
      if fault.Some? {
        return Failure(500, fault.value);
      }
      tasks := tasks + [task.value];
      nextId := nextId + 1;
      return Response(201, TaskJson(task.value));
    }

    /** `PUT /:id`. */
    method Update(owner: UserId, id: IdParam, p: Patch, now: int, fault: Option<string>) returns (r: Response)
      requires Valid()
      modifies this
      ensures Valid()
      ensures nextId == old(nextId)
      ensures (r, tasks) == UpdateSpec(old(tasks), owner, id, p, now, fault)
    {
      if id.NotObjectId? {
        return Failure(500, CastFailed);
      }
      if fault.Some? {
        return Failure(500, fault.value);
      }
      var k := Find(tasks, id.id, owner);
      if k.None? {
        return Failure(404, TaskNotFound);
      }
      var i := k.value;
      var updated := Assign(tasks[i], p, now);
      ChosenMatchIsUnique(tasks, owner, id.id, i);
      if updated.None? {
        return Failure(500, ValidationFailed);
      }
      tasks := tasks[i := updated.value];
      r := Response(200, TaskJson(updated.value));
    }

    /** `DELETE /:id`. */
    method Delete(owner: UserId, id: IdParam, fault: Option<string>) returns (r: Response)
      requires Valid()
      modifies this
      ensures Valid()
      ensures nextId == old(nextId)
      ensures (r, tasks) == DeleteSpec(old(tasks), owner, id, fault)
    {
      if id.NotObjectId? {
        return Failure(500, CastFailed);
      }
      if fault.Some? {
        return Failure(500, fault.value);
      }
      var k := Find(tasks, id.id, owner);
      if k.None? {
        return Failure(404, TaskNotFound);
      }
      var i := k.value;
      ChosenMatchIsUnique(tasks, owner, id.id, i);
      tasks := tasks[..i] + tasks[i + 1..];
      r := Response(200, Message(TaskDeleted));
    }

    /**
     * The router: `verifyToken` runs first, and a handler runs only when it
     * called `next`, with the owner it set on the request.
     */
    method Handle(authorization: Option<string>, verify: string -> Option<UserId>, req: Request,
                  now: int, fault: Option<string>) returns (r: Response)
      requires Valid()
      modifies this
      ensures Valid()
      ensures AccessGuard.Authenticate(authorization, verify).Rejected? ==>
        r == AccessGuard.Authenticate(authorization, verify).response
        && tasks == old(tasks) && nextId == old(nextId)
      ensures AccessGuard.Authenticate(authorization, verify).Continue? ==>
        var owner := AccessGuard.Authenticate(authorization, verify).userId;
        match req
        case GetTasks => r == ListResponse(tasks, owner, fault) && tasks == old(tasks) && nextId == old(nextId)
        case PostTask(body) => (r, tasks, nextId) == CreateSpec(old(tasks), old(nextId), owner, body, now, fault)
        case PutTask(id, p) => (r, tasks) == UpdateSpec(old(tasks), owner, id, p, now, fault) && nextId == old(nextId)
        case DeleteTask(id) => (r, tasks) == DeleteSpec(old(tasks), owner, id, fault) && nextId == old(nextId)
    {
      var ctx := new AccessGuard.RequestContext(authorization);
      AccessGuard.VerifyToken(ctx, verify);
      if ctx.nextCalls == 0 {
        return ctx.response.value;
      }
      var owner := ctx.userId.value;
      match req
      case GetTasks =>
        r := List(owner, fault);
      case PostTask(body) =>
        r := Create(owner, body, now, fault);
      case PutTask(id, p) =>
        r := Update(owner, id, p, now, fault);
      case DeleteTask(id) =>
        r := Delete(owner, id, fault);
    }
  }

  /** With unique ids, the compound filter matches at most one position. */
  lemma ChosenMatchIsUnique(ts: seq<Task>, owner: UserId, id: TaskId, i: nat)
    requires UniqueIds(ts)
    requires i < |ts| && Matches(ts[i], id, owner)
    ensures forall j :: 0 <= j < |ts| && Matches(ts[j], id, owner) ==> j == i
  {
  }

  /**
   * What `POST /` promises: a 201 exactly when the title is present and
   * non-empty (whitespace is accepted), the priority is one of the three and
   * the store is up; then exactly one task is appended, owned by the caller,
   * at status "todo", with an empty tag list when none was sent. Any other
   * outcome leaves the collection as it was.
   */
  lemma CreateOutcome(ts: seq<Task>, nextId: TaskId, owner: UserId, body: CreateBody, now: int,
                      fault: Option<string>)
    ensures var (r, ts', nextId') := CreateSpec(ts, nextId, owner, body, now, fault);
      && (r.status == 201 <==>
            body.title.Some? && body.title.value != ""
            && (body.priority.Some? ==> ParsePriority(body.priority.value).Some?)
            && fault.None?)
      && (body.title.None? || body.title.value == "" ==> r == Failure(400, TitleIsRequired))
      && ((body.title.Some? && body.title.value != "" && body.priority.Some?
             && ParsePriority(body.priority.value).None?) ==> r == Failure(500, ValidationFailed))
      && (r.status != 201 ==> ts' == ts && nextId' == nextId)
      && (r.status == 201 ==>
            && r.body.TaskJson? && ts' == ts + [r.body.task] && nextId' == nextId + 1
            && r.body.task.id == nextId && r.body.task.userId == owner
            && r.body.task.title == body.title.value && r.body.task.status == Todo
            && r.body.task.tags == (if body.tags.Some? then body.tags.value else [])
            && r.body.task.createdAt == now)
  {
  }

  /** A `status` or `userId` in the creation body has no effect at all. */
  lemma CreateIgnoresStatusAndOwnerInBody(ts: seq<Task>, nextId: TaskId, owner: UserId, body: CreateBody,
                                          status: Option<string>, claimed: Option<UserId>, now: int,
                                          fault: Option<string>)
    ensures CreateSpec(ts, nextId, owner, body.(status := status, userId := claimed), now, fault)
         == CreateSpec(ts, nextId, owner, body, now, fault)
  {
  }

  /** A fresh task keeps the store invariant. */
  lemma CreatePreservesInvariant(ts: seq<Task>, nextId: TaskId, owner: UserId, body: CreateBody, now: int,
                                 fault: Option<string>)
    requires StoreInvariant(ts, nextId)
    ensures var (_, ts', nextId') := CreateSpec(ts, nextId, owner, body, now, fault);
      StoreInvariant(ts', nextId')
  {
  }

  /** The caller's tasks in a collection, as a predicate on tasks. */
  ghost predicate SameTasksOf(ts1: seq<Task>, ts2: seq<Task>, owner: UserId) {
    forall t :: (t in ts1 && t.userId == owner) <==> (t in ts2 && t.userId == owner)
  }

  /**
   * Two collections holding the same tasks of `owner` give the same compound
   * lookup result: whether the task is there, and which one it is.
   */
  lemma {:induction false} LookupIsolation(ts1: seq<Task>, ts2: seq<Task>, owner: UserId, id: TaskId, i1: nat, i2: nat)
    requires UniqueIds(ts2)
    requires SameTasksOf(ts1, ts2, owner)
    requires i1 < |ts1| && Matches(ts1[i1], id, owner)
    requires i2 < |ts2| && Matches(ts2[i2], id, owner)
    ensures ts1[i1] == ts2[i2]
  {
    assert ts1[i1] in ts1;
    var j :| 0 <= j < |ts2| && ts2[j] == ts1[i1];
    ChosenMatchIsUnique(ts2, owner, id, i2);
  }

  lemma {:induction false} OwnsIsolation(ts1: seq<Task>, ts2: seq<Task>, owner: UserId, id: TaskId)
    requires SameTasksOf(ts1, ts2, owner)
    ensures Owns(ts1, owner, id) <==> Owns(ts2, owner, id)
  {
    if Owns(ts1, owner, id) {
      var i :| 0 <= i < |ts1| && Matches(ts1[i], id, owner);
      assert ts1[i] in ts1;
      var j :| 0 <= j < |ts2| && ts2[j] == ts1[i];
    }
    if Owns(ts2, owner, id) {
      var i :| 0 <= i < |ts2| && Matches(ts2[i], id, owner);
      assert ts2[i] in ts2;
      var j :| 0 <= j < |ts1| && ts1[j] == ts2[i];
    }
  }

  /**
   * Per-owner isolation of `PUT /:id`: what the caller is told depends only on
   * the caller's own tasks. In particular an id that does not exist and an id
   * owned by someone else give the same 404, and the collection is unchanged.
   */
  lemma {:induction false} UpdateIsolation(ts1: seq<Task>, ts2: seq<Task>, owner: UserId, id: IdParam, p: Patch,
                                           now: int, fault: Option<string>)
    requires UniqueIds(ts1) && UniqueIds(ts2)
    requires SameTasksOf(ts1, ts2, owner)
    ensures UpdateSpec(ts1, owner, id, p, now, fault).0 == UpdateSpec(ts2, owner, id, p, now, fault).0
    ensures id.ObjectId? && fault.None? && !Owns(ts1, owner, id.id) ==>
      UpdateSpec(ts1, owner, id, p, now, fault) == (Failure(404, TaskNotFound), ts1)
  {
    if id.ObjectId? && fault.None? {
      OwnsIsolation(ts1, ts2, owner, id.id);
      if Owns(ts1, owner, id.id) {
        var i1 :| 0 <= i1 < |ts1| && Matches(ts1[i1], id.id, owner);
        var i2 :| 0 <= i2 < |ts2| && Matches(ts2[i2], id.id, owner);
        ChosenMatchIsUnique(ts1, owner, id.id, i1);
        ChosenMatchIsUnique(ts2, owner, id.id, i2);
        LookupIsolation(ts1, ts2, owner, id.id, i1, i2);
      }
    }
  }

  /** Per-owner isolation of `DELETE /:id`, as for `PUT /:id`. */
  lemma {:induction false} DeleteIsolation(ts1: seq<Task>, ts2: seq<Task>, owner: UserId, id: IdParam,
                                           fault: Option<string>)
    requires UniqueIds(ts1) && UniqueIds(ts2)
    requires SameTasksOf(ts1, ts2, owner)
    ensures DeleteSpec(ts1, owner, id, fault).0 == DeleteSpec(ts2, owner, id, fault).0
    ensures id.ObjectId? && fault.None? && !Owns(ts1, owner, id.id) ==>
      DeleteSpec(ts1, owner, id, fault) == (Failure(404, TaskNotFound), ts1)
  {
    if id.ObjectId? && fault.None? {
      OwnsIsolation(ts1, ts2, owner, id.id);
    }
  }

  /** `GET /` shows the caller the same list whatever other users own. */
  lemma {:induction false} ListIsolation(ts1: seq<Task>, ts2: seq<Task>, owner: UserId, fault: Option<string>)
    requires Owned(ts1, owner) == Owned(ts2, owner)
    ensures ListResponse(ts1, owner, fault) == ListResponse(ts2, owner, fault)
  {
  }

  lemma {:induction false} OwnedConcat(a: seq<Task>, b: seq<Task>, owner: UserId)
    ensures Owned(a + b, owner) == Owned(a, owner) + Owned(b, owner)
  {
    if a != [] {
      assert (a + b)[0] == a[0] && (a + b)[1..] == a[1..] + b;
      OwnedConcat(a[1..], b, owner);
    } else {
      assert a + b == b;
    }
  }

  lemma {:induction false} OwnedSplitAt(ts: seq<Task>, i: nat, owner: UserId)
    requires i < |ts|
    ensures Owned(ts, owner) == Owned(ts[..i], owner) + Owned([ts[i]], owner) + Owned(ts[i + 1..], owner)
  {
    assert ts == ts[..i] + ([ts[i]] + ts[i + 1..]);
    OwnedConcat(ts[..i], [ts[i]] + ts[i + 1..], owner);
    OwnedConcat([ts[i]], ts[i + 1..], owner);
  }

  /**
   * `PUT /:id` changes at most the matched task; every other user keeps
   * exactly the tasks, in the same order, unless the body hands the task to
   * them.
   */
  lemma {:induction false} UpdateLeavesOtherUsersAlone(ts: seq<Task>, owner: UserId, id: IdParam, p: Patch,
                                                       now: int, fault: Option<string>, other: UserId)
    requires UniqueIds(ts)
    requires other != owner
    requires p.userId.None? || p.userId.value != other
    ensures var ts' := UpdateSpec(ts, owner, id, p, now, fault).1;
      |ts'| == |ts| && Owned(ts', other) == Owned(ts, other)
  {
    if id.ObjectId? && fault.None? && Owns(ts, owner, id.id) {
      var i :| 0 <= i < |ts| && Matches(ts[i], id.id, owner);
      ChosenMatchIsUnique(ts, owner, id.id, i);
      var ts' := UpdateSpec(ts, owner, id, p, now, fault).1;
      if Assign(ts[i], p, now).Some? {
        assert ts' == ts[i := Assign(ts[i], p, now).value];
        OwnedSplitAt(ts, i, other);
        OwnedSplitAt(ts', i, other);
        assert ts'[..i] == ts[..i] && ts'[i + 1..] == ts[i + 1..];
      }
    }
  }

  /**
   * A successful `PUT /:id` replaces the matched task, in place, by the
   * patched one, and changes nothing else.
   */
  lemma UpdateReplacesOnlyTheMatch(ts: seq<Task>, owner: UserId, id: TaskId, p: Patch, now: int, i: nat)
    requires UniqueIds(ts)
    requires i < |ts| && Matches(ts[i], id, owner)
    ensures var (r, ts') := UpdateSpec(ts, owner, ObjectId(id), p, now, None);
      && |ts'| == |ts|
      && (forall j :: 0 <= j < |ts| && j != i ==> ts'[j] == ts[j])
      && (Assign(ts[i], p, now).Some? ==> r == Response(200, TaskJson(ts'[i])) && ts'[i] == Assign(ts[i], p, now).value)
      && (Assign(ts[i], p, now).None? ==> r == Failure(500, ValidationFailed) && ts' == ts)
  {
    ChosenMatchIsUnique(ts, owner, id, i);
  }

  /**
   * A successful `DELETE /:id` removes exactly the matched task; every other
   * task stays, in order, and every other user's list is unchanged.
   */
  lemma {:induction false} DeleteRemovesOnlyTheMatch(ts: seq<Task>, owner: UserId, id: TaskId, other: UserId)
    requires UniqueIds(ts)
    requires DeleteSpec(ts, owner, ObjectId(id), None).0.status == 200
    ensures var ts' := DeleteSpec(ts, owner, ObjectId(id), None).1;
      && |ts'| == |ts| - 1
      && (forall t :: t in ts' <==> t in ts && !Matches(t, id, owner))
      && (other != owner ==> Owned(ts', other) == Owned(ts, other))
  {
    var i :| 0 <= i < |ts| && Matches(ts[i], id, owner);
    ChosenMatchIsUnique(ts, owner, id, i);
    var ts' := ts[..i] + ts[i + 1..];
    assert DeleteSpec(ts, owner, ObjectId(id), None).1 == ts';
    RemoveAtMembers(ts, owner, id, i);
    if other != owner {
      OwnedSplitAt(ts, i, other);
      OwnedConcat(ts[..i], ts[i + 1..], other);
    }
  }

  lemma RemoveAtMembers(ts: seq<Task>, owner: UserId, id: TaskId, i: nat)
    requires UniqueIds(ts)
    requires i < |ts| && Matches(ts[i], id, owner)
    ensures forall t :: t in ts[..i] + ts[i + 1..] <==> t in ts && !Matches(t, id, owner)
  {
    var ts' := ts[..i] + ts[i + 1..];
    forall t | t in ts' ensures t in ts && !Matches(t, id, owner) {
      var j :| 0 <= j < |ts'| && ts'[j] == t;
      if j < i { assert t == ts[j]; } else { assert t == ts[j + 1]; }
    }
    forall t | t in ts && !Matches(t, id, owner) ensures t in ts' {
      var j :| 0 <= j < |ts| && ts[j] == t;
      if j < i { assert ts'[j] == t; } else { assert ts'[j - 1] == t; }
    }
  }

  /** A task can be deleted only once: the second `DELETE` of it is a 404. */
  lemma {:induction false} DeleteOnlyOnce(ts: seq<Task>, owner: UserId, id: TaskId)
    requires UniqueIds(ts)
    requires DeleteSpec(ts, owner, ObjectId(id), None).0.status == 200
    ensures var ts' := DeleteSpec(ts, owner, ObjectId(id), None).1;
      DeleteSpec(ts', owner, ObjectId(id), None) == (Failure(404, TaskNotFound), ts')
  {
    var ts' := DeleteSpec(ts, owner, ObjectId(id), None).1;
    DeleteRemovesOnlyTheMatch(ts, owner, id, owner);
  }
}
