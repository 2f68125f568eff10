/**
 * The task collection endpoint: `GET` lists the board, `POST` validates a
 * body, creates the task and, when it starts in Review, asks the remote
 * task service for a linked task.
 */
module TasksRoute {
  import opened TaskTypes
  import opened Storage

  /** The JSON body of a create request; a field that is missing or `null` is `None`. */
  datatype CreateBody = CreateBody(
    title: Option<string>,
    description: Option<string>,
    priority: Option<string>,
    status: Option<string>,
    tags: Option<seq<string>>,
    agent: Option<string>,
    blockReason: Option<string>)

  /** JavaScript truthiness of an optional string: present and not empty. */
  predicate Truthy(o: Option<string>) {
    o.Some? && o.value != ""
  }

  /** The request check: title, description, priority and status are all truthy. */
  predicate HasRequiredFields(b: CreateBody) {
    Truthy(b.title) && Truthy(b.description) && Truthy(b.priority) && Truthy(b.status)
  }

  /** What the handler hands to the store: the body's fields, with `tags` defaulting to the empty list. */
  function InputFrom(b: CreateBody): (input: TaskInput)
    requires HasRequiredFields(b)
    ensures input.title == b.title.value && input.description == b.description.value
    ensures PriorityName(input.priority) == b.priority.value && StatusName(input.status) == b.status.value
    ensures b.tags.None? ==> input.tags == []
    ensures b.tags.Some? ==> input.tags == b.tags.value
    ensures input.agent == b.agent && input.blockReason == b.blockReason && input.googleTaskId.None?
  {
    TaskInput(b.title.value, b.description.value, ParsePriority(b.priority.value), ParseStatus(b.status.value),
              if b.tags.Some? then b.tags.value else [], b.agent, b.blockReason, None)
  }

  /** A request to the remote task service to create a task. */
  datatype RemoteCreate = RemoteCreate(title: string, notes: string)

  const ReviewPrefix: string := "Review: "
  const NotesSeparator: string := "\n\nKanban Board Task ID: "

  /**
   * The remote task asked for when a task starts in Review: its title is the
   * task's title behind "Review: ", its notes the description, then the
   * task's id behind a separator line.
   */
  function ReviewRequest(t: Task): (r: RemoteCreate)
    ensures |r.title| == |ReviewPrefix| + |t.title|
    ensures r.title[..|ReviewPrefix|] == ReviewPrefix && r.title[|ReviewPrefix|..] == t.title
    ensures |r.notes| == |t.description| + |NotesSeparator| + |t.id|
    ensures r.notes[..|t.description|] == t.description
    ensures r.notes[|t.description|..|t.description| + |NotesSeparator|] == NotesSeparator
    ensures r.notes[|r.notes| - |t.id|..] == t.id
  {
    RemoteCreate(ReviewPrefix + t.title, t.description + NotesSeparator + t.id)
  }

  /** The outcome of a create request: 201 with the task, or 400. */
  datatype CreateResponse = Created(task: Task) | MissingFields

  function StatusCode(r: CreateResponse): int {
    if r.Created? then 201 else 400
  }

  /** The update that records a remote id on a task. */
  function LinkPatch(remoteId: string): Patch {
    EmptyPatch.(googleTaskId := Put(remoteId))
  }

  /** Linking the task just appended, when its id is not already taken, changes that task alone. */
  lemma LinkLandsOnCreated(ts: seq<Task>, created: Task, remoteId: string, now: string)
    requires forall j :: 0 <= j < |ts| ==> ts[j].id != created.id
    ensures Updated(ts + [created], created.id, LinkPatch(remoteId), now)
         == ts + [created.(googleTaskId := Some(remoteId), updatedAt := now)]
  {
    var all := ts + [created];
    assert all[|ts|].id == created.id;
    assert IndexOf(all, created.id) == |ts|;
  }

  /**
   * When the fresh id is already taken by an earlier task, the link is stored
   * on that earlier task and the task just appended stays unlinked.
   */
  lemma LinkMissesCreated(ts: seq<Task>, created: Task, remoteId: string, now: string)
    requires exists j :: 0 <= j < |ts| && ts[j].id == created.id
    ensures var r := Updated(ts + [created], created.id, LinkPatch(remoteId), now);
      r[|ts|] == created && r[IndexOf(ts, created.id)].googleTaskId == Some(remoteId)
  {
    var all := ts + [created];
    var j :| 0 <= j < |ts| && ts[j].id == created.id;
    assert all[j].id == created.id;
    assert IndexOf(all, created.id) == IndexOf(ts, created.id) by {
      assert forall m :: 0 <= m < |ts| ==> all[m] == ts[m];
    }
  }

  /** `GET`: 200 with every task of the board, in stored order. */
  method Get(board: Board) returns (tasks: seq<Task>, code: int)
    ensures code == 200
    ensures |tasks| == |board.tasks| && forall j :: 0 <= j < |tasks| ==> tasks[j] == board.tasks[j]
  {
    tasks := board.GetTasks();
    code := 200;
  }

  /**
   * `POST`. A body missing a required field gets 400 and the board is left
   * alone. Otherwise the task is created at time `now` with id `freshId` and
   * returned with 201; when it starts in Review, exactly one remote create is
   * requested, and `remoteId` is the service's answer. A truthy answer is
   * stored through an update at time `linkedAt` and also set on the returned
   * task, whose `updatedAt` stays `now`.
   */
  method Post(board: Board, body: CreateBody, freshId: string, now: string, linkedAt: string, remoteId: Option<string>)
    returns (response: CreateResponse, request: Option<RemoteCreate>)
    modifies board
    ensures StatusCode(response) == if HasRequiredFields(body) then 201 else 400
    ensures !HasRequiredFields(body) ==>
      && response == MissingFields && request.None?
      && board.tasks == old(board.tasks) && board.lastUpdated == old(board.lastUpdated)
    ensures HasRequiredFields(body) ==>
      var created := NewTask(InputFrom(body), freshId, now);
      var linked := created.status == Review && Truthy(remoteId);
      && request == (if created.status == Review then Some(ReviewRequest(created)) else None)
      && response == Created(if linked then created.(googleTaskId := remoteId) else created)
      && board.tasks == (if linked then Updated(old(board.tasks) + [created], freshId, LinkPatch(remoteId.value), linkedAt)
                         else old(board.tasks) + [created])
      && board.lastUpdated == (if linked then linkedAt else now)
    ensures HasRequiredFields(body) && (forall j :: 0 <= j < |old(board.tasks)| ==> old(board.tasks)[j].id != freshId) ==>
      && board.tasks == old(board.tasks) + [board.tasks[|old(board.tasks)|]]
      && response.Created?
      && board.tasks[|old(board.tasks)|] == response.task.(updatedAt := board.lastUpdated)
  {
    if !HasRequiredFields(body) {
      return MissingFields, None;
    }
    ghost var before := board.tasks;
    var task := board.Create(InputFrom(body), freshId, now);
    request := None;
    if task.status == Review {
      request := Some(ReviewRequest(task));
      if Truthy(remoteId) {
        assert board.tasks[|before|].id == task.id;
        var stored := board.Update(task.id, LinkPatch(remoteId.value), linkedAt);
        task := task.(googleTaskId := remoteId);
        if forall j :: 0 <= j < |before| ==> before[j].id != freshId {
          LinkLandsOnCreated(before, NewTask(InputFrom(body), freshId, now), remoteId.value, linkedAt);
        }
      }
    }
    response := Created(task);
  }
}
