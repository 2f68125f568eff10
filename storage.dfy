/**
 * The board store: one board document holding the tasks in order, with
 * exact-id lookup, status filtering, creation by appending and update by
 * merging a patch into the first task with a given id.
 */
module Storage {
  import opened TaskTypes
  import opened Seqs

  /** What a caller supplies to create a task: a task without `id`, `createdAt` and `updatedAt`. */
  datatype TaskInput = TaskInput(
    title: string,
    description: string,
    priority: Priority,
    status: Status,
    tags: seq<string>,
    agent: Option<string>,
    blockReason: Option<string>,
    googleTaskId: Option<string>)

  /** The caller-supplied part of a task. */
  function InputOf(t: Task): TaskInput {
    TaskInput(t.title, t.description, t.priority, t.status, t.tags, t.agent, t.blockReason, t.googleTaskId)
  }

  /**
   * The task the store makes from `input`: every input field copied, and the
   * id and both timestamps set by the store.
   */
  function NewTask(input: TaskInput, id: string, now: string): (t: Task)
    ensures InputOf(t) == input
    ensures t.id == id && t.createdAt == now && t.updatedAt == now
    ensures t.extra == map[]
  {
    Task(id, input.title, input.description, input.priority, input.status, input.tags,
         now, now, input.agent, input.blockReason, input.googleTaskId, map[])
  }

  /** One optional field of a patch: absent, present with a value, or present as `undefined`. */
  datatype Edit<T> = Keep | Put(value: T) | Unset

  /**
   * A partial update: any task field except `id` and `createdAt`. A required
   * field is absent (`None`) or given; an optional one may also be cleared.
   */
  datatype Patch = Patch(
    title: Option<string>,
    description: Option<string>,
    priority: Option<Priority>,
    status: Option<Status>,
    tags: Option<seq<string>>,
    updatedAt: Option<string>,
    agent: Edit<string>,
    blockReason: Edit<string>,
    googleTaskId: Edit<string>)

  const EmptyPatch := Patch(None, None, None, None, None, None, Keep, Keep, Keep)

  /** The value of a required field after a patch. */
  function Pick<T>(given: Option<T>, current: T): T {
    if given.Some? then given.value else current
  }

  /** The value of an optional field after a patch. */
  function Apply<T>(e: Edit<T>, current: Option<T>): Option<T> {
    match e
    case Keep => current
    case Put(v) => Some(v)
    case Unset => None
  }

  /**
   * The object spread `{...task, ...patch, updatedAt: now}`: the fields the
   * patch holds replace the task's, and `updatedAt` is always the time of the update.
   */
  function Merge(t: Task, p: Patch, now: string): (r: Task)
    ensures r.id == t.id && r.createdAt == t.createdAt && r.extra == t.extra
    ensures r.updatedAt == now
  {
    t.(title := Pick(p.title, t.title),
       description := Pick(p.description, t.description),
       priority := Pick(p.priority, t.priority),
       status := Pick(p.status, t.status),
       tags := Pick(p.tags, t.tags),
       updatedAt := now,
       agent := Apply(p.agent, t.agent),
       blockReason := Apply(p.blockReason, t.blockReason),
       googleTaskId := Apply(p.googleTaskId, t.googleTaskId))
  }

  /** Field by field: a given field overwrites, an absent one keeps its value, `undefined` clears. */
  lemma MergeFields(t: Task, p: Patch, now: string)
    ensures var r := Merge(t, p, now);
      && (p.title.Some? ==> r.title == p.title.value) && (p.title.None? ==> r.title == t.title)
      && (p.description.Some? ==> r.description == p.description.value)
      && (p.description.None? ==> r.description == t.description)
      && (p.priority.Some? ==> r.priority == p.priority.value) && (p.priority.None? ==> r.priority == t.priority)
      && (p.status.Some? ==> r.status == p.status.value) && (p.status.None? ==> r.status == t.status)
      && (p.tags.Some? ==> r.tags == p.tags.value) && (p.tags.None? ==> r.tags == t.tags)
      && (p.agent.Put? ==> r.agent == Some(p.agent.value)) && (p.agent.Unset? ==> r.agent.None?)
      && (p.agent.Keep? ==> r.agent == t.agent)
      && (p.blockReason.Put? ==> r.blockReason == Some(p.blockReason.value))
      && (p.blockReason.Unset? ==> r.blockReason.None?) && (p.blockReason.Keep? ==> r.blockReason == t.blockReason)
      && (p.googleTaskId.Put? ==> r.googleTaskId == Some(p.googleTaskId.value))
      && (p.googleTaskId.Unset? ==> r.googleTaskId.None?)
      && (p.googleTaskId.Keep? ==> r.googleTaskId == t.googleTaskId)
  {
  }

  /** A patch with no fields changes nothing but `updatedAt`. */
  lemma MergeEmpty(t: Task, now: string)
    ensures Merge(t, EmptyPatch, now) == t.(updatedAt := now)
  {
  }

  /** Applying the same patch twice at the same time is applying it once. */
  lemma MergeIdempotent(t: Task, p: Patch, now: string)
    ensures Merge(Merge(t, p, now), p, now) == Merge(t, p, now)
  {
  }

  /** An optional-field edit `e` followed by `f`, as one edit. */
  function ThenEdit<T>(e: Edit<T>, f: Edit<T>): Edit<T> {
    if f.Keep? then e else f
  }

  /** Patch `p` followed by patch `q`, as one patch: the later patch wins on every field it holds. */
  function Then(p: Patch, q: Patch): Patch {
    Patch(if q.title.Some? then q.title else p.title,
          if q.description.Some? then q.description else p.description,
          if q.priority.Some? then q.priority else p.priority,
          if q.status.Some? then q.status else p.status,
          if q.tags.Some? then q.tags else p.tags,
          if q.updatedAt.Some? then q.updatedAt else p.updatedAt,
          ThenEdit(p.agent, q.agent),
          ThenEdit(p.blockReason, q.blockReason),
          ThenEdit(p.googleTaskId, q.googleTaskId))
  }

  /** Two updates in a row are one update with the composed patch, stamped with the later time. */
  lemma MergeThen(t: Task, p: Patch, q: Patch, now1: string, now2: string)
    ensures Merge(Merge(t, p, now1), q, now2) == Merge(t, Then(p, q), now2)
  {
  }

  /** The test `t => t.id === id` of `find` and `findIndex`. */
  function HasId(id: string): Task -> bool {
    (t: Task) => t.id == id
  }

  /** The test `t => t.status === status` of `filter`. */
  function HasStatus(s: Status): Task -> bool {
    (t: Task) => t.status == s
  }

  /** `findIndex` by exact id: the first position holding the id, or -1. */
  function IndexOf(ts: seq<Task>, id: string): (i: int)
    ensures -1 <= i < |ts|
    ensures i == -1 <==> forall j :: 0 <= j < |ts| ==> ts[j].id != id
    ensures 0 <= i ==> ts[i].id == id && forall j :: 0 <= j < i ==> ts[j].id != id
  {
    FirstIndex(ts, HasId(id))
  }

  /** The ids of the tasks, in board order. */
  function Ids(ts: seq<Task>): (r: seq<string>)
    ensures |r| == |ts|
  {
    seq(|ts|, j requires 0 <= j < |ts| => ts[j].id)
  }

  /** No two positions of the board hold the same id. */
  predicate UniqueIds(ts: seq<Task>) {
    forall i, j :: 0 <= i < |ts| && 0 <= j < |ts| && ts[i].id == ts[j].id ==> i == j
  }

  /**
   * The tasks after `updateTask(id, p)` at time `now`: the first task with
   * that id is merged with `p`; with no such task, the tasks are unchanged.
   */
  function Updated(ts: seq<Task>, id: string, p: Patch, now: string): (r: seq<Task>)
    ensures |r| == |ts|
    ensures Ids(r) == Ids(ts)
    ensures forall j :: 0 <= j < |ts| && j != IndexOf(ts, id) ==> r[j] == ts[j]
    ensures IndexOf(ts, id) == -1 ==> r == ts
    ensures 0 <= IndexOf(ts, id) ==> r[IndexOf(ts, id)] == Merge(ts[IndexOf(ts, id)], p, now)
  {
    var i := IndexOf(ts, id);
    if i == -1 then ts else ts[i := Merge(ts[i], p, now)]
  }

  /** A task created with an id no other task has is found again by that id, as created. */
  lemma FindCreated(ts: seq<Task>, input: TaskInput, id: string, now: string)
    requires forall j :: 0 <= j < |ts| ==> ts[j].id != id
    ensures IndexOf(ts + [NewTask(input, id, now)], id) == |ts|
  {
    var t := NewTask(input, id, now);
    assert (ts + [t])[|ts|].id == id;
  }

  /** The single board document, changed in place by the store's operations. */
  class Board {
    var tasks: seq<Task>
    var lastUpdated: string

    /** The board loaded when no document exists yet: no tasks, stamped with the time it was made. */
    constructor Initial(now: string)
      ensures tasks == [] && lastUpdated == now
    {
      tasks := [];
      lastUpdated := now;
    }

    /** `saveBoard`: stamps the board with the time of writing (the write itself is not modelled). */
    method Save(now: string)
      modifies this
      ensures lastUpdated == now && tasks == old(tasks)
    {
      lastUpdated := now;
    }

    /** `getTasks`: every task, in stored order. */
    function GetTasks(): (r: seq<Task>)
      reads this
      ensures |r| == |tasks| && forall j :: 0 <= j < |r| ==> r[j] == tasks[j]
    {
      tasks
    }

    /** `getTask`: the first task whose id equals `id`, or nothing. */
    function GetTask(id: string): (r: Option<Task>)
      reads this
      ensures r.None? <==> forall j :: 0 <= j < |tasks| ==> tasks[j].id != id
      ensures r.Some? ==> r.value.id == id && r.value == tasks[IndexOf(tasks, id)]
    {
      var i := IndexOf(tasks, id);
      if i == -1 then None else Some(tasks[i])
    }

    /** `getTasksByStatus`: exactly the tasks with status `s`, in board order. */
    function TasksByStatus(s: Status): (r: seq<Task>)
      reads this
      ensures forall t :: t in r <==> t in tasks && t.status == s
      ensures |r| <= |tasks|
      ensures r == Filter(tasks, HasStatus(s))
    {
      Filter(tasks, HasStatus(s))
    }

    /** `createTask`: appends the new task at the end and saves. */
    method Create(input: TaskInput, id: string, now: string) returns (t: Task)
      modifies this
      ensures t == NewTask(input, id, now)
      ensures tasks == old(tasks) + [t]
      ensures lastUpdated == now
    {
      t := NewTask(input, id, now);
      tasks := tasks + [t];
      Save(now);
    }

    /**
     * `updateTask`: merges `p` into the first task with id `id` and saves,
     * returning the stored result; with no such task, returns nothing and
     * neither changes nor saves the board.
     */
    method Update(id: string, p: Patch, now: string) returns (r: Option<Task>)
      modifies this
      ensures tasks == Updated(old(tasks), id, p, now)
      ensures IndexOf(old(tasks), id) == -1 ==> r.None? && lastUpdated == old(lastUpdated)
      ensures 0 <= IndexOf(old(tasks), id) ==>
        && r == Some(tasks[IndexOf(old(tasks), id)])
        && r.value == Merge(old(tasks)[IndexOf(old(tasks), id)], p, now)
        && lastUpdated == now
    {
      var i := IndexOf(tasks, id);
      if i == -1 {
        return None;
      }
      tasks := tasks[i := Merge(tasks[i], p, now)];
      Save(now);
      r := Some(tasks[i]);
    }
  }
}
