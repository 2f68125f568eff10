/**
 * The reconciliation endpoint: every Review task linked to a remote task is
 * looked up on the remote service, and those the service reports completed
 * are moved to Done and unlinked.
 */
module SyncRoute {
  import opened TaskTypes
  import opened Seqs
  import opened Storage

  /** The status the remote service reports for a task. */
  datatype RemoteStatus = NeedsAction | Completed

  /** One line of the summary: a task moved to Done because its remote task was completed. */
  datatype SyncEntry = SyncEntry(taskId: string, title: string, status: RemoteStatus)

  /** The response body `{synced, updates}`. */
  datatype SyncSummary = SyncSummary(synced: nat, updates: seq<SyncEntry>)

  /** The tasks the reconciliation queries: in Review, with a truthy remote id. */
  predicate Linked(t: Task) {
    t.status == Review && t.googleTaskId.Some? && t.googleTaskId.value != ""
  }

  /** The remote id a task is looked up by, `task.googleTaskId!`: empty when it has none. */
  function RemoteId(t: Task): (id: string)
    ensures Linked(t) ==> Some(id) == t.googleTaskId && id != ""
  {
    if t.googleTaskId.Some? then t.googleTaskId.value else ""
  }

  /**
   * The queried tasks whose remote task is reported completed, in the order
   * they were queried, where `answers[i]` is the answer to the lookup of
   * `pending[i]` and `None` stands for a lookup that failed or returned nothing.
   */
  function Completing(pending: seq<Task>, answers: seq<Option<RemoteStatus>>): (r: seq<Task>)
    requires |answers| == |pending|
    ensures |r| <= |pending|
    decreases |pending|
  {
    if pending == [] then []
    else
      var n := |pending| - 1;
      Completing(pending[..n], answers[..n]) + (if answers[n] == Some(Completed) then [pending[n]] else [])
  }

  /** The test "the answer is completed". */
  const IsCompleted: Option<RemoteStatus> -> bool := (a: Option<RemoteStatus>) => a == Some(Completed)

  /** A task is among the completed ones exactly when some lookup of it was answered with completed. */
  lemma {:induction false} CompletingMembers(pending: seq<Task>, answers: seq<Option<RemoteStatus>>)
    requires |answers| == |pending|
    ensures forall t :: t in Completing(pending, answers) <==>
      exists i :: 0 <= i < |pending| && pending[i] == t && answers[i] == Some(Completed)
    decreases |pending|
  {
    if pending != [] {
      var n := |pending| - 1;
      var front, fronta := pending[..n], answers[..n];
      CompletingMembers(front, fronta);
      forall t
        ensures t in Completing(pending, answers) <==>
          exists i :: 0 <= i < |pending| && pending[i] == t && answers[i] == Some(Completed)
      {
        if t in Completing(front, fronta) {
          var i :| 0 <= i < n && front[i] == t && fronta[i] == Some(Completed);
          assert pending[i] == t && answers[i] == Some(Completed);
        }
        if exists i :: 0 <= i < |pending| && pending[i] == t && answers[i] == Some(Completed) {
          var i :| 0 <= i < |pending| && pending[i] == t && answers[i] == Some(Completed);
          if i < n {
            assert front[i] == t && fronta[i] == Some(Completed);
          }
        }
      }
    }
  }

  /** One more lookup adds its task at the end exactly when the answer is completed. */
  lemma CompletingSnoc(pending: seq<Task>, answers: seq<Option<RemoteStatus>>, i: nat)
    requires |answers| == |pending| && i < |pending|
    ensures Completing(pending[..i + 1], answers[..i + 1])
         == Completing(pending[..i], answers[..i]) + (if answers[i] == Some(Completed) then [pending[i]] else [])
  {
    assert pending[..i + 1][..i] == pending[..i] && answers[..i + 1][..i] == answers[..i];
  }

  /** `synced`: there are as many completed tasks as lookups answered with completed. */
  lemma {:induction false} CompletingCount(pending: seq<Task>, answers: seq<Option<RemoteStatus>>)
    requires |answers| == |pending|
    ensures |Completing(pending, answers)| == |Filter(answers, IsCompleted)|
    decreases |pending|
  {
    if pending != [] {
      var n := |pending| - 1;
      CompletingCount(pending[..n], answers[..n]);
      CompletingSnoc(pending, answers, n);
      assert pending[..n + 1] == pending && answers[..n + 1] == answers;
      assert answers == answers[..n] + [answers[n]];
      FilterSnoc(answers[..n], answers[n], IsCompleted);
    }
  }

  /** The update `{status: 'Done', googleTaskId: undefined}`. */
  const DonePatch: Patch := EmptyPatch.(status := Some(Done), googleTaskId := Unset)

  /** The summary line for a task moved to Done. */
  function EntryOf(t: Task): SyncEntry {
    SyncEntry(t.id, t.title, Completed)
  }

  /** The summary lines for the tasks `done`, in order. */
  function Entries(done: seq<Task>): seq<SyncEntry> {
    seq(|done|, k requires 0 <= k < |done| => EntryOf(done[k]))
  }

  /** The board after each task of `done`, in order, was updated by id to Done with its link cleared. */
  function Reconciled(ts: seq<Task>, done: seq<Task>, now: string): (r: seq<Task>)
    ensures |r| == |ts| && Ids(r) == Ids(ts)
    decreases |done|
  {
    if done == [] then ts
    else Updated(Reconciled(ts, done[..|done| - 1], now), done[|done| - 1].id, DonePatch, now)
  }

  /** Some task of `done` carries the id. */
  predicate Mentions(done: seq<Task>, id: string) {
    exists k :: 0 <= k < |done| && done[k].id == id
  }

  /** Boards with the same ids in the same order agree on whether the ids are unique. */
  lemma SameIdsUnique(a: seq<Task>, b: seq<Task>)
    requires Ids(a) == Ids(b) && UniqueIds(a)
    ensures UniqueIds(b)
  {
    forall i, j | 0 <= i < |b| && 0 <= j < |b| && b[i].id == b[j].id
      ensures i == j
    {
      assert Ids(a)[i] == Ids(b)[i] && Ids(a)[j] == Ids(b)[j];
    }
  }

  /**
   * With unique ids, the updates by the ids of `done` move exactly the tasks
   * whose id some task of `done` carries, each once, however often it is named.
   */
  lemma {:induction false} ReconciledMentions(ts: seq<Task>, done: seq<Task>, now: string)
    requires UniqueIds(ts)
    ensures var r := Reconciled(ts, done, now);
      forall j :: 0 <= j < |ts| ==> r[j] == if Mentions(done, ts[j].id) then Merge(ts[j], DonePatch, now) else ts[j]
    decreases |done|
  {
    if done != [] {
      var front := done[..|done| - 1];
      var d := done[|done| - 1];
      ReconciledMentions(ts, front, now);
      var prev := Reconciled(ts, front, now);
      SameIdsUnique(ts, prev);
      forall j | 0 <= j < |ts|
        ensures Mentions(done, ts[j].id) <==> Mentions(front, ts[j].id) || d.id == ts[j].id
      {
        if Mentions(front, ts[j].id) {
          var k :| 0 <= k < |front| && front[k].id == ts[j].id;
          assert done[k] == front[k];
        }
        if d.id == ts[j].id {
          assert done[|done| - 1] == d;
        }
        if Mentions(done, ts[j].id) && d.id != ts[j].id {
          var k :| 0 <= k < |done| && done[k].id == ts[j].id;
          assert k < |done| - 1 && front[k] == done[k];
        }
      }
      var i := IndexOf(prev, d.id);
      if i != -1 {
        assert Ids(prev)[i] == Ids(ts)[i];
        MergeIdempotent(ts[i], DonePatch, now);
        forall j | 0 <= j < |ts| && j != i
          ensures ts[j].id != d.id
        {
          assert Ids(prev)[j] == Ids(ts)[j];
        }
      } else {
        forall j | 0 <= j < |ts|
          ensures ts[j].id != d.id
        {
          assert Ids(prev)[j] == Ids(ts)[j];
        }
      }
    }
  }

  /** A task whose id no task of a board with unique ids carries can be put in front of it. */
  lemma ConsUnique(x: Task, tail: seq<Task>)
    requires UniqueIds(tail)
    requires forall k :: 0 <= k < |tail| ==> tail[k].id != x.id
    ensures UniqueIds([x] + tail)
  {
    var r := [x] + tail;
    assert forall k :: 0 < k < |r| ==> r[k] == tail[k - 1];
    forall i, j | 0 < i < |r| && 0 < j < |r| && r[i].id == r[j].id
      ensures i == j
    {
      assert r[i] == tail[i - 1] && r[j] == tail[j - 1];
    }
  }

  /** Filtering a board with unique ids keeps them unique. */
  lemma {:induction false} FilterUniqueIds(ts: seq<Task>, p: Task -> bool)
    requires UniqueIds(ts)
    ensures UniqueIds(Filter(ts, p))
  {
    if ts != [] {
      var rest := ts[1..];
      assert UniqueIds(rest) by {
        forall i, j | 0 <= i < |rest| && 0 <= j < |rest| && rest[i].id == rest[j].id
          ensures i == j
        {
          assert ts[i + 1].id == ts[j + 1].id;
        }
      }
      FilterUniqueIds(rest, p);
      var tail := Filter(rest, p);
      assert Filter(ts, p) == (if p(ts[0]) then [ts[0]] else []) + tail;
      if p(ts[0]) {
        forall k | 0 <= k < |tail|
          ensures tail[k].id != ts[0].id
        {
          assert tail[k] in rest;
          var m :| 0 <= m < |rest| && rest[m] == tail[k];
          assert ts[m + 1] == tail[k];
        }
        ConsUnique(ts[0], tail);
      } else {
        assert [] + tail == tail;
      }
    }
  }

  /** A task of a board with unique ids sits at the position an exact lookup of its id finds. */
  lemma FoundAt(ts: seq<Task>, t: Task)
    requires UniqueIds(ts) && t in ts
    ensures 0 <= IndexOf(ts, t.id) && ts[IndexOf(ts, t.id)] == t
  {
    var m :| 0 <= m < |ts| && ts[m] == t;
    assert IndexOf(ts, t.id) == m;
  }

  /**
   * The reconciliation as a whole, when ids are unique: a task that is not
   * in Review or has no link is left alone, and the `i`-th queried task
   * becomes Done, unlinked and restamped exactly when the `i`-th lookup
   * answered completed, and is otherwise left alone.
   */
  lemma ReconciledTasks(ts: seq<Task>, answers: seq<Option<RemoteStatus>>, now: string)
    requires UniqueIds(ts) && |answers| == |Filter(ts, Linked)|
    ensures var sel := Filter(ts, Linked);
      var r := Reconciled(ts, Completing(sel, answers), now);
      && |r| == |ts|
      && (forall j :: 0 <= j < |ts| && !Linked(ts[j]) ==> r[j] == ts[j])
      && (forall i :: 0 <= i < |sel| ==>
            && 0 <= IndexOf(ts, sel[i].id)
            && r[IndexOf(ts, sel[i].id)] ==
                 (if answers[i] == Some(Completed) then sel[i].(status := Done, googleTaskId := None, updatedAt := now)
                  else sel[i]))
  {
    var sel := Filter(ts, Linked);
    var done := Completing(sel, answers);
    ReconciledMentions(ts, done, now);
    FilterUniqueIds(ts, Linked);
    CompletingMembers(sel, answers);
    forall j, k | 0 <= j < |ts| && 0 <= k < |done| && done[k].id == ts[j].id
      ensures Linked(ts[j])
    {
      assert done[k] in done;
      var i :| 0 <= i < |sel| && sel[i] == done[k] && answers[i] == Some(Completed);
      assert sel[i] in sel;
      FoundAt(ts, sel[i]);
      assert IndexOf(ts, ts[j].id) == j;
    }
    forall i | 0 <= i < |sel|
      ensures 0 <= IndexOf(ts, sel[i].id) && ts[IndexOf(ts, sel[i].id)] == sel[i]
      ensures Mentions(done, sel[i].id) <==> answers[i] == Some(Completed)
    {
      assert sel[i] in sel;
      FoundAt(ts, sel[i]);
      if answers[i] == Some(Completed) {
        assert sel[i] in done;
        var k :| 0 <= k < |done| && done[k] == sel[i];
      }
      if Mentions(done, sel[i].id) {
        var k :| 0 <= k < |done| && done[k].id == sel[i].id;
        assert done[k] in done;
        var i' :| 0 <= i' < |sel| && sel[i'] == done[k] && answers[i'] == Some(Completed);
        assert i' == i;
      }
    }
  }

  /** The remote ids looked up for the tasks `sel`, in order. */
  function RemoteIds(sel: seq<Task>): seq<string> {
    seq(|sel|, k requires 0 <= k < |sel| => RemoteId(sel[k]))
  }

  /** Looking up one more task appends its remote id. */
  lemma RemoteIdsSnoc(sel: seq<Task>, i: nat)
    requires i < |sel|
    ensures RemoteIds(sel[..i + 1]) == RemoteIds(sel[..i]) + [RemoteId(sel[i])]
  {
  }

  /** One more completed task updates the board once more, by that task's id. */
  lemma ReconciledSnoc(ts: seq<Task>, done: seq<Task>, t: Task, now: string)
    ensures Reconciled(ts, done + [t], now) == Updated(Reconciled(ts, done, now), t.id, DonePatch, now)
  {
    assert (done + [t])[..|done|] == done;
  }

  /** One more completed task appends its summary line. */
  lemma EntriesSnoc(done: seq<Task>, t: Task)
    ensures Entries(done + [t]) == Entries(done) + [EntryOf(t)]
  {
  }

  /** A task of the loaded board is still found by id however many tasks were moved to Done. */
  lemma StillOnBoard(ts: seq<Task>, done: seq<Task>, t: Task, now: string)
    requires t in ts
    ensures IndexOf(Reconciled(ts, done, now), t.id) != -1
  {
    var j :| 0 <= j < |ts| && ts[j] == t;
    var cur := Reconciled(ts, done, now);
    assert Ids(cur)[j] == Ids(ts)[j];
    assert cur[j].id == t.id;
  }

  /**
   * The body of the loop for one queried task, given the answer to its
   * lookup: a completed remote task moves the task to Done and unlinks it,
   * and the summary line is appended when the update found the task.
   */
  method Handle(board: Board, t: Task, answer: Option<RemoteStatus>, now: string, updates: seq<SyncEntry>)
    returns (updates': seq<SyncEntry>)
    requires IndexOf(board.tasks, t.id) != -1
    modifies board
    ensures answer != Some(Completed) ==>
      board.tasks == old(board.tasks) && board.lastUpdated == old(board.lastUpdated) && updates' == updates
    ensures answer == Some(Completed) ==>
      && board.tasks == Updated(old(board.tasks), t.id, DonePatch, now)
      && board.lastUpdated == now
      && updates' == updates + [EntryOf(t)]
  {
    updates' := updates;
    if answer == Some(Completed) {
      var updated := board.Update(t.id, DonePatch, now);
      if updated.Some? {
        updates' := updates + [SyncEntry(t.id, t.title, Completed)];
      }
    }
  }

  /**
   * `POST`: looks up every linked Review task of the board, in board order,
   * by its remote id, the `i`-th lookup being answered by `answers[i]`; each
   * task whose remote task is completed is updated to Done with its link
   * cleared, and a summary line is appended for it when the update found the task.
   */
  method Sync(board: Board, answers: seq<Option<RemoteStatus>>, now: string)
    returns (queried: seq<string>, summary: SyncSummary)
    requires |answers| == |Filter(board.tasks, Linked)|
    modifies board
    ensures var sel := Filter(old(board.tasks), Linked);
      && |queried| == |sel|
      && forall k :: 0 <= k < |sel| ==> queried[k] == RemoteId(sel[k])
    ensures board.tasks == Reconciled(old(board.tasks), Completing(Filter(old(board.tasks), Linked), answers), now)
    ensures summary.updates == Entries(Completing(Filter(old(board.tasks), Linked), answers))
    ensures summary.synced == |summary.updates|
    ensures board.lastUpdated == if summary.updates == [] then old(board.lastUpdated) else now
  {
    var tasks := board.GetTasks();
    assert tasks == board.tasks;
    var selected := Filter(tasks, Linked);
    queried := [];
    var updates: seq<SyncEntry> := [];
    ghost var done: seq<Task> := [];
    var i := 0;
    while i < |selected|
      invariant 0 <= i <= |selected| == |answers|
      invariant |queried| == i
      invariant queried == RemoteIds(selected[..i])
      invariant done == Completing(selected[..i], answers[..i])
      invariant board.tasks == Reconciled(tasks, done, now)
      invariant updates == Entries(done)
      invariant board.lastUpdated == if updates == [] then old(board.lastUpdated) else now
    {
      var t := selected[i];
      queried := queried + [RemoteId(t)];
      RemoteIdsSnoc(selected, i);
      CompletingSnoc(selected, answers, i);
      StillOnBoard(tasks, done, t, now);
      updates := Handle(board, t, answers[i], now, updates);
      if answers[i] == Some(Completed) {
        ReconciledSnoc(tasks, done, t, now);
        EntriesSnoc(done, t);
        done := done + [t];
      } else {
        assert done + [] == done;
      }
      i := i + 1;
    }
    assert selected[..i] == selected && answers[..i] == answers;
    summary := SyncSummary(|updates|, updates);
  }
}
