/**
 * The command-line client, working on the same board document: `create`,
 * `update <id> <field> <value>`, `move`, `show` and the selection `list`
 * prints. Task ids on the command line are prefixes: the first task whose id
 * starts with the argument is the one meant.
 */
module Cli {
  import opened TaskTypes
  import opened Seqs
  import opened Storage

  // ---------------------------------------------------------------- tag parsing

  /** The characters `String.prototype.trim` removes: white space and line terminators. */
  predicate IsSpace(c: char) {
    var n := c as int;
    n == 0x09 || n == 0x0A || n == 0x0B || n == 0x0C || n == 0x0D || n == 0x20 || n == 0xA0
    || n == 0x1680 || (0x2000 <= n <= 0x200A) || n == 0x2028 || n == 0x2029 || n == 0x202F
    || n == 0x205F || n == 0x3000 || n == 0xFEFF
  }

  /** `s` without its leading white space. */
  function TrimStart(s: string): (r: string)
    ensures |r| <= |s| && r == s[|s| - |r|..]
    ensures forall k :: 0 <= k < |s| - |r| ==> IsSpace(s[k])
    ensures r != [] ==> !IsSpace(r[0])
  {
    if s != [] && IsSpace(s[0]) then
      var r := TrimStart(s[1..]);
      assert s[|s| - |r|..] == s[1..][|s| - 1 - |r|..];
      r
    else s
  }

  /** `s` without its trailing white space. */
  function TrimEnd(s: string): (r: string)
    ensures |r| <= |s| && r == s[..|r|]
    ensures forall k :: |r| <= k < |s| ==> IsSpace(s[k])
    ensures r != [] ==> !IsSpace(r[|r| - 1])
  {
    if s != [] && IsSpace(s[|s| - 1]) then TrimEnd(s[..|s| - 1]) else s
  }

  /** `r` is `s` from position `i` on, between white space only. */
  predicate TrimmedAt(s: string, r: string, i: int) {
    && 0 <= i <= |s| - |r| && r == s[i..i + |r|]
    && (forall k :: 0 <= k < i ==> IsSpace(s[k]))
    && (forall k :: i + |r| <= k < |s| ==> IsSpace(s[k]))
  }

  /**
   * `trim`: the part of `s` between its leading and its trailing white
   * space; it neither starts nor ends with white space.
   */
  function Trim(s: string): (r: string)
    ensures exists i :: TrimmedAt(s, r, i)
    ensures r != [] ==> !IsSpace(r[0]) && !IsSpace(r[|r| - 1])
  {
    var front := TrimStart(s);
    var r := TrimEnd(front);
    var i := |s| - |front|;
    assert TrimmedAt(s, r, i);
    r
  }

  /** Trimming twice is trimming once. */
  lemma TrimIdempotent(s: string)
    ensures Trim(Trim(s)) == Trim(s)
  {
    var r := Trim(s);
    assert TrimStart(r) == r;
    assert TrimEnd(r) == r;
  }

  /** The test `c => c === sep`. */
  function IsChar(sep: char): char -> bool {
    (c: char) => c == sep
  }

  /** The pieces joined back with `sep` between them: the inverse of `Split`. */
  function Join(parts: seq<string>, sep: char): string {
    if parts == [] then ""
    else if |parts| == 1 then parts[0]
    else parts[0] + [sep] + Join(parts[1..], sep)
  }

  /**
   * `split(sep)`: the pieces of `s` between the occurrences of `sep`,
   * empty pieces included; there is always at least one piece.
   */
  function Split(s: string, sep: char): (r: seq<string>)
    ensures |r| >= 1
    ensures forall k :: 0 <= k < |r| ==> sep !in r[k]
    ensures Join(r, sep) == s
    decreases |s|
  {
    var i := FirstIndex(s, IsChar(sep));
    if i == -1 then
      assert forall k :: 0 <= k < |s| ==> s[k] != sep;
      [s]
    else
      var rest := Split(s[i + 1..], sep);
      assert s == s[..i] + [sep] + s[i + 1..];
      [s[..i]] + rest
  }

  /** Splitting yields one piece more than there are separators. */
  lemma {:induction false} SplitCount(s: string, sep: char)
    ensures |Split(s, sep)| == |Filter(s, IsChar(sep))| + 1
    decreases |s|
  {
    var i := FirstIndex(s, IsChar(sep));
    if i == -1 {
      assert Split(s, sep) == [s];
      FilterNone(s, IsChar(sep));
    } else {
      var front, back := s[..i], s[i + 1..];
      assert Split(s, sep) == [front] + Split(back, sep);
      SplitCount(back, sep);
      assert s == front + ([sep] + back);
      SeparatorCount(front, back, sep);
    }
  }

  /** A separator-free piece, a separator and the rest hold one separator more than the rest. */
  lemma SeparatorCount(front: string, back: string, sep: char)
    requires forall k :: 0 <= k < |front| ==> front[k] != sep
    ensures |Filter(front + ([sep] + back), IsChar(sep))| == |Filter(back, IsChar(sep))| + 1
  {
    FilterConcat(front, [sep] + back, IsChar(sep));
    FilterConcat([sep], back, IsChar(sep));
    assert Filter([sep], IsChar(sep)) == [sep];
    FilterNone(front, IsChar(sep));
  }

  /** Joining pieces free of the separator and splitting again gives the pieces back. */
  lemma {:induction false} SplitJoin(parts: seq<string>, sep: char)
    requires |parts| >= 1
    requires forall k :: 0 <= k < |parts| ==> sep !in parts[k]
    ensures Split(Join(parts, sep), sep) == parts
    decreases |parts|
  {
    var s := Join(parts, sep);
    var i := FirstIndex(s, IsChar(sep));
    if |parts| == 1 {
      assert s == parts[0];
    } else {
      var rest := Join(parts[1..], sep);
      assert s == parts[0] + [sep] + rest;
      assert s[|parts[0]|] == sep;
      assert i == |parts[0]|;
      assert s[..i] == parts[0];
      assert s[i + 1..] == rest;
      SplitJoin(parts[1..], sep);
    }
  }

  /** Each piece trimmed, as `.map(t => t.trim())` does. */
  function TrimAll(parts: seq<string>): (r: seq<string>)
    ensures |r| == |parts|
    ensures forall k :: 0 <= k < |r| ==> r[k] == Trim(parts[k])
  {
    seq(|parts|, k requires 0 <= k < |parts| => Trim(parts[k]))
  }

  /**
   * The tags argument of `create`: no tags when it is empty, otherwise the
   * comma-separated pieces, trimmed, with empty pieces kept.
   */
  function ParseTags(arg: string): (tags: seq<string>)
    ensures arg == "" ==> tags == []
    ensures arg != "" ==> |tags| == |Filter(arg, IsChar(','))| + 1
    ensures forall k :: 0 <= k < |tags| ==> ',' !in tags[k] && Trim(tags[k]) == tags[k]
    ensures arg != "" ==> tags == TrimAll(Split(arg, ','))
  {
    if arg == "" then []
    else
      var pieces := Split(arg, ',');
      SplitCount(arg, ',');
      var tags := TrimAll(pieces);
      forall k | 0 <= k < |tags|
        ensures ',' !in tags[k] && Trim(tags[k]) == tags[k]
      {
        TrimIdempotent(pieces[k]);
      }
      tags
  }

  /**
   * The value stored by `update <id> tags <value>`: split and trimmed with no
   * empty-string test, so an empty value gives one empty tag.
   */
  function TagsValue(value: string): (tags: seq<string>)
    ensures |tags| == |Filter(value, IsChar(','))| + 1
    ensures value != "" ==> tags == ParseTags(value)
    ensures value == "" ==> tags == [""]
  {
    SplitCount(value, ',');
    TrimAll(Split(value, ','))
  }

  // ---------------------------------------------------------------- create

  /** `create` demands a non-empty title, description, priority and status. */
  predicate HasRequiredArgs(title: string, description: string, priority: string, status: string) {
    title != "" && description != "" && priority != "" && status != ""
  }

  /**
   * The task `create` builds: the raw priority and status labels, the parsed
   * tags, an empty agent turned into no agent, no block reason and no link.
   * It is the task the store would make from the same fields.
   */
  function CliTask(title: string, description: string, priority: string, status: string,
                   tags: string, agent: string, id: string, now: string): (t: Task)
    ensures t == NewTask(TaskInput(title, description, ParsePriority(priority), ParseStatus(status),
                                   ParseTags(tags), if agent == "" then None else Some(agent), None, None), id, now)
    ensures PriorityName(t.priority) == priority && StatusName(t.status) == status
    ensures t.agent.None? <==> agent == ""
  {
    Task(id, title, description, ParsePriority(priority), ParseStatus(status), ParseTags(tags),
         now, now, if agent == "" then None else Some(agent), None, None, map[])
  }

  /**
   * `create`: with a required argument empty, fails before the board is
   * read; otherwise appends the new task at the end and saves.
   */
  method CreateTask(board: Board, title: string, description: string, priority: string, status: string,
                    tags: string, agent: string, freshId: string, now: string) returns (created: Option<Task>)
    modifies board
    ensures !HasRequiredArgs(title, description, priority, status) ==>
      created.None? && board.tasks == old(board.tasks) && board.lastUpdated == old(board.lastUpdated)
    ensures HasRequiredArgs(title, description, priority, status) ==>
      && created == Some(CliTask(title, description, priority, status, tags, agent, freshId, now))
      && board.tasks == old(board.tasks) + [created.value]
      && board.lastUpdated == now
  {
    if !HasRequiredArgs(title, description, priority, status) {
      return None;
    }
    var task := CliTask(title, description, priority, status, tags, agent, freshId, now);
    board.tasks := board.tasks + [task];
    board.Save(now);
    created := Some(task);
  }

  // ---------------------------------------------------------------- update, move, show

  predicate StartsWith(s: string, prefix: string) {
    |prefix| <= |s| && s[..|prefix|] == prefix
  }

  /** The test `t => t.id.startsWith(prefix)`. */
  function HasIdPrefix(prefix: string): Task -> bool {
    (t: Task) => StartsWith(t.id, prefix)
  }

  /** The position of the first task whose id starts with `prefix`, or -1. */
  function FindByPrefix(ts: seq<Task>, prefix: string): (i: int)
    ensures -1 <= i < |ts|
    ensures i == -1 <==> forall j :: 0 <= j < |ts| ==> !StartsWith(ts[j].id, prefix)
    ensures 0 <= i ==> StartsWith(ts[i].id, prefix) && forall j :: 0 <= j < i ==> !StartsWith(ts[j].id, prefix)
  {
    FirstIndex(ts, HasIdPrefix(prefix))
  }

  /**
   * A full id given on the command line finds a task no later than the exact
   * lookup does: an earlier task whose id merely starts with it wins.
   */
  lemma PrefixMatchNoLater(ts: seq<Task>, id: string)
    requires IndexOf(ts, id) != -1
    ensures 0 <= FindByPrefix(ts, id) <= IndexOf(ts, id)
  {
    var i := IndexOf(ts, id);
    assert ts[i].id[..|id|] == id;
  }

  /** The names of the task record's own fields. */
  const FieldNames: seq<string> := ["id", "title", "description", "priority", "status", "tags",
                                    "createdAt", "updatedAt", "agent", "blockReason", "googleTaskId"]

  /** A property name on the command line: one of the record's fields, or any other name. */
  datatype Field =
    | IdField | TitleField | DescriptionField | PriorityField | StatusField | TagsField
    | CreatedAtField | UpdatedAtField | AgentField | BlockReasonField | GoogleTaskIdField
    | ExtraField(name: string)

  function FieldName(f: Field): string {
    match f
    case IdField => "id"
    case TitleField => "title"
    case DescriptionField => "description"
    case PriorityField => "priority"
    case StatusField => "status"
    case TagsField => "tags"
    case CreatedAtField => "createdAt"
    case UpdatedAtField => "updatedAt"
    case AgentField => "agent"
    case BlockReasonField => "blockReason"
    case GoogleTaskIdField => "googleTaskId"
    case ExtraField(n) => n
  }

  /** The property a name denotes; distinct names denote distinct properties. */
  function FieldOf(name: string): (f: Field)
    ensures FieldName(f) == name
    ensures f.ExtraField? <==> name !in FieldNames
  {
    if name == "id" then IdField
    else if name == "title" then TitleField
    else if name == "description" then DescriptionField
    else if name == "priority" then PriorityField
    else if name == "status" then StatusField
    else if name == "tags" then TagsField
    else if name == "createdAt" then CreatedAtField
    else if name == "updatedAt" then UpdatedAtField
    else if name == "agent" then AgentField
    else if name == "blockReason" then BlockReasonField
    else if name == "googleTaskId" then GoogleTaskIdField
    else ExtraField(name)
  }

  /**
   * The name of the inherited prototype accessor: assigning a string to it
   * is ignored, unless the task was loaded with an own property of that name.
   */
  const ProtoName: string := "__proto__"

  /** Whether `task[field] = value` leaves the task as it is. */
  predicate Ignored(t: Task, f: Field) {
    f == ExtraField(ProtoName) && ProtoName !in t.extra
  }

  /**
   * `task[field] = value`, with `tags` split and trimmed instead; a name
   * outside the record's fields becomes an extra property, except the
   * prototype accessor, whose assignment of a string is ignored.
   */
  function SetField(t: Task, field: string, value: string): Task {
    Set(t, FieldOf(field), value)
  }

  function Set(t: Task, f: Field, value: string): Task {
    match f
    case TagsField => t.(tags := TagsValue(value))
    case IdField => t.(id := value)
    case TitleField => t.(title := value)
    case DescriptionField => t.(description := value)
    case PriorityField => t.(priority := ParsePriority(value))
    case StatusField => t.(status := ParseStatus(value))
    case CreatedAtField => t.(createdAt := value)
    case UpdatedAtField => t.(updatedAt := value)
    case AgentField => t.(agent := Some(value))
    case BlockReasonField => t.(blockReason := Some(value))
    case GoogleTaskIdField => t.(googleTaskId := Some(value))
    case ExtraField(n) => if n == ProtoName && n !in t.extra then t else t.(extra := t.extra[n := value])
  }

  /**
   * The property `field` of a task as the string a reader gets back; `None`
   * for an absent property and for `tags`, which is not a string.
   */
  function FieldValue(t: Task, field: string): Option<string> {
    Get(t, FieldOf(field))
  }

  function Get(t: Task, f: Field): Option<string> {
    match f
    case TagsField => None
    case IdField => Some(t.id)
    case TitleField => Some(t.title)
    case DescriptionField => Some(t.description)
    case PriorityField => Some(PriorityName(t.priority))
    case StatusField => Some(StatusName(t.status))
    case CreatedAtField => Some(t.createdAt)
    case UpdatedAtField => Some(t.updatedAt)
    case AgentField => t.agent
    case BlockReasonField => t.blockReason
    case GoogleTaskIdField => t.googleTaskId
    case ExtraField(n) => if n in t.extra then Some(t.extra[n]) else None
  }

  /**
   * Setting a field and reading it back gives the value set (the tag list,
   * for `tags`); every other field reads as before. An ignored assignment to
   * the prototype accessor changes nothing.
   */
  lemma SetFieldThenRead(t: Task, field: string, value: string, other: string)
    ensures field != "tags" && !(field == ProtoName && ProtoName !in t.extra) ==>
      FieldValue(SetField(t, field, value), field) == Some(value)
    ensures field == ProtoName && ProtoName !in t.extra ==> SetField(t, field, value) == t
    ensures SetField(t, field, value).tags == if field == "tags" then TagsValue(value) else t.tags
    ensures other != field ==> FieldValue(SetField(t, field, value), other) == FieldValue(t, other)
  {
    var f := FieldOf(field);
    assert f == TagsField <==> field == "tags" by {
      assert FieldName(f) == field;
    }
    assert Ignored(t, f) <==> field == ProtoName && ProtoName !in t.extra by {
      assert FieldName(f) == field;
    }
    SetGet(t, f, value);
    if other != field {
      assert FieldOf(other) != FieldOf(field) by {
        assert FieldName(FieldOf(other)) != FieldName(FieldOf(field));
      }
      SetGetFrame(t, FieldOf(field), FieldOf(other), value);
    }
  }

  /** A property set reads back as the value set; only `tags` changes the tag list. */
  lemma SetGet(t: Task, f: Field, value: string)
    ensures f != TagsField && !Ignored(t, f) ==> Get(Set(t, f, value), f) == Some(value)
    ensures Ignored(t, f) ==> Set(t, f, value) == t
    ensures Set(t, f, value).tags == if f == TagsField then TagsValue(value) else t.tags
  {
    match f
    case PriorityField =>
      assert PriorityName(ParsePriority(value)) == value;
    case StatusField =>
      assert StatusName(ParseStatus(value)) == value;
    case _ =>
  }

  /** Setting one property leaves every other property as it was. */
  lemma SetGetFrame(t: Task, f: Field, g: Field, value: string)
    requires f != g
    ensures Get(Set(t, f, value), g) == Get(t, g)
  {
    match f
    case ExtraField(n) =>
      assert g.ExtraField? ==> g.name != n;
    case _ =>
  }

  /** The names `update` treats specially, and the property each denotes. */
  lemma FieldOfNames(t: Task, field: string)
    ensures field == "tags" <==> FieldOf(field) == TagsField
    ensures field == "updatedAt" <==> FieldOf(field) == UpdatedAtField
    ensures field == ProtoName && ProtoName !in t.extra <==> Ignored(t, FieldOf(field))
  {
    assert FieldName(FieldOf(field)) == field;
  }

  /** The task `update` stores: the field set, then `updatedAt` refreshed; nothing else changes. */
  function Edited(t: Task, field: string, value: string, now: string): (r: Task)
    ensures r.updatedAt == now
    ensures field != "updatedAt" && field != "tags" && !(field == ProtoName && ProtoName !in t.extra) ==>
      FieldValue(r, field) == Some(value)
    ensures field == ProtoName && ProtoName !in t.extra ==> r == t.(updatedAt := now)
    ensures field == "tags" ==> r.tags == TagsValue(value)
    ensures field != "tags" ==> r.tags == t.tags
    ensures forall other :: other != field && other != "updatedAt" ==> FieldValue(r, other) == FieldValue(t, other)
  {
    var written := SetField(t, field, value);
    SetFieldThenRead(t, field, value, "updatedAt");
    StampFrame(written, field, now);
    assert forall other :: other != field && other != "updatedAt" ==>
      FieldValue(written.(updatedAt := now), other) == FieldValue(t, other) by {
      forall other | other != field && other != "updatedAt"
        ensures FieldValue(written.(updatedAt := now), other) == FieldValue(t, other)
      {
        SetFieldThenRead(t, field, value, other);
        StampFrame(written, other, now);
      }
    }
    written.(updatedAt := now)
  }

  /** Refreshing `updatedAt` leaves every other property as it was. */
  lemma StampFrame(t: Task, field: string, now: string)
    ensures field != "updatedAt" ==> FieldValue(t.(updatedAt := now), field) == FieldValue(t, field)
  {
    FieldOfNames(t, field);
    if field != "updatedAt" {
      SetGetFrame(t, UpdatedAtField, FieldOf(field), now);
    }
  }

  /**
   * `update <prefix> <field> <value>`: sets the field of the first task whose
   * id starts with `prefix`, refreshes its `updatedAt` and saves; with no
   * such task, fails and changes nothing.
   */
  method UpdateTask(board: Board, prefix: string, field: string, value: string, now: string)
    returns (updated: Option<Task>)
    modifies board
    ensures FindByPrefix(old(board.tasks), prefix) == -1 ==>
      updated.None? && board.tasks == old(board.tasks) && board.lastUpdated == old(board.lastUpdated)
    ensures 0 <= FindByPrefix(old(board.tasks), prefix) ==>
      var i := FindByPrefix(old(board.tasks), prefix);
      && updated == Some(Edited(old(board.tasks)[i], field, value, now))
      && board.tasks == old(board.tasks)[i := updated.value]
      && board.lastUpdated == now
  {
    var i := FindByPrefix(board.tasks, prefix);
    if i == -1 {
      return None;
    }
    var task := SetField(board.tasks[i], field, value);
    task := task.(updatedAt := now);
    board.tasks := board.tasks[i := task];
    board.Save(now);
    updated := Some(task);
  }

  /** `move <prefix> <status>`: exactly `update <prefix> status <status>`. */
  method MoveTask(board: Board, prefix: string, newStatus: string, now: string) returns (updated: Option<Task>)
    modifies board
    ensures FindByPrefix(old(board.tasks), prefix) == -1 ==>
      updated.None? && board.tasks == old(board.tasks) && board.lastUpdated == old(board.lastUpdated)
    ensures 0 <= FindByPrefix(old(board.tasks), prefix) ==>
      var i := FindByPrefix(old(board.tasks), prefix);
      && updated == Some(Edited(old(board.tasks)[i], "status", newStatus, now))
      && StatusName(updated.value.status) == newStatus
      && board.tasks == old(board.tasks)[i := updated.value]
      && board.lastUpdated == now
  {
    updated := UpdateTask(board, prefix, "status", newStatus, now);
  }

  /** `show <prefix>`: the first task whose id starts with `prefix`, or nothing. */
  function ShowTask(ts: seq<Task>, prefix: string): (r: Option<Task>)
    ensures r.None? <==> forall j :: 0 <= j < |ts| ==> !StartsWith(ts[j].id, prefix)
    ensures r.Some? ==> StartsWith(r.value.id, prefix) && r.value == ts[FindByPrefix(ts, prefix)]
  {
    var i := FindByPrefix(ts, prefix);
    if i == -1 then None else Some(ts[i])
  }

  // ---------------------------------------------------------------- list

  /** The test `t => t.status === filter` on the raw label. */
  function HasStatusName(filter: string): Task -> bool {
    (t: Task) => StatusName(t.status) == filter
  }

  /** The tasks `list` counts: all of them, or with a non-empty filter those whose status label equals it. */
  function Listed(ts: seq<Task>, filter: string): (r: seq<Task>)
    ensures filter == "" ==> r == ts
    ensures filter != "" ==> forall t :: t in r <==> t in ts && StatusName(t.status) == filter
  {
    if filter == "" then ts else Filter(ts, HasStatusName(filter))
  }

  /** Filtering on a label is the store's filtering by the status that label denotes. */
  lemma ListedIsByStatus(ts: seq<Task>, filter: string)
    requires filter != ""
    ensures Listed(ts, filter) == Filter(ts, HasStatus(ParseStatus(filter)))
  {
    forall t | t in ts
      ensures HasStatusName(filter)(t) == HasStatus(ParseStatus(filter))(t)
    {
      StatusNameMatches(t.status, filter);
    }
    FilterCongruent(ts, HasStatusName(filter), HasStatus(ParseStatus(filter)));
  }

  /** The columns `list` prints, in this order. */
  const DisplayOrder: seq<Status> := [Backlog, Planned, InProgress, Blocked, Review, Done]

  /** One printed column: a status and its tasks in board order. */
  datatype Group = Group(status: Status, tasks: seq<Task>)

  /** The statuses of the columns, one column after the other. */
  function Statuses(g: seq<Group>): seq<Status> {
    seq(|g|, k requires 0 <= k < |g| => g[k].status)
  }

  /** The test "some task has status `s`". */
  function HasTasks(ts: seq<Task>): Status -> bool {
    (s: Status) => Filter(ts, HasStatus(s)) != []
  }

  /**
   * The columns for the statuses of `order`: one for each status that has a
   * task, in the order of `order`, holding that status's tasks.
   */
  function Groups(ts: seq<Task>, order: seq<Status>): (g: seq<Group>)
    ensures forall k :: 0 <= k < |g| ==>
      g[k].tasks != [] && g[k].status in order && g[k].tasks == Filter(ts, HasStatus(g[k].status))
    ensures Statuses(g) == Filter(order, HasTasks(ts))
  {
    if order == [] then []
    else
      var here := Filter(ts, HasStatus(order[0]));
      var head := if here != [] then [Group(order[0], here)] else [];
      var rest := Groups(ts, order[1..]);
      StatusesConcat(head, rest);
      assert Statuses(head) == if HasTasks(ts)(order[0]) then [order[0]] else [];
      assert Filter(order, HasTasks(ts)) == Statuses(head) + Filter(order[1..], HasTasks(ts));
      head + rest
  }

  lemma StatusesConcat(a: seq<Group>, b: seq<Group>)
    ensures Statuses(a + b) == Statuses(a) + Statuses(b)
  {
    assert forall k :: 0 <= k < |a| ==> (a + b)[k] == a[k];
  }

  /** The tasks of the columns, one column after the other. */
  function Flatten(g: seq<Group>): seq<Task> {
    if g == [] then [] else g[0].tasks + Flatten(g[1..])
  }

  lemma {:induction false} FlattenConcat(a: seq<Group>, b: seq<Group>)
    ensures Flatten(a + b) == Flatten(a) + Flatten(b)
  {
    if a == [] {
      assert a + b == b;
    } else {
      assert (a + b)[1..] == a[1..] + b;
      FlattenConcat(a[1..], b);
    }
  }

  /** The test "the status is one of `order`". */
  function StatusIn(order: seq<Status>): Task -> bool {
    (t: Task) => t.status in order
  }

  predicate Distinct(order: seq<Status>) {
    forall i, j :: 0 <= i < j < |order| ==> order[i] != order[j]
  }

  /** The columns hold, between them, exactly the tasks whose status is one of `order`. */
  lemma {:induction false} GroupsCover(ts: seq<Task>, order: seq<Status>)
    requires Distinct(order)
    ensures multiset(Flatten(Groups(ts, order))) == multiset(Filter(ts, StatusIn(order)))
  {
    if order == [] {
      FilterNone(ts, StatusIn(order));
    } else {
      var here := Filter(ts, HasStatus(order[0]));
      var head := if here != [] then [Group(order[0], here)] else [];
      GroupsCover(ts, order[1..]);
      FlattenConcat(head, Groups(ts, order[1..]));
      assert Flatten(head) == here by {
        if here != [] {
          assert head[1..] == [];
        }
      }
      assert order[0] !in order[1..];
      FilterSplit(ts, StatusIn(order), HasStatus(order[0]), StatusIn(order[1..]));
    }
  }

  lemma DisplayOrderDistinct()
    ensures Distinct(DisplayOrder)
  {
  }

  /**
   * What `list [filter]` prints: the number of tasks it counts, and the
   * columns, in display order, of the statuses that have a counted task.
   */
  function ListView(ts: seq<Task>, filter: string): (view: (nat, seq<Group>))
    ensures view.0 == |Listed(ts, filter)|
    ensures Statuses(view.1) == Filter(DisplayOrder, HasTasks(Listed(ts, filter)))
    ensures forall k :: 0 <= k < |view.1| ==> view.1[k].tasks == Filter(Listed(ts, filter), HasStatus(view.1[k].status))
    ensures multiset(Flatten(view.1)) == multiset(Filter(Listed(ts, filter), StatusIn(DisplayOrder)))
  {
    DisplayOrderDistinct();
    GroupsCover(Listed(ts, filter), DisplayOrder);
    (|Listed(ts, filter)|, Groups(Listed(ts, filter), DisplayOrder))
  }
}
