/** The records of the task board: priorities, statuses and tasks. */
module TaskTypes {

  datatype Option<+T> = None | Some(value: T)

  /** The three priority labels a task is meant to carry. */
  const PriorityNames: seq<string> := ["Low", "Med", "High"]

  /** The six status labels a task is meant to carry, in board column order. */
  const StatusNames: seq<string> := ["Backlog", "Planned", "In Progress", "Blocked", "Review", "Done"]

  /**
   * A priority. Nothing at run time validates the label a client stores, so
   * besides the three known labels a task may carry any other string; that
   * case is `OtherPriority`, which never holds one of the known labels.
   */
  datatype PriorityValue = Low | Med | High | OtherPriority(name: string)
  type Priority = p: PriorityValue | p.OtherPriority? ==> p.name !in PriorityNames witness Low

  /** A status, with `OtherStatus` for any label outside the six known ones. */
  datatype StatusValue = Backlog | Planned | InProgress | Blocked | Review | Done | OtherStatus(name: string)
  type Status = s: StatusValue | s.OtherStatus? ==> s.name !in StatusNames witness Backlog

  function PriorityName(p: Priority): string {
    match p
    case Low => "Low"
    case Med => "Med"
    case High => "High"
    case OtherPriority(l) => l
  }

  /** The priority a stored label denotes. */
  function ParsePriority(s: string): (p: Priority)
    ensures PriorityName(p) == s
    ensures p.OtherPriority? <==> s !in PriorityNames
  {
    if s == "Low" then Low
    else if s == "Med" then Med
    else if s == "High" then High
    else OtherPriority(s)
  }

  lemma PriorityRoundTrip(p: Priority)
    ensures ParsePriority(PriorityName(p)) == p
  {
  }

  function StatusName(s: Status): string {
    match s
    case Backlog => "Backlog"
    case Planned => "Planned"
    case InProgress => "In Progress"
    case Blocked => "Blocked"
    case Review => "Review"
    case Done => "Done"
    case OtherStatus(l) => l
  }

  /** The status a stored label denotes. */
  function ParseStatus(s: string): (st: Status)
    ensures StatusName(st) == s
    ensures st.OtherStatus? <==> s !in StatusNames
  {
    if s == "Backlog" then Backlog
    else if s == "Planned" then Planned
    else if s == "In Progress" then InProgress
    else if s == "Blocked" then Blocked
    else if s == "Review" then Review
    else if s == "Done" then Done
    else OtherStatus(s)
  }

  lemma StatusRoundTrip(s: Status)
    ensures ParseStatus(StatusName(s)) == s
  {
  }

  /** Comparing a status with a label is comparing it with the status the label denotes. */
  lemma StatusNameMatches(s: Status, text: string)
    ensures StatusName(s) == text <==> s == ParseStatus(text)
  {
    StatusRoundTrip(s);
  }

  /**
   * A task. `extra` holds the properties a client has set under a name
   * outside the task record's own fields; it is empty for every task the
   * store or the API creates.
   */
  datatype Task = Task(
    id: string,
    title: string,
    description: string,
    priority: Priority,
    status: Status,
    tags: seq<string>,
    createdAt: string,
    updatedAt: string,
    agent: Option<string>,
    blockReason: Option<string>,
    googleTaskId: Option<string>,
    extra: map<string, string>)
}
