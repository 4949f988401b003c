/** The records of the portal: the rows of the `wifi_requests`,
    `request_comments`, `escalation_settings` and `profiles` tables, and the
    request record the staff dashboard keeps in memory. Timestamps are
    milliseconds since the epoch. */
module Model {
  import opened Seqs

  datatype Option<+T> = None | Some(value: T)

  /** JavaScript truthiness of a nullable string: `null` and `""` are falsy. */
  predicate Truthy(s: Option<string>)
  {
    s.Some? && s.value != ""
  }

  /** `s || fallback` for a nullable string. */
  function OrElse(s: Option<string>, fallback: string): (r: string)
    ensures Truthy(s) ==> r == s.value
    ensures !Truthy(s) ==> r == fallback
  {
    if Truthy(s) then s.value else fallback
  }

  /** `Math.min` of two numbers: the smaller one. */
  function Min(a: int, b: int): (m: int)
    ensures m <= a && m <= b && (m == a || m == b)
  {
    if a <= b then a else b
  }

  /** `Math.max` of two numbers: the larger one. */
  function Max(a: int, b: int): (m: int)
    ensures m >= a && m >= b && (m == a || m == b)
  {
    if a <= b then b else a
  }

  /** The `request_status` enum. */
  datatype Status = Pending | InProgress | Completed | Escalated

  /** The string stored in the database for each status. */
  function StatusName(s: Status): string
  {
    match s
    case Pending => "pending"
    case InProgress => "in-progress"
    case Completed => "completed"
    case Escalated => "escalated"
  }

  function ParseStatus(name: string): Option<Status>
  {
    if name == "pending" then Some(Pending)
    else if name == "in-progress" then Some(InProgress)
    else if name == "completed" then Some(Completed)
    else if name == "escalated" then Some(Escalated)
    else None
  }

  /** Each status is stored under a name of its own and read back from it. */
  lemma ParseStatusName(s: Status)
    ensures ParseStatus(StatusName(s)) == Some(s)
  {
  }

  /** The `device_type` enum. */
  datatype DeviceType = Smartphone | Laptop | Tablet | OtherDevice

  function DeviceName(d: DeviceType): string
  {
    match d
    case Smartphone => "smartphone"
    case Laptop => "laptop"
    case Tablet => "tablet"
    case OtherDevice => "other"
  }

  /** The `issue_type` enum. */
  datatype IssueType = Connect | Slow | Disconnect | Login | OtherIssue

  function IssueName(t: IssueType): string
  {
    match t
    case Connect => "connect"
    case Slow => "slow"
    case Disconnect => "disconnect"
    case Login => "login"
    case OtherIssue => "other"
  }

  /** A row of `wifi_requests`; `was_escalated` is nullable. */
  datatype RequestRow = RequestRow(
    id: string,
    name: string,
    email: string,
    roomNumber: string,
    deviceType: DeviceType,
    issueType: IssueType,
    description: Option<string>,
    status: Status,
    createdAt: int,
    updatedAt: int,
    wasEscalated: Option<bool>)

  /** The table's primary key: no two rows share an id. */
  predicate UniqueIds(rows: seq<RequestRow>)
  {
    forall i, j :: 0 <= i < j < |rows| ==> rows[i].id != rows[j].id
  }

  /** A row of `request_comments`, attached to a request by `request_id`. */
  datatype CommentRow = CommentRow(requestId: string, userName: string, commentText: string, createdAt: int)

  predicate IsCommentOn(id: string, c: CommentRow)
  {
    c.requestId == id
  }

  /** The comments of one request, in insertion order. */
  function CommentsFor(comments: seq<CommentRow>, id: string): seq<CommentRow>
  {
    Filter(comments, c => IsCommentOn(id, c))
  }

  lemma CommentsForAppend(a: seq<CommentRow>, b: seq<CommentRow>, id: string)
    ensures CommentsFor(a + b, id) == CommentsFor(a, id) + CommentsFor(b, id)
  {
    FilterAppend(a, b, c => IsCommentOn(id, c));
  }

  lemma CommentsForSingle(r: CommentRow, id: string)
    ensures CommentsFor([r], id) == if r.requestId == id then [r] else []
  {
    assert [r][1..] == [];
  }

  /** The JSON values a `jsonb` column can hold; array elements are taken to be strings. */
  datatype Json = JNull | JBool(b: bool) | JNumber(n: int) | JString(s: string) | JArray(items: seq<string>) | JObject

  /** A row of `escalation_settings`. */
  datatype SettingsRow = SettingsRow(id: string, emails: Json, pendingThreshold: Option<int>, progressThreshold: Option<int>)

  /** The `user_role` enum. */
  datatype Role = Admin | User

  /** A row of `profiles`. */
  datatype ProfileRow = ProfileRow(
    id: string,
    firstName: Option<string>,
    lastName: Option<string>,
    role: Role,
    team: Option<string>,
    canEscalate: Option<bool>)

  /** A comment as the dashboard keeps it on a request record. */
  datatype ViewComment = ViewComment(text: string, timestamp: int, user: string)

  /** The request record of the staff dashboard (`WifiRequest` on the client):
      `was_escalated` is a plain flag and comments travel with the request. */
  datatype WifiRequest = WifiRequest(
    id: string,
    name: string,
    email: string,
    roomNumber: string,
    deviceType: DeviceType,
    issueType: IssueType,
    description: Option<string>,
    status: Status,
    createdAt: int,
    updatedAt: int,
    wasEscalated: bool,
    comments: seq<ViewComment>)

  /** Currently escalated, or completed after an escalation: the rule the
      "escalated" tab, the statistics and the reports share. */
  predicate EverEscalated(r: WifiRequest)
  {
    r.status == Escalated || (r.status == Completed && r.wasEscalated)
  }

  predicate IsPending(r: WifiRequest) { r.status == Pending }
  predicate IsInProgress(r: WifiRequest) { r.status == InProgress }
  predicate IsCompleted(r: WifiRequest) { r.status == Completed }
  predicate IsEscalated(r: WifiRequest) { r.status == Escalated }
  predicate IsCompletedAfterEscalation(r: WifiRequest) { r.status == Completed && r.wasEscalated }

  /** The four exact-status counts of any list of requests add up to its length. */
  lemma {:induction false} StatusCountsSum(s: seq<WifiRequest>)
    ensures |Filter(s, IsPending)| + |Filter(s, IsInProgress)| + |Filter(s, IsCompleted)|
            + |Filter(s, IsEscalated)| == |s|
    decreases |s|
  {
    if s != [] {
      StatusCountsSum(s[1..]);
    }
  }

  /** The "ever escalated" count is the escalated count plus the completed
      requests that carry the flag. */
  lemma EverEscalatedCount(s: seq<WifiRequest>)
    ensures |Filter(s, EverEscalated)| == |Filter(s, IsEscalated)| + |Filter(s, IsCompletedAfterEscalation)|
  {
    FilterDisjointUnionCount(s, IsEscalated, IsCompletedAfterEscalation, EverEscalated);
  }

  /** Completed-after-escalation requests are among the completed ones. */
  lemma {:induction false} CompletedAfterEscalationAtMostCompleted(s: seq<WifiRequest>)
    ensures |Filter(s, IsCompletedAfterEscalation)| <= |Filter(s, IsCompleted)|
    decreases |s|
  {
    if s != [] {
      CompletedAfterEscalationAtMostCompleted(s[1..]);
    }
  }
}
