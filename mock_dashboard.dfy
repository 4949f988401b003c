/** The self-contained dashboard (`Dashboard`) that runs on sample data: its
    own request record, the four sample requests, their fixed counts, the
    status tabs, and the in-memory status update that appends a staff
    comment. */
module MockDashboard {
  import opened Seqs
  import opened Model

  /** The dashboard's own request record: device and issue are free text, and
      the comment list may be absent. */
  datatype MockRequest = MockRequest(
    id: string,
    name: string,
    email: string,
    roomNumber: string,
    deviceType: string,
    issueType: string,
    description: string,
    status: Status,
    createdAt: int,
    comments: Option<seq<ViewComment>>)

  const Minute: int := 60000
  const StaffUser: string := "IT Staff"

  const Description1: string := "I can't connect to the WiFi network. My laptop doesn't show the hotel's network in the list."
  const Description2: string := "The WiFi is extremely slow. I can't even load basic web pages."
  const Description3: string := "WiFi keeps disconnecting every few minutes. Very frustrating."
  const Description4: string := "I can connect to WiFi but the login page doesn't load."
  const Comment2: string := "Checking the network in your area. Will send someone shortly."
  const Comment3: string := "Initial troubleshooting didn't resolve the issue. Escalating to network team."
  const Comment4a: string := "Reset captive portal for the room. Please try again."
  const Comment4b: string := "Issue resolved. Guest confirmed WiFi is working now."

  /** `MOCK_REQUESTS`, with the page-load clock `now` as a parameter: the
      sample times are minutes before it. */
  function MockRequests(now: int): seq<MockRequest>
  {
    [ MockRequest("1", "John Doe", "john.doe@example.com", "101", "laptop", "connect",
                  Description1, Pending, now - 5 * Minute, None),
      MockRequest("2", "Jane Smith", "jane.smith@example.com", "203", "smartphone", "slow",
                  Description2, InProgress, now - 30 * Minute,
                  Some([ViewComment(Comment2, now - 20 * Minute, StaffUser)])),
      MockRequest("3", "Robert Johnson", "robert.j@example.com", "305", "tablet", "disconnect",
                  Description3, Escalated, now - 120 * Minute,
                  Some([ViewComment(Comment3, now - 90 * Minute, StaffUser)])),
      MockRequest("4", "Mary Williams", "mary.w@example.com", "402", "laptop", "login",
                  Description4, Completed, now - 240 * Minute,
                  Some([ViewComment(Comment4a, now - 220 * Minute, StaffUser),
                        ViewComment(Comment4b, now - 180 * Minute, StaffUser)])) ]
  }

  predicate HasStatus(s: Status, r: MockRequest) { r.status == s }

  /** The `STATS` counts (the two average times are fixed texts). */
  datatype MockStats = MockStats(total: nat, pending: nat, inProgress: nat, completed: nat, escalated: nat)

  function CountStats(requests: seq<MockRequest>): MockStats
  {
    MockStats(|requests|,
              |Filter(requests, r => HasStatus(Pending, r))|,
              |Filter(requests, r => HasStatus(InProgress, r))|,
              |Filter(requests, r => HasStatus(Completed, r))|,
              |Filter(requests, r => HasStatus(Escalated, r))|)
  }

  /** The four status counts of any request list add up to its total. */
  lemma {:induction false} CountStatsSum(requests: seq<MockRequest>)
    ensures var st := CountStats(requests);
            st.pending + st.inProgress + st.completed + st.escalated == st.total
    decreases |requests|
  {
    if requests != [] {
      CountStatsSum(requests[1..]);
    }
  }

  /** The sample data has one request of each status. */
  lemma MockStatsValues(now: int)
    ensures CountStats(MockRequests(now)) == MockStats(4, 1, 1, 1, 1)
  {
    var m := MockRequests(now);
    assert m[0].status == Pending && m[1].status == InProgress && m[2].status == Escalated && m[3].status == Completed;
    OneWithStatus(m, Pending);
    OneWithStatus(m, InProgress);
    OneWithStatus(m, Completed);
    OneWithStatus(m, Escalated);
  }

  lemma OneWithStatus(m: seq<MockRequest>, s: Status)
    requires |m| == 4
    requires m[0].status == Pending && m[1].status == InProgress && m[2].status == Escalated && m[3].status == Completed
    ensures |Filter(m, r => HasStatus(s, r))| == 1
  {
    FilterFour(m, r => HasStatus(s, r));
  }

  /** The count kept from a four-element list, element by element. */
  lemma FilterFour(m: seq<MockRequest>, p: MockRequest -> bool)
    requires |m| == 4
    ensures |Filter(m, p)| == (if p(m[0]) then 1 else 0) + (if p(m[1]) then 1 else 0)
                              + (if p(m[2]) then 1 else 0) + (if p(m[3]) then 1 else 0)
  {
    var t1 := m[1..];
    var t2 := t1[1..];
    var t3 := t2[1..];
    assert t3[1..] == [];
    assert |Filter(t3, p)| == (if p(m[3]) then 1 else 0);
    assert |Filter(t2, p)| == (if p(m[2]) then 1 else 0) + |Filter(t3, p)|;
    assert |Filter(t1, p)| == (if p(m[1]) then 1 else 0) + |Filter(t2, p)|;
  }

  // ---------------------------------------------------------------------------
  // Tabs

  /** The `filteredRequests` predicate for a tab other than "all": a status
      tab matches that status exactly, and an unknown tab matches everything. */
  predicate TabMatches(tab: string, r: MockRequest)
  {
    if tab == "pending" then r.status == Pending
    else if tab == "in-progress" then r.status == InProgress
    else if tab == "completed" then r.status == Completed
    else if tab == "escalated" then r.status == Escalated
    else true
  }

  function FilterTab(requests: seq<MockRequest>, tab: string): seq<MockRequest>
  {
    if tab == "all" then requests else Filter(requests, r => TabMatches(tab, r))
  }

  /** A status tab shows exactly the requests with that status, in order; "all"
      and any unknown tab show everything. */
  lemma FilterTabRule(requests: seq<MockRequest>, tab: string)
    ensures IsSubsequence(FilterTab(requests, tab), requests)
    ensures ParseStatus(tab).Some? ==>
              && (forall i :: 0 <= i < |FilterTab(requests, tab)| ==>
                    FilterTab(requests, tab)[i].status == ParseStatus(tab).value)
              && (forall i :: 0 <= i < |requests| && requests[i].status == ParseStatus(tab).value ==>
                    requests[i] in FilterTab(requests, tab))
    ensures ParseStatus(tab).None? ==> FilterTab(requests, tab) == requests
    ensures ParseStatus(tab).Some? ==>
              FilterTab(requests, tab) == Filter(requests, (r: MockRequest) => r.status == ParseStatus(tab).value)
    ensures forall x :: multiset(FilterTab(requests, tab))[x] ==
              if ParseStatus(tab).Some? && x.status != ParseStatus(tab).value then 0 else multiset(requests)[x]
  {
    if ParseStatus(tab).Some? {
      StatusTab(requests, tab, ParseStatus(tab).value);
    } else {
      OtherTab(requests, tab);
    }
  }

  lemma StatusTab(requests: seq<MockRequest>, tab: string, s: Status)
    requires ParseStatus(tab) == Some(s)
    ensures IsSubsequence(FilterTab(requests, tab), requests)
    ensures forall i :: 0 <= i < |FilterTab(requests, tab)| ==> FilterTab(requests, tab)[i].status == s
    ensures forall i :: 0 <= i < |requests| && requests[i].status == s ==> requests[i] in FilterTab(requests, tab)
    ensures FilterTab(requests, tab) == Filter(requests, (r: MockRequest) => r.status == s)
    ensures forall x :: multiset(FilterTab(requests, tab))[x] == if x.status == s then multiset(requests)[x] else 0
  {
    FilterIsSubsequence(requests, r => TabMatches(tab, r));
    TabMatchesStatus(requests, tab, s);
    forall x {
      FilterMultiplicity(requests, (r: MockRequest) => r.status == s, x);
    }
  }

  /** A status tab's predicate is the status test. */
  lemma TabMatchesStatus(requests: seq<MockRequest>, tab: string, s: Status)
    requires ParseStatus(tab) == Some(s)
    ensures FilterTab(requests, tab) == Filter(requests, (r: MockRequest) => r.status == s)
  {
    assert tab != "all";
    forall i | 0 <= i < |requests|
      ensures TabMatches(tab, requests[i]) == (requests[i].status == s)
    {
    }
    FilterCongruent(requests, r => TabMatches(tab, r), (r: MockRequest) => r.status == s);
  }

  lemma OtherTab(requests: seq<MockRequest>, tab: string)
    requires ParseStatus(tab).None?
    ensures FilterTab(requests, tab) == requests
    ensures IsSubsequence(FilterTab(requests, tab), requests)
  {
    if tab != "all" {
      FilterKeepsAll(requests, r => TabMatches(tab, r));
    }
    IsSubsequenceReflexive(requests);
  }

  /** The escalated tab shows current escalations only: a request completed
      after an escalation is not on it. */
  lemma EscalatedTabIsCurrentOnly(requests: seq<MockRequest>)
    ensures forall r :: r in FilterTab(requests, "escalated") ==> r.status == Escalated
  {
    FilterTabRule(requests, "escalated");
  }

  // ---------------------------------------------------------------------------
  // Status update

  /** `request.comments || []`. */
  function CommentsOf(r: MockRequest): seq<ViewComment>
  {
    if r.comments.Some? then r.comments.value else []
  }

  /** One request after `handleUpdateStatus` for `id`: the status replaced and,
      when the comment is non-empty, a staff comment stamped `now` appended
      (to an empty list when the request had none). */
  function UpdatedRequest(r: MockRequest, id: string, status: Status, comment: Option<string>, now: int): MockRequest
  {
    if r.id != id then r
    else if Truthy(comment) then
      r.(status := status,
         comments := Some(CommentsOf(r) + [ViewComment(comment.value, now, StaffUser)]))
    else r.(status := status)
  }

  function UpdatedRequests(requests: seq<MockRequest>, id: string, status: Status, comment: Option<string>, now: int): seq<MockRequest>
  {
    seq(|requests|, i requires 0 <= i < |requests| => UpdatedRequest(requests[i], id, status, comment, now))
  }

  /** Only the requests with the matching id change; they take the new
      status, keep every other field, and gain exactly the new comment at the
      end when one was typed. */
  lemma UpdatedRequestsRule(requests: seq<MockRequest>, id: string, status: Status, comment: Option<string>, now: int)
    ensures var after := UpdatedRequests(requests, id, status, comment, now);
            && |after| == |requests|
            && (forall i :: 0 <= i < |requests| && requests[i].id != id ==> after[i] == requests[i])
            && (forall i :: 0 <= i < |requests| && requests[i].id == id ==>
                  && after[i].status == status
                  && after[i].(status := requests[i].status, comments := requests[i].comments) == requests[i]
                  && (Truthy(comment) ==>
                        CommentsOf(after[i]) == CommentsOf(requests[i]) + [ViewComment(comment.value, now, StaffUser)])
                  && (!Truthy(comment) ==> after[i].comments == requests[i].comments))
  {
  }

  /** Applying the update keeps the ids, so the set of requests with the id is
      the same before and after. */
  lemma UpdateKeepsIds(requests: seq<MockRequest>, id: string, status: Status, comment: Option<string>, now: int)
    ensures var after := UpdatedRequests(requests, id, status, comment, now);
            forall i :: 0 <= i < |requests| ==> after[i].id == requests[i].id
  {
  }

  class Dashboard {
    var activeTab: string
    var requests: seq<MockRequest>
    var selectedRequest: Option<MockRequest>
    var isDetailsOpen: bool

    constructor (now: int)
      ensures activeTab == "all" && requests == MockRequests(now)
      ensures selectedRequest.None? && !isDetailsOpen
    {
      activeTab := "all";
      requests := MockRequests(now);
      selectedRequest := None;
      isDetailsOpen := false;
    }

    /** The cards shown. */
    function Shown(): seq<MockRequest>
      reads this
    {
      FilterTab(requests, activeTab)
    }

    /** Picking a tab, or Refresh, which picks "all". */
    method SetTab(tab: string)
      modifies this`activeTab
      ensures activeTab == tab
    {
      activeTab := tab;
    }

    /** `handleViewDetails`: the dialog holds a copy of the card's request. */
    method ViewDetails(r: MockRequest)
      modifies this`selectedRequest, this`isDetailsOpen
      ensures selectedRequest == Some(r) && isDetailsOpen
    {
      selectedRequest := Some(r);
      isDetailsOpen := true;
    }

    /** `handleUpdateStatus`: the request list is replaced by its mapped copy;
        the open dialog's copy is not refreshed. */
    method UpdateStatus(id: string, status: Status, comment: Option<string>, now: int)
      modifies this`requests
      ensures requests == UpdatedRequests(old(requests), id, status, comment, now)
    {
      requests := UpdatedRequests(requests, id, status, comment, now);
    }
  }
}
