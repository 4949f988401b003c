/** The staff dashboard's request list (`useWifiRequests`): loading and
    normalising the rows, the date-range and tab filters, the statistics, and
    the two status writes staff can make. The hook's React state is the class
    `RequestsHook`; effects and the trailing `fetchRequests()` calls are
    explicit method calls. */
module WifiRequestsHook {
  import opened Seqs
  import opened Text
  import opened Model
  import opened Database
  import opened EscalateRequests

  // ---------------------------------------------------------------------------
  // Loading

  /** `was_escalated` as the dashboard shows it: true for escalated requests,
      and for completed ones only when the stored flag is exactly `true`. */
  function Normalize(row: RequestRow): (r: WifiRequest)
    ensures r.id == row.id && r.name == row.name && r.email == row.email && r.roomNumber == row.roomNumber
    ensures r.deviceType == row.deviceType && r.issueType == row.issueType && r.description == row.description
    ensures r.status == row.status && r.createdAt == row.createdAt && r.updatedAt == row.updatedAt
    ensures r.comments == []
    ensures r.status == Escalated ==> r.wasEscalated
    ensures r.status == Pending || r.status == InProgress ==> !r.wasEscalated
    ensures r.status == Completed ==> (r.wasEscalated <==> row.wasEscalated == Some(true))
  {
    var wasEscalated := row.status == Escalated || (row.status == Completed && row.wasEscalated == Some(true));
    WifiRequest(row.id, row.name, row.email, row.roomNumber, row.deviceType, row.issueType, row.description,
                row.status, row.createdAt, row.updatedAt, wasEscalated, [])
  }

  function NormalizeAll(rows: seq<RequestRow>): (r: seq<WifiRequest>)
    ensures |r| == |rows|
    ensures forall i :: 0 <= i < |rows| ==> r[i] == Normalize(rows[i])
  {
    seq(|rows|, i requires 0 <= i < |rows| => Normalize(rows[i]))
  }

  /** The store's memory of an escalation, as the dashboard reads it back:
      a loaded request counts as ever escalated exactly when this holds. */
  predicate RemembersEscalation(row: RequestRow)
  {
    row.status == Escalated || (row.status == Completed && row.wasEscalated == Some(true))
  }

  lemma NormalizeEverEscalated(row: RequestRow)
    ensures EverEscalated(Normalize(row)) <==> RemembersEscalation(row)
  {
  }

  // ---------------------------------------------------------------------------
  // Date range and tabs

  /** The date picker's value: possibly absent, and each end possibly unset. */
  datatype DateRange = DateRange(from: Option<int>, to: Option<int>)

  /** `isDateInRange`. With both ends set it asks date-fns' `isWithinInterval`,
      which orders the two ends before the inclusive test. */
  predicate IsDateInRange(date: Option<DateRange>, t: int)
  {
    if date.None? || date.value.from.None? then true
    else if date.value.to.None? then t >= date.value.from.value
    else Min(date.value.from.value, date.value.to.value) <= t <= Max(date.value.from.value, date.value.to.value)
  }

  /** No range or no start keeps everything; a start alone is an open-ended
      lower bound; a start no later than the end gives the closed interval. */
  lemma DateRangeRule(date: Option<DateRange>, t: int)
    ensures date.None? || date.value.from.None? ==> IsDateInRange(date, t)
    ensures date.Some? && date.value.from.Some? && date.value.to.None? ==>
              (IsDateInRange(date, t) <==> date.value.from.value <= t)
    ensures date.Some? && date.value.from.Some? && date.value.to.Some? && date.value.from.value <= date.value.to.value ==>
              (IsDateInRange(date, t) <==> date.value.from.value <= t <= date.value.to.value)
  {
  }

  /** Which requests a tab shows. "all" hides completed requests unless they
      were escalated; an unknown tab shows everything. */
  predicate OnTab(tab: string, r: WifiRequest)
  {
    if tab == "all" then r.status != Completed || (r.status == Completed && r.wasEscalated)
    else if tab == "escalated" then r.status == Escalated || (r.status == Completed && r.wasEscalated)
    else if tab == "completed" then r.status == Completed
    else if tab == "pending" then r.status == Pending
    else if tab == "in-progress" then r.status == InProgress
    else true
  }

  /** What the list shows: requests in the date range and on the tab. */
  function Shows(tab: string, date: Option<DateRange>): WifiRequest -> bool
  {
    (r: WifiRequest) => IsDateInRange(date, r.createdAt) && OnTab(tab, r)
  }

  /** `filterRequests`: the date filter (only when a start is set), then the
      tab filter, each narrowing the previous list. */
  method FilterRequests(requests: seq<WifiRequest>, tab: string, date: Option<DateRange>)
    returns (filtered: seq<WifiRequest>)
    ensures forall i :: 0 <= i < |filtered| ==>
              filtered[i] in requests && IsDateInRange(date, filtered[i].createdAt) && OnTab(tab, filtered[i])
    ensures forall i :: 0 <= i < |requests| && IsDateInRange(date, requests[i].createdAt) && OnTab(tab, requests[i]) ==>
              requests[i] in filtered
    ensures IsSubsequence(filtered, requests)
    ensures filtered == Filter(requests, Shows(tab, date))
  {
    filtered := requests;
    if date.Some? && date.value.from.Some? {
      filtered := Filter(filtered, (r: WifiRequest) => IsDateInRange(date, r.createdAt));
    }
    DateFilterProperties(requests, filtered, date);
    ghost var dated := filtered;
    if tab != "all" {
      if tab == "escalated" {
        filtered := Filter(filtered, (r: WifiRequest) => r.status == Escalated || (r.status == Completed && r.wasEscalated));
      } else if tab == "completed" {
        filtered := Filter(filtered, (r: WifiRequest) => r.status == Completed);
      } else if tab == "pending" {
        filtered := Filter(filtered, (r: WifiRequest) => r.status == Pending);
      } else if tab == "in-progress" {
        filtered := Filter(filtered, (r: WifiRequest) => r.status == InProgress);
      }
    } else {
      filtered := Filter(filtered, (r: WifiRequest) => r.status != Completed || (r.status == Completed && r.wasEscalated));
    }
    TabFilterProperties(dated, filtered, tab, date);
    ComposeFilters(requests, dated, filtered, tab, date);
  }

  /** The date step of `filterRequests` keeps exactly the requests in range, in order. */
  lemma DateFilterProperties(requests: seq<WifiRequest>, dated: seq<WifiRequest>, date: Option<DateRange>)
    requires date.Some? && date.value.from.Some? ==>
               dated == Filter(requests, (r: WifiRequest) => IsDateInRange(date, r.createdAt))
    requires !(date.Some? && date.value.from.Some?) ==> dated == requests
    ensures forall i :: 0 <= i < |dated| ==> dated[i] in requests && IsDateInRange(date, dated[i].createdAt)
    ensures forall i :: 0 <= i < |requests| && IsDateInRange(date, requests[i].createdAt) ==> requests[i] in dated
    ensures IsSubsequence(dated, requests)
    ensures dated == Filter(requests, (r: WifiRequest) => IsDateInRange(date, r.createdAt))
  {
    if date.Some? && date.value.from.Some? {
      FilterIsSubsequence(requests, (r: WifiRequest) => IsDateInRange(date, r.createdAt));
    } else {
      IsSubsequenceReflexive(requests);
      FilterKeepsAll(requests, (r: WifiRequest) => IsDateInRange(date, r.createdAt));
    }
  }

  /** The two steps of `filterRequests` together. */
  lemma ComposeFilters(requests: seq<WifiRequest>, dated: seq<WifiRequest>, filtered: seq<WifiRequest>,
                       tab: string, date: Option<DateRange>)
    requires forall i :: 0 <= i < |dated| ==> dated[i] in requests && IsDateInRange(date, dated[i].createdAt)
    requires forall i :: 0 <= i < |requests| && IsDateInRange(date, requests[i].createdAt) ==> requests[i] in dated
    requires IsSubsequence(dated, requests)
    requires forall i :: 0 <= i < |filtered| ==> filtered[i] in dated && OnTab(tab, filtered[i])
    requires forall i :: 0 <= i < |dated| && OnTab(tab, dated[i]) ==> dated[i] in filtered
    requires IsSubsequence(filtered, dated)
    requires dated == Filter(requests, (r: WifiRequest) => IsDateInRange(date, r.createdAt))
    requires filtered == Filter(dated, (r: WifiRequest) => OnTab(tab, r))
    ensures forall i :: 0 <= i < |filtered| ==>
              filtered[i] in requests && IsDateInRange(date, filtered[i].createdAt) && OnTab(tab, filtered[i])
    ensures forall i :: 0 <= i < |requests| && IsDateInRange(date, requests[i].createdAt) && OnTab(tab, requests[i]) ==>
              requests[i] in filtered
    ensures IsSubsequence(filtered, requests)
    ensures filtered == Filter(requests, Shows(tab, date))
  {
    IsSubsequenceTransitive(filtered, dated, requests);
    FilterFilter(requests, (r: WifiRequest) => IsDateInRange(date, r.createdAt), (r: WifiRequest) => OnTab(tab, r),
                 Shows(tab, date));
    forall i | 0 <= i < |filtered|
      ensures filtered[i] in requests && IsDateInRange(date, filtered[i].createdAt)
    {
      var k :| 0 <= k < |dated| && dated[k] == filtered[i];
    }
    forall i | 0 <= i < |requests| && IsDateInRange(date, requests[i].createdAt) && OnTab(tab, requests[i])
      ensures requests[i] in filtered
    {
      var k :| 0 <= k < |dated| && dated[k] == requests[i];
    }
  }

  /** The tab step of `filterRequests` keeps exactly the dated requests on the tab, in order. */
  lemma TabFilterProperties(dated: seq<WifiRequest>, filtered: seq<WifiRequest>, tab: string, date: Option<DateRange>)
    requires
      || (tab == "all" && filtered == Filter(dated, (r: WifiRequest) => r.status != Completed || (r.status == Completed && r.wasEscalated)))
      || (tab == "escalated" && filtered == Filter(dated, (r: WifiRequest) => r.status == Escalated || (r.status == Completed && r.wasEscalated)))
      || (tab == "completed" && filtered == Filter(dated, (r: WifiRequest) => r.status == Completed))
      || (tab == "pending" && filtered == Filter(dated, (r: WifiRequest) => r.status == Pending))
      || (tab == "in-progress" && filtered == Filter(dated, (r: WifiRequest) => r.status == InProgress))
      || (tab !in {"all", "escalated", "completed", "pending", "in-progress"} && filtered == dated)
    ensures forall i :: 0 <= i < |filtered| ==> filtered[i] in dated && OnTab(tab, filtered[i])
    ensures forall i :: 0 <= i < |dated| && OnTab(tab, dated[i]) ==> dated[i] in filtered
    ensures IsSubsequence(filtered, dated)
    ensures filtered == Filter(dated, (r: WifiRequest) => OnTab(tab, r))
  {
    if tab == "all" {
      FilterIsSubsequence(dated, (r: WifiRequest) => r.status != Completed || (r.status == Completed && r.wasEscalated));
      FilterCongruent(dated, (r: WifiRequest) => r.status != Completed || (r.status == Completed && r.wasEscalated),
                      (r: WifiRequest) => OnTab(tab, r));
    } else if tab == "escalated" {
      FilterIsSubsequence(dated, (r: WifiRequest) => r.status == Escalated || (r.status == Completed && r.wasEscalated));
      FilterCongruent(dated, (r: WifiRequest) => r.status == Escalated || (r.status == Completed && r.wasEscalated),
                      (r: WifiRequest) => OnTab(tab, r));
    } else if tab == "completed" {
      FilterIsSubsequence(dated, (r: WifiRequest) => r.status == Completed);
      FilterCongruent(dated, (r: WifiRequest) => r.status == Completed, (r: WifiRequest) => OnTab(tab, r));
    } else if tab == "pending" {
      FilterIsSubsequence(dated, (r: WifiRequest) => r.status == Pending);
      FilterCongruent(dated, (r: WifiRequest) => r.status == Pending, (r: WifiRequest) => OnTab(tab, r));
    } else if tab == "in-progress" {
      FilterIsSubsequence(dated, (r: WifiRequest) => r.status == InProgress);
      FilterCongruent(dated, (r: WifiRequest) => r.status == InProgress, (r: WifiRequest) => OnTab(tab, r));
    } else {
      IsSubsequenceReflexive(dated);
      FilterKeepsAll(dated, (r: WifiRequest) => OnTab(tab, r));
    }
  }

  /** The "all" tab hides exactly the completed requests that were never
      escalated; the "escalated" tab shows exactly the ever-escalated ones. */
  lemma TabRules(r: WifiRequest)
    ensures !OnTab("all", r) <==> r.status == Completed && !r.wasEscalated
    ensures OnTab("escalated", r) <==> EverEscalated(r)
    ensures forall s :: OnTab(StatusName(s), r) <==> (if s == Escalated then EverEscalated(r) else r.status == s)
  {
  }

  // ---------------------------------------------------------------------------
  // Statistics

  datatype Stats = Stats(total: nat, pending: nat, inProgress: nat, completed: nat, escalated: nat,
                         avgResponseTime: string, avgResolutionTime: string)

  function InDateRange(all: seq<WifiRequest>, date: Option<DateRange>): seq<WifiRequest>
  {
    Filter(all, (r: WifiRequest) => IsDateInRange(date, r.createdAt))
  }

  /** `calculateStats`: counts over the requests inside the date range. */
  function CalculateStats(all: seq<WifiRequest>, date: Option<DateRange>): (st: Stats)
    ensures st.total == |InDateRange(all, date)|
    ensures st.pending == |Filter(InDateRange(all, date), IsPending)|
    ensures st.inProgress == |Filter(InDateRange(all, date), IsInProgress)|
    ensures st.completed == |Filter(InDateRange(all, date), IsCompleted)|
    ensures st.pending + st.inProgress + st.completed + |Filter(InDateRange(all, date), IsEscalated)| == st.total
    ensures st.escalated == |Filter(InDateRange(all, date), IsEscalated)|
                            + |Filter(InDateRange(all, date), IsCompletedAfterEscalation)|
    ensures st.escalated <= st.total
    ensures st.avgResponseTime == (if st.total > 0 then "18 minutes" else "N/A")
    ensures st.avgResolutionTime == (if st.total > 0 then "45 minutes" else "N/A")
  {
    var d := InDateRange(all, date);
    StatusCountsSum(d);
    EverEscalatedCount(d);
    CompletedAfterEscalationAtMostCompleted(d);
    Stats(|d|, |Filter(d, IsPending)|, |Filter(d, IsInProgress)|, |Filter(d, IsCompleted)|,
          |Filter(d, EverEscalated)|,
          if |d| > 0 then "18 minutes" else "N/A",
          if |d| > 0 then "45 minutes" else "N/A")
  }

  // ---------------------------------------------------------------------------
  // Status writes

  /** `requests.find(r => r.id === id)`: the first request with that id. */
  function FindById(requests: seq<WifiRequest>, id: string): (r: Option<WifiRequest>)
    ensures r.Some? ==> r.value in requests && r.value.id == id
    ensures r.None? ==> forall i :: 0 <= i < |requests| ==> requests[i].id != id
    ensures r.Some? ==> exists k :: 0 <= k < |requests| && requests[k] == r.value
                                    && forall j :: 0 <= j < k ==> requests[j].id != id
    decreases |requests|
  {
    if requests == [] then None
    else if requests[0].id == id then Some(requests[0])
    else
      var r := FindById(requests[1..], id);
      if r.Some? then
        var k :| 0 <= k < |requests[1..]| && requests[1..][k] == r.value
                 && forall j :: 0 <= j < k ==> requests[1..][j].id != id;
        assert requests[k + 1] == r.value;
        assert forall j :: 0 <= j < k + 1 ==> requests[j].id != id by {
          forall j | 0 <= j < k + 1 ensures requests[j].id != id {
            if j > 0 { assert requests[j] == requests[1..][j - 1]; }
          }
        }
        r
      else r
  }

  /** The `was_escalated` that `handleUpdateStatus` carries forward. */
  predicate KeepsFlag(found: Option<WifiRequest>)
  {
    found.Some? && (found.value.status == Escalated || found.value.wasEscalated)
  }

  /** The row write of `handleUpdateStatus`: the new status, plus
      `was_escalated: true` when the flag is carried forward. */
  function StatusWrite(rows: seq<RequestRow>, id: string, status: Status, flag: bool): seq<RequestRow>
  {
    if flag then SetStatusFlagged(rows, id, status) else SetStatus(rows, id, status)
  }

  /** The local list after a status change, with the optional comment appended. */
  function ApplyLocal(requests: seq<WifiRequest>, id: string, status: Status, flag: bool,
                      note: Option<ViewComment>): (r: seq<WifiRequest>)
    ensures |r| == |requests|
    ensures forall i :: 0 <= i < |requests| && requests[i].id != id ==> r[i] == requests[i]
    ensures forall i :: 0 <= i < |requests| && requests[i].id == id ==>
              && r[i].status == status && r[i].wasEscalated == flag
              && r[i].comments == requests[i].comments + (if note.Some? then [note.value] else [])
              && r[i] == requests[i].(status := status, wasEscalated := flag, comments := r[i].comments)
  {
    seq(|requests|, i requires 0 <= i < |requests| =>
      if requests[i].id == id
      then requests[i].(status := status, wasEscalated := flag,
                        comments := requests[i].comments + (if note.Some? then [note.value] else []))
      else requests[i])
  }

  /** `handleUpdateStatus` never clears a stored flag, and writes it as `true`
      whenever the local copy of the request is escalated or flagged; every
      other row is left alone. */
  lemma StatusWriteKeepsFlag(rows: seq<RequestRow>, id: string, status: Status, flag: bool, i: nat)
    requires i < |rows|
    ensures var after := StatusWrite(rows, id, status, flag);
            && |after| == |rows|
            && (rows[i].id != id ==> after[i] == rows[i])
            && (rows[i].id == id ==> after[i].status == status)
            && (rows[i].id == id && flag ==> after[i].wasEscalated == Some(true))
            && (rows[i].id == id && !flag ==> after[i].wasEscalated == rows[i].wasEscalated)
            && (rows[i].wasEscalated == Some(true) ==> after[i].wasEscalated == Some(true))
  {
  }

  /** The dialog's Escalate button goes through `handleUpdateStatus`, not
      through `handleEscalateRequest`: escalating a pending or in-progress
      request that was never flagged writes the status alone, so neither the
      store nor the local list records that it was escalated by hand. */
  lemma {:induction false} DialogEscalationOmitsFlag(rows: seq<RequestRow>, requests: seq<WifiRequest>, id: string,
                                                     note: Option<ViewComment>)
    requires FindById(requests, id).Some?
    requires FindById(requests, id).value.status in {Pending, InProgress}
    requires !FindById(requests, id).value.wasEscalated
    ensures !KeepsFlag(FindById(requests, id))
    ensures var after := StatusWrite(rows, id, Escalated, KeepsFlag(FindById(requests, id)));
            forall i :: 0 <= i < |rows| ==>
              after[i].wasEscalated == rows[i].wasEscalated
              && (rows[i].id == id ==> after[i].status == Escalated)
    ensures var local := ApplyLocal(requests, id, Escalated, KeepsFlag(FindById(requests, id)), note);
            forall i :: 0 <= i < |requests| && requests[i].id == id ==>
              local[i].status == Escalated && !local[i].wasEscalated
  {
    var flag := KeepsFlag(FindById(requests, id));
    forall i | 0 <= i < |rows|
      ensures StatusWrite(rows, id, Escalated, flag)[i].wasEscalated == rows[i].wasEscalated
      ensures rows[i].id == id ==> StatusWrite(rows, id, Escalated, flag)[i].status == Escalated
    {
      StatusWriteKeepsFlag(rows, id, Escalated, flag, i);
    }
  }

  /** When the dashboard's copy of a request is up to date, any status change
      keeps the store's memory of an escalation. */
  lemma FreshViewKeepsHistory(rows: seq<RequestRow>, i: nat, status: Status)
    requires i < |rows|
    requires RemembersEscalation(rows[i])
    ensures var after := StatusWrite(rows, rows[i].id, status, KeepsFlag(Some(Normalize(rows[i]))));
            status == Escalated || status == Completed ==> RemembersEscalation(after[i])
    ensures KeepsFlag(Some(Normalize(rows[i])))
  {
  }

  /** The sweep writes `status` alone. A dashboard that loaded a request
      before the sweep still holds it as pending, so completing it from there
      writes no flag, and the completed request stops counting as escalated. */
  lemma StaleViewLosesHistory(row: RequestRow)
    requires row.status == Pending && row.wasEscalated == None
    ensures var swept := SetStatus([row], row.id, Escalated);
            var completed := StatusWrite(swept, row.id, Completed, KeepsFlag(Some(Normalize(row))));
            && RemembersEscalation(swept[0])
            && !RemembersEscalation(completed[0])
            && !EverEscalated(Normalize(completed[0]))
  {
    var swept := SetStatus([row], row.id, Escalated);
    var completed := StatusWrite(swept, row.id, Completed, false);
    NormalizeEverEscalated(completed[0]);
  }

  // ---------------------------------------------------------------------------
  // Details and the manual sweep

  function ViewOf(c: CommentRow): ViewComment
  {
    ViewComment(c.commentText, c.createdAt, c.userName)
  }

  /** The request `handleViewDetails` opens: when the comment query succeeds
      and finds any, the request carries exactly the comments on it, in
      insertion order; otherwise the request is shown as it was. */
  function WithLoadedComments(request: WifiRequest, comments: seq<CommentRow>, fails: bool): (r: WifiRequest)
    ensures r == request.(comments := r.comments)
    ensures fails || CommentsFor(comments, request.id) == [] ==> r.comments == request.comments
    ensures !fails && CommentsFor(comments, request.id) != [] ==>
              && |r.comments| == |CommentsFor(comments, request.id)|
              && (forall i :: 0 <= i < |r.comments| ==>
                    exists c :: c in comments && c.requestId == request.id && r.comments[i] == ViewOf(c))
              && (forall c :: c in comments && c.requestId == request.id ==> ViewOf(c) in r.comments)
    ensures !fails && CommentsFor(comments, request.id) != [] ==>
              r.comments == seq(|CommentsFor(comments, request.id)|,
                                i requires 0 <= i < |CommentsFor(comments, request.id)| =>
                                  ViewOf(CommentsFor(comments, request.id)[i]))
  {
    var found := CommentsFor(comments, request.id);
    if fails || found == [] then request
    else
      var views := seq(|found|, i requires 0 <= i < |found| => ViewOf(found[i]));
      assert forall i :: 0 <= i < |views| ==> found[i] in comments && found[i].requestId == request.id;
      assert forall c :: c in comments && c.requestId == request.id ==> ViewOf(c) in views by {
        forall c | c in comments && c.requestId == request.id
          ensures ViewOf(c) in views
        {
          var k :| 0 <= k < |comments| && comments[k] == c;
          var j :| 0 <= j < |found| && found[j] == c;
          assert views[j] == ViewOf(c);
        }
      }
      request.(comments := views)
  }

  /** The toast `handleManualCheckEscalation` shows for the sweep's answer. */
  datatype Toast = SuccessToast(text: string) | InfoToast(text: string) | ErrorToast

  /** A failed invocation, or a non-2xx answer (which the client reports as an
      error), gives the error toast; a successful answer whose message
      mentions "Escalated" a success toast, any other an informational one. */
  function ManualCheckToast(invokeFails: bool, resp: Response): Toast
  {
    if invokeFails || !(200 <= resp.httpStatus < 300) || !resp.success then ErrorToast
    else if Includes(resp.message, "Escalated") then SuccessToast(resp.message)
    else InfoToast(resp.message)
  }

  lemma NoEmailsMessageLacksE()
    ensures 'E' !in NoEmailsMessage
  {
  }

  lemma NothingMessageLacksE()
    ensures 'E' !in NothingMessage
  {
  }

  /** The manual check reports success exactly when the sweep escalated its
      candidates, an error exactly when the call or the sweep failed. */
  lemma ManualCheckReport(invokeFails: bool, o: SweepOutcome)
    ensures ManualCheckToast(invokeFails, ResponseOf(o)).SuccessToast? <==> !invokeFails && o.EscalatedAll?
    ensures ManualCheckToast(invokeFails, ResponseOf(o)).ErrorToast? <==>
              invokeFails || o.SettingsError? || o.PendingQueryError? || o.ProgressQueryError?
  {
    match o
    case NoEmailsConfigured =>
      NoEmailsMessageLacksE();
      IncludesNeedsFirstChar(NoEmailsMessage, "Escalated");
    case NothingToEscalate =>
      NothingMessageLacksE();
      IncludesNeedsFirstChar(NothingMessage, "Escalated");
    case EscalatedAll(n) =>
      var m := ResponseOf(o).message;
      assert m[..9] == "Escalated";
    case _ =>
  }

  class RequestsHook {
    var requests: seq<WifiRequest>
    var filteredRequests: seq<WifiRequest>
    var activeTab: string
    var date: Option<DateRange>
    var stats: Stats
    var selectedRequest: Option<WifiRequest>
    var isDetailsOpen: bool

    /** The hook's initial state; `date` is the current month, read from the clock. */
    constructor (date: Option<DateRange>)
      ensures requests == [] && filteredRequests == [] && activeTab == "all" && this.date == date
      ensures stats == Stats(0, 0, 0, 0, 0, "N/A", "N/A")
      ensures selectedRequest == None && !isDetailsOpen
    {
      requests := [];
      filteredRequests := [];
      activeTab := "all";
      this.date := date;
      stats := Stats(0, 0, 0, 0, 0, "N/A", "N/A");
      selectedRequest := None;
      isDetailsOpen := false;
    }

    /** `setActiveTab`: the tab changes; the filter effect then runs
        (`Refilter`). */
    method SetActiveTab(tab: string)
      modifies this`activeTab
      ensures activeTab == tab
    {
      activeTab := tab;
    }

    /** `setDate`: the range changes and the filter effect then runs
        (`Refilter`); the statistics keep the range of the last fetch. */
    method SetDate(d: Option<DateRange>)
      modifies this`date
      ensures date == d
    {
      date := d;
    }

    /** `setIsDetailsOpen`, as the dialog calls it when closing. */
    method SetDetailsOpen(b: bool)
      modifies this`isDetailsOpen
      ensures isDetailsOpen == b
    {
      isDetailsOpen := b;
    }

    /** `handleViewDetails(request)`: load the request's comments and open it. */
    method ViewDetails(store: Store, request: WifiRequest, fails: bool)
      modifies this`selectedRequest, this`isDetailsOpen
      ensures isDetailsOpen
      ensures selectedRequest == Some(WithLoadedComments(request, store.comments, fails))
    {
      selectedRequest := Some(WithLoadedComments(request, store.comments, fails));
      isDetailsOpen := true;
    }

    /** The effect on `[requests, activeTab, date]`: with an empty list the
        filtered list is left as it was. */
    method Refilter()
      modifies this`filteredRequests
      ensures |requests| == 0 ==> filteredRequests == old(filteredRequests)
      ensures |requests| > 0 ==>
                && (forall i :: 0 <= i < |filteredRequests| ==>
                      filteredRequests[i] in requests && IsDateInRange(date, filteredRequests[i].createdAt)
                      && OnTab(activeTab, filteredRequests[i]))
                && (forall i :: (0 <= i < |requests| && IsDateInRange(date, requests[i].createdAt)
                                 && OnTab(activeTab, requests[i])) ==> requests[i] in filteredRequests)
                && IsSubsequence(filteredRequests, requests)
                && filteredRequests == Filter(requests, Shows(activeTab, date))
    {
      if |requests| == 0 {
        return;
      }
      filteredRequests := FilterRequests(requests, activeTab, date);
    }

    /** `fetchRequests`: on success the list is every row, normalised, and the
        statistics are recomputed; on failure nothing changes. */
    method FetchRequests(store: Store, fails: bool)
      modifies this`requests, this`stats
      ensures fails ==> requests == old(requests) && stats == old(stats)
      ensures !fails ==> requests == NormalizeAll(store.requests) && stats == CalculateStats(requests, date)
    {
      if fails {
        return;
      }
      requests := NormalizeAll(store.requests);
      stats := CalculateStats(requests, date);
    }

    /** `handleUpdateStatus(id, status, userProfile, comment)`. The status write
        comes first; a comment (when non-empty) is inserted next, authored by
        the profile's first name or "IT Staff"; the local list changes only
        when both went through. */
    method UpdateStatus(store: Store, id: string, status: Status, authorName: Option<string>,
                        comment: Option<string>, now: int, updateFails: bool, commentFails: bool)
      returns (ok: bool)
      modifies store, this`requests
      ensures store.settings == old(store.settings) && store.profiles == old(store.profiles)
      ensures var flag := KeepsFlag(FindById(old(requests), id));
              var author := OrElse(authorName, "IT Staff");
              && (updateFails ==> !ok && store.requests == old(store.requests)
                                  && store.comments == old(store.comments) && requests == old(requests))
              && (!updateFails ==> store.requests == StatusWrite(old(store.requests), id, status, flag))
              && (!updateFails && Truthy(comment) ==>
                    if commentFails
                    then !ok && store.comments == old(store.comments) && requests == old(requests)
                    else ok && store.comments == old(store.comments) + [CommentRow(id, author, comment.value, now)]
                         && requests == ApplyLocal(old(requests), id, status, flag, Some(ViewComment(comment.value, now, author))))
              && (!updateFails && !Truthy(comment) ==>
                    ok && store.comments == old(store.comments)
                    && requests == ApplyLocal(old(requests), id, status, flag, None))
    {
      var requestToUpdate := FindById(requests, id);
      var wasEscalated := KeepsFlag(requestToUpdate);
      if updateFails {
        return false;
      }
      store.requests := StatusWrite(store.requests, id, status, wasEscalated);
      var author := OrElse(authorName, "IT Staff");
      var note: Option<ViewComment> := None;
      if Truthy(comment) {
        if commentFails {
          return false;
        }
        store.comments := store.comments + [CommentRow(id, author, comment.value, now)];
        note := Some(ViewComment(comment.value, now, author));
      }
      requests := ApplyLocal(requests, id, status, wasEscalated, note);
      ok := true;
    }

    /** `handleEscalateRequest(id)`: status and flag are written together, in
        the store and in the local list; on failure nothing changes. */
    method EscalateRequest(store: Store, id: string, fails: bool) returns (ok: bool)
      modifies store, this`requests
      ensures store.comments == old(store.comments) && store.settings == old(store.settings)
      ensures store.profiles == old(store.profiles)
      ensures ok == !fails
      ensures fails ==> store.requests == old(store.requests) && requests == old(requests)
      ensures !fails ==> store.requests == SetStatusFlagged(old(store.requests), id, Escalated)
                         && requests == ApplyLocal(old(requests), id, Escalated, true, None)
    {
      if fails {
        return false;
      }
      store.requests := SetStatusFlagged(store.requests, id, Escalated);
      requests := ApplyLocal(requests, id, Escalated, true, None);
      ok := true;
    }
  }
}
