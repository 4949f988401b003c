/** The PDF report (`generatePDF`): the title, the optional date filter, the
    summary counts, and the rows of the detailed and escalation tables. The
    document itself, locale date formatting and the file name (which reads
    the clock) are not modelled; dates stay timestamps. */
module PdfExport {
  import opened Seqs
  import opened Text
  import opened Model
  import WifiRequestsHook

  // ---------------------------------------------------------------------------
  // Title

  const ReportSuffix: string := " REPORT"

  /** `${reportType.replace('-', ' ').toUpperCase()} REPORT`. */
  function ReportTitle(reportType: string): string
  {
    ToUpperAscii(ReplaceFirst(reportType, '-', ' ')) + ReportSuffix
  }

  /** The title is the report type in capitals, with its first dash (only)
      turned into a space, followed by " REPORT". */
  lemma ReportTitleShape(reportType: string)
    ensures |ReportTitle(reportType)| == |reportType| + |ReportSuffix|
    ensures ReportTitle(reportType)[|reportType|..] == ReportSuffix
    ensures forall i :: 0 <= i < |reportType| ==> !('a' <= ReportTitle(reportType)[i] <= 'z')
    ensures '-' !in reportType ==> ReportTitle(reportType)[..|reportType|] == ToUpperAscii(reportType)
    ensures forall k :: 0 <= k < |reportType| && reportType[k] == '-' && '-' !in reportType[..k] ==>
              ReportTitle(reportType)[k] == ' ' && ReportTitle(reportType)[..k] == ToUpperAscii(reportType[..k])
  {
    var t := ReportTitle(reportType);
    var replaced := ReplaceFirst(reportType, '-', ' ');
    assert t[..|reportType|] == ToUpperAscii(replaced);
    if '-' !in reportType {
      ReplaceFirstNoMatch(reportType, '-', ' ');
    }
    forall k | 0 <= k < |reportType| && reportType[k] == '-' && '-' !in reportType[..k]
      ensures t[k] == ' ' && t[..k] == ToUpperAscii(reportType[..k])
    {
      ReplaceFirstAt(reportType, '-', ' ', k);
      assert replaced[k] == ' ';
      assert replaced[..k] == reportType[..k];
    }
  }

  /** "response-time" gives "RESPONSE TIME REPORT". */
  lemma ReportTitleExample(reportType: string)
    requires reportType == "response-time"
    ensures ReportTitle(reportType)[..|reportType|] == "RESPONSE TIME"
  {
    assert reportType[8] == '-' && '-' !in reportType[..8];
    ReplaceFirstAt(reportType, '-', ' ', 8);
    var replaced := ReplaceFirst(reportType, '-', ' ');
    assert replaced == "response time";
    var upper := ToUpperAscii(replaced);
    assert upper[0] == 'R' && upper[1] == 'E' && upper[2] == 'S' && upper[3] == 'P' && upper[4] == 'O';
    assert upper[5] == 'N' && upper[6] == 'S' && upper[7] == 'E' && upper[8] == ' ';
    assert upper[9] == 'T' && upper[10] == 'I' && upper[11] == 'M' && upper[12] == 'E';
    assert ReportTitle(reportType)[..|reportType|] == upper;
  }

  // ---------------------------------------------------------------------------
  // Filter and summary

  /** The requests the report covers: those created within [from, to], both
      ends included, when both ends are given; otherwise all of them. */
  function ReportRequests(requests: seq<WifiRequest>, from: Option<int>, to: Option<int>): seq<WifiRequest>
  {
    if from.Some? && to.Some? then Filter(requests, (r: WifiRequest) => from.value <= r.createdAt <= to.value)
    else requests
  }

  lemma ReportRequestsRule(requests: seq<WifiRequest>, from: Option<int>, to: Option<int>)
    ensures !(from.Some? && to.Some?) ==> ReportRequests(requests, from, to) == requests
    ensures from.Some? && to.Some? ==>
              && (forall i :: 0 <= i < |ReportRequests(requests, from, to)| ==>
                    ReportRequests(requests, from, to)[i] in requests
                    && from.value <= ReportRequests(requests, from, to)[i].createdAt <= to.value)
              && (forall i :: 0 <= i < |requests| && from.value <= requests[i].createdAt <= to.value ==>
                    requests[i] in ReportRequests(requests, from, to))
    ensures IsSubsequence(ReportRequests(requests, from, to), requests)
    ensures forall x :: multiset(ReportRequests(requests, from, to))[x] ==
              if from.Some? && to.Some? && !(from.value <= x.createdAt <= to.value) then 0
              else multiset(requests)[x]
  {
    if from.Some? && to.Some? {
      FilterIsSubsequence(requests, (r: WifiRequest) => from.value <= r.createdAt <= to.value);
      forall x {
        FilterMultiplicity(requests, (r: WifiRequest) => from.value <= r.createdAt <= to.value, x);
      }
    } else {
      IsSubsequenceReflexive(requests);
    }
  }

  datatype Summary = Summary(total: nat, pending: nat, inProgress: nat, completed: nat, escalated: nat)

  /** The summary table's counts. */
  function ReportSummary(filtered: seq<WifiRequest>): (s: Summary)
    ensures s.total == |filtered|
    ensures s.pending == |Filter(filtered, IsPending)|
    ensures s.inProgress == |Filter(filtered, IsInProgress)|
    ensures s.completed == |Filter(filtered, IsCompleted)|
    ensures s.pending + s.inProgress + s.completed + |Filter(filtered, IsEscalated)| == s.total
    ensures s.escalated == |Filter(filtered, IsEscalated)| + |Filter(filtered, IsCompletedAfterEscalation)|
    ensures s.escalated <= s.total
  {
    StatusCountsSum(filtered);
    EverEscalatedCount(filtered);
    CompletedAfterEscalationAtMostCompleted(filtered);
    Summary(|filtered|, |Filter(filtered, IsPending)|, |Filter(filtered, IsInProgress)|,
            |Filter(filtered, IsCompleted)|, |Filter(filtered, EverEscalated)|)
  }

  /** For a well-ordered range, the report's summary counts agree with the
      dashboard's statistics for the same range. */
  lemma SummaryMatchesDashboard(requests: seq<WifiRequest>, from: int, to: int)
    requires from <= to
    ensures var s := ReportSummary(ReportRequests(requests, Some(from), Some(to)));
            var st := WifiRequestsHook.CalculateStats(requests, Some(WifiRequestsHook.DateRange(Some(from), Some(to))));
            s.total == st.total && s.pending == st.pending && s.inProgress == st.inProgress
            && s.completed == st.completed && s.escalated == st.escalated
  {
    var date := Some(WifiRequestsHook.DateRange(Some(from), Some(to)));
    FilterCongruent(requests, (r: WifiRequest) => from <= r.createdAt <= to,
                    (r: WifiRequest) => WifiRequestsHook.IsDateInRange(date, r.createdAt));
  }

  // ---------------------------------------------------------------------------
  // Tables

  /** `getReportStatus`: the status label, with completed requests that were
      escalated set apart. */
  function ReportStatus(r: WifiRequest): string
  {
    if r.status == Completed && r.wasEscalated then "Completed (Escalated)"
    else match r.status
      case Pending => "Pending"
      case InProgress => "In Progress"
      case Completed => "Completed"
      case Escalated => "Escalated"
  }

  /** "Completed (Escalated)" marks exactly the completed requests that were
      escalated, and the five labels tell the five cases apart. */
  lemma ReportStatusRule(r: WifiRequest, q: WifiRequest)
    ensures ReportStatus(r) == "Completed (Escalated)" <==> r.status == Completed && r.wasEscalated
    ensures ReportStatus(r) == ReportStatus(q) <==>
              r.status == q.status && (r.status == Completed ==> r.wasEscalated == q.wasEscalated)
  {
  }

  /** A table row; the date stays a timestamp, and only the escalation table
      has a resolution column. */
  datatype ReportRow = ReportRow(name: string, room: string, issueType: string, status: string,
                                 submitted: int, resolution: Option<string>)

  function DetailRow(r: WifiRequest): ReportRow
  {
    ReportRow(r.name, r.roomNumber, IssueName(r.issueType), ReportStatus(r), r.createdAt, None)
  }

  function EscalationRow(r: WifiRequest): ReportRow
  {
    ReportRow(r.name, r.roomNumber, IssueName(r.issueType), ReportStatus(r), r.createdAt,
              Some(if r.status == Completed then "Resolved" else "Pending"))
  }

  /** What follows the summary table. */
  datatype Body = DetailTable(rows: seq<ReportRow>) | EscalationTable(rows: seq<ReportRow>) | NoEscalationsNote | SummaryOnly

  function ReportBody(filtered: seq<WifiRequest>, reportType: string): Body
  {
    if reportType == "detailed" || reportType == "summary" then
      DetailTable(seq(|filtered|, i requires 0 <= i < |filtered| => DetailRow(filtered[i])))
    else if reportType == "escalation" then
      var escalated := Filter(filtered, EverEscalated);
      if |escalated| > 0 then EscalationTable(seq(|escalated|, i requires 0 <= i < |escalated| => EscalationRow(escalated[i])))
      else NoEscalationsNote
    else SummaryOnly
  }

  /** Detailed and summary reports list every covered request, in order. */
  lemma DetailedListsAll(filtered: seq<WifiRequest>, reportType: string)
    requires reportType == "detailed" || reportType == "summary"
    ensures ReportBody(filtered, reportType).DetailTable?
    ensures |ReportBody(filtered, reportType).rows| == |filtered|
    ensures forall i :: 0 <= i < |filtered| ==>
              ReportBody(filtered, reportType).rows[i].name == filtered[i].name
              && ReportBody(filtered, reportType).rows[i].submitted == filtered[i].createdAt
              && ReportBody(filtered, reportType).rows[i].resolution.None?
  {
  }

  /** The escalation report lists exactly the covered requests that are or
      were escalated, in order, and marks a row resolved exactly when its
      request is completed; with none, it prints a note instead. */
  lemma EscalationReportRows(filtered: seq<WifiRequest>)
    ensures var body := ReportBody(filtered, "escalation");
            var escalated := Filter(filtered, EverEscalated);
            && (body.NoEscalationsNote? <==> forall i :: 0 <= i < |filtered| ==> !EverEscalated(filtered[i]))
            && (body.EscalationTable? ==>
                  && |body.rows| == |escalated|
                  && IsSubsequence(escalated, filtered)
                  && (forall i :: 0 <= i < |escalated| ==> EverEscalated(escalated[i]) && escalated[i] in filtered
                                                           && body.rows[i] == EscalationRow(escalated[i]))
                  && (forall i :: 0 <= i < |filtered| && EverEscalated(filtered[i]) ==> filtered[i] in escalated)
                  && (forall i :: 0 <= i < |body.rows| ==>
                        (body.rows[i].resolution == Some("Resolved") <==> escalated[i].status == Completed)))
  {
    var escalated := Filter(filtered, EverEscalated);
    FilterIsSubsequence(filtered, EverEscalated);
    if escalated != [] {
      assert escalated[0] in filtered && EverEscalated(escalated[0]);
    }
  }

  // ---------------------------------------------------------------------------
  // The report

  datatype Report = Report(title: string, summary: Summary, body: Body)

  /** `generatePDF`, without the document and the file name. */
  function GenerateReport(requests: seq<WifiRequest>, reportType: string, from: Option<int>, to: Option<int>): (rep: Report)
    ensures rep.title == ReportTitle(reportType)
    ensures rep.summary == ReportSummary(ReportRequests(requests, from, to))
    ensures rep.body == ReportBody(ReportRequests(requests, from, to), reportType)
    ensures rep.summary.total == |ReportRequests(requests, from, to)| <= |requests|
    ensures rep.body.SummaryOnly? <==> reportType !in {"detailed", "summary", "escalation"}
  {
    var filtered := ReportRequests(requests, from, to);
    Report(ReportTitle(reportType), ReportSummary(filtered), ReportBody(filtered, reportType))
  }
}
