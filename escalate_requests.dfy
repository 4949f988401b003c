/** The escalation sweep of the `escalate-requests` serverless function: read
    the recipient list, select the pending requests older than 20 minutes and
    the in-progress requests not updated for 45 minutes, mark each one
    escalated, leave a comment by "System" and compose the notification mail.
    The code as written is modelled: the limits are fixed (the stored
    thresholds are never read), the status write sets `status` only and is
    unconditional, and the reported count is the number of candidates. */
module EscalateRequests {
  import opened Seqs
  import opened Text
  import opened Model
  import opened Database

  /** The fixed age limits, in milliseconds. */
  const PendingAgeMs: int := 20 * 60 * 1000
  const ProgressAgeMs: int := 45 * 60 * 1000

  /** Matched by `.eq('status', 'pending').lt('created_at', now - 20 min)`. */
  predicate IsPendingCandidate(now: int, r: RequestRow)
  {
    r.status == Pending && r.createdAt < now - PendingAgeMs
  }

  /** Matched by `.eq('status', 'in-progress').lt('updated_at', now - 45 min)`. */
  predicate IsProgressCandidate(now: int, r: RequestRow)
  {
    r.status == InProgress && r.updatedAt < now - ProgressAgeMs
  }

  predicate IsCandidate(now: int, r: RequestRow)
  {
    IsPendingCandidate(now, r) || IsProgressCandidate(now, r)
  }

  function PendingCandidates(rows: seq<RequestRow>, now: int): seq<RequestRow>
  {
    Filter(rows, r => IsPendingCandidate(now, r))
  }

  function ProgressCandidates(rows: seq<RequestRow>, now: int): seq<RequestRow>
  {
    Filter(rows, r => IsProgressCandidate(now, r))
  }

  /** `requestsToEscalate`: the rows of the pending query followed by the rows
      of the in-progress query, each in table order. */
  function Candidates(rows: seq<RequestRow>, now: int): seq<RequestRow>
  {
    PendingCandidates(rows, now) + ProgressCandidates(rows, now)
  }

  /** `(settings?.emails || []).length === 0` under JavaScript semantics:
      null, false, 0 and "" fall back to the empty list; other non-arrays have
      no length 0 (a non-empty string has its own length, `true`, numbers and
      objects have none) and so let the sweep go on. */
  predicate NoRecipients(e: Json)
  {
    match e
    case JNull => true
    case JBool(b) => !b
    case JNumber(n) => n == 0
    case JString(s) => s == ""
    case JArray(xs) => xs == []
    case JObject => false
  }

  /** The way one sweep ends. */
  datatype SweepOutcome =
    | SettingsError
    | PendingQueryError
    | ProgressQueryError
    | NoEmailsConfigured
    | NothingToEscalate
    | EscalatedAll(reported: nat)

  /** The JSON answer of the function. */
  datatype Response = Response(success: bool, httpStatus: nat, message: string)

  const NoEmailsMessage: string := "No escalation emails configured"
  const NothingMessage: string := "No requests to escalate"

  /** The response for each outcome; the text the database driver adds to an
      error message is left out. */
  function ResponseOf(o: SweepOutcome): (r: Response)
    ensures r.success <==> !(o.SettingsError? || o.PendingQueryError? || o.ProgressQueryError?)
    ensures r.httpStatus == if r.success then 200 else 500
  {
    match o
    case SettingsError => Response(false, 500, "Error fetching escalation settings")
    case PendingQueryError => Response(false, 500, "Error fetching pending requests")
    case ProgressQueryError => Response(false, 500, "Error fetching in-progress requests")
    case NoEmailsConfigured => Response(true, 200, NoEmailsMessage)
    case NothingToEscalate => Response(true, 200, NothingMessage)
    case EscalatedAll(n) => Response(true, 200, "Escalated " + NatToString(n) + " requests")
  }

  /** How a sweep ends, given the store it starts from and which reads fail.
      `.single()` fails unless exactly one settings row exists. */
  function PlannedOutcome(rows: seq<RequestRow>, settings: seq<SettingsRow>, now: int,
                          settingsFails: bool, pendingFails: bool, progressFails: bool): SweepOutcome
  {
    if settingsFails || |settings| != 1 then SettingsError
    else if NoRecipients(settings[0].emails) then NoEmailsConfigured
    else if pendingFails then PendingQueryError
    else if progressFails then ProgressQueryError
    else if Candidates(rows, now) == [] then NothingToEscalate
    else EscalatedAll(|Candidates(rows, now)|)
  }

  // ---------------------------------------------------------------------------
  // What one candidate leaves behind

  /** The breached limit, by the status the candidate had when selected. */
  function WasStatus(s: Status): string
  {
    if s == Pending then "pending for 20+ minutes" else "in progress for 45+ minutes"
  }

  const AuditPrefix: string := "This request was automatically escalated because it was "
  const AuditSuffix: string := " without resolution."

  /** The sentence the comment and the mail share. */
  function AuditText(s: Status): string
  {
    AuditPrefix + WasStatus(s) + AuditSuffix
  }

  /** The comment inserted for an escalated candidate; `created_at` is the
      database's default, the time of the sweep. */
  function AuditComment(r: RequestRow, now: int): CommentRow
  {
    CommentRow(r.id, "System", AuditText(r.status), now)
  }

  /** A template literal shows a null description as "null". */
  function DescriptionText(d: Option<string>): string
  {
    if d.Some? then d.value else "null"
  }

  /** The notification mail as composed: recipients, subject, body. */
  datatype Email = Email(to: seq<string>, subject: string, body: string)

  function EscalationEmail(to: seq<string>, r: RequestRow): Email
  {
    Email(to,
      "WiFi Request Escalated - " + r.id,
      "\nRequest from " + r.name + " (" + r.email + ") has been escalated.\n"
      + "Room: " + r.roomNumber + "\n"
      + "Issue Type: " + IssueName(r.issueType) + "\n"
      + "Device Type: " + DeviceName(r.deviceType) + "\n"
      + "Description: " + DescriptionText(r.description) + "\n\n"
      + AuditText(r.status) + "\n\n"
      + "Please address this request as soon as possible.\n")
  }

  // ---------------------------------------------------------------------------
  // The effect of the loop over the candidates

  /** The ids whose status write went through. */
  function SucceededIds(cands: seq<RequestRow>, updateFails: set<string>): set<string>
  {
    set c | c in cands && c.id !in updateFails :: c.id
  }

  /** The table after the status writes for the ids in `ids`. */
  function EscalateRows(rows: seq<RequestRow>, ids: set<string>): (r: seq<RequestRow>)
    ensures |r| == |rows|
    ensures forall i :: 0 <= i < |rows| ==>
              r[i] == if rows[i].id in ids then rows[i].(status := Escalated) else rows[i]
  {
    seq(|rows|, i requires 0 <= i < |rows| => if rows[i].id in ids then rows[i].(status := Escalated) else rows[i])
  }

  /** The comments the loop inserts, in candidate order: one per candidate whose
      status write and comment insert both succeeded. */
  function AuditComments(cands: seq<RequestRow>, updateFails: set<string>, commentFails: set<string>, now: int): seq<CommentRow>
    decreases |cands|
  {
    if cands == [] then []
    else
      var c := cands[|cands| - 1];
      AuditComments(cands[..|cands| - 1], updateFails, commentFails, now)
      + (if c.id !in updateFails && c.id !in commentFails then [AuditComment(c, now)] else [])
  }

  /** The mails composed, in candidate order: one per candidate whose status
      write succeeded, whatever became of its comment. `emails.join(', ')`
      throws on anything but an array, and the mail step catches it. */
  function Notifications(cands: seq<RequestRow>, updateFails: set<string>, emails: Json): seq<Email>
    decreases |cands|
  {
    if cands == [] then []
    else
      var c := cands[|cands| - 1];
      Notifications(cands[..|cands| - 1], updateFails, emails)
      + (if c.id !in updateFails && emails.JArray? then [EscalationEmail(emails.items, c)] else [])
  }

  lemma EscalateRowsStep(rows: seq<RequestRow>, ids: set<string>, id: string)
    ensures SetStatus(EscalateRows(rows, ids), id, Escalated) == EscalateRows(rows, ids + {id})
  {
  }

  lemma AuditCommentsStep(cands: seq<RequestRow>, i: nat, updateFails: set<string>, commentFails: set<string>, now: int)
    requires i < |cands|
    ensures AuditComments(cands[..i + 1], updateFails, commentFails, now)
            == AuditComments(cands[..i], updateFails, commentFails, now)
               + (if cands[i].id !in updateFails && cands[i].id !in commentFails then [AuditComment(cands[i], now)] else [])
  {
    assert cands[..i + 1][..i] == cands[..i];
  }

  lemma NotificationsStep(cands: seq<RequestRow>, i: nat, updateFails: set<string>, emails: Json)
    requires i < |cands|
    ensures Notifications(cands[..i + 1], updateFails, emails)
            == Notifications(cands[..i], updateFails, emails)
               + (if cands[i].id !in updateFails && emails.JArray? then [EscalationEmail(emails.items, cands[i])] else [])
  {
    assert cands[..i + 1][..i] == cands[..i];
  }

  lemma SucceededIdsStep(cands: seq<RequestRow>, i: nat, updateFails: set<string>)
    requires i < |cands|
    ensures SucceededIds(cands[..i + 1], updateFails)
            == SucceededIds(cands[..i], updateFails)
               + (if cands[i].id in updateFails then {} else {cands[i].id})
  {
    assert cands[..i + 1] == cands[..i] + [cands[i]];
  }

  /** One pass of the loop extends the three running effects by one candidate. */
  lemma EscalateStep(rows: seq<RequestRow>, comments: seq<CommentRow>, cands: seq<RequestRow>, i: nat,
                     emails: Json, now: int, updateFails: set<string>, commentFails: set<string>,
                     rowsBefore: seq<RequestRow>, commentsBefore: seq<CommentRow>, sentBefore: seq<Email>,
                     rowsAfter: seq<RequestRow>, commentsAfter: seq<CommentRow>, mail: seq<Email>)
    requires i < |cands|
    requires rowsBefore == EscalateRows(rows, SucceededIds(cands[..i], updateFails))
    requires commentsBefore == comments + AuditComments(cands[..i], updateFails, commentFails, now)
    requires sentBefore == Notifications(cands[..i], updateFails, emails)
    requires rowsAfter == if cands[i].id in updateFails then rowsBefore
                          else SetStatus(rowsBefore, cands[i].id, Escalated)
    requires commentsAfter == commentsBefore
                              + (if cands[i].id !in updateFails && cands[i].id !in commentFails
                                 then [AuditComment(cands[i], now)] else [])
    requires mail == if cands[i].id !in updateFails && emails.JArray? then [EscalationEmail(emails.items, cands[i])] else []
    ensures rowsAfter == EscalateRows(rows, SucceededIds(cands[..i + 1], updateFails))
    ensures commentsAfter == comments + AuditComments(cands[..i + 1], updateFails, commentFails, now)
    ensures sentBefore + mail == Notifications(cands[..i + 1], updateFails, emails)
  {
    EscalateStepRows(rows, cands, i, updateFails, rowsBefore, rowsAfter);
    EscalateStepComments(comments, cands, i, now, updateFails, commentFails, commentsBefore, commentsAfter);
    NotificationsStep(cands, i, updateFails, emails);
  }

  lemma EscalateStepRows(rows: seq<RequestRow>, cands: seq<RequestRow>, i: nat, updateFails: set<string>,
                         rowsBefore: seq<RequestRow>, rowsAfter: seq<RequestRow>)
    requires i < |cands|
    requires rowsBefore == EscalateRows(rows, SucceededIds(cands[..i], updateFails))
    requires rowsAfter == if cands[i].id in updateFails then rowsBefore
                          else SetStatus(rowsBefore, cands[i].id, Escalated)
    ensures rowsAfter == EscalateRows(rows, SucceededIds(cands[..i + 1], updateFails))
  {
    SucceededIdsStep(cands, i, updateFails);
    EscalateRowsStep(rows, SucceededIds(cands[..i], updateFails), cands[i].id);
  }

  lemma EscalateStepComments(comments: seq<CommentRow>, cands: seq<RequestRow>, i: nat, now: int,
                             updateFails: set<string>, commentFails: set<string>,
                             commentsBefore: seq<CommentRow>, commentsAfter: seq<CommentRow>)
    requires i < |cands|
    requires commentsBefore == comments + AuditComments(cands[..i], updateFails, commentFails, now)
    requires commentsAfter == commentsBefore
                              + (if cands[i].id !in updateFails && cands[i].id !in commentFails
                                 then [AuditComment(cands[i], now)] else [])
    ensures commentsAfter == comments + AuditComments(cands[..i + 1], updateFails, commentFails, now)
  {
    AuditCommentsStep(cands, i, updateFails, commentFails, now);
  }

  // ---------------------------------------------------------------------------
  // The sweep

  method Sweep(store: Store, now: int, settingsFails: bool, pendingFails: bool, progressFails: bool,
               updateFails: set<string>, commentFails: set<string>)
    returns (outcome: SweepOutcome, sent: seq<Email>)
    modifies store
    ensures store.settings == old(store.settings) && store.profiles == old(store.profiles)
    ensures outcome == PlannedOutcome(old(store.requests), old(store.settings), now,
                                      settingsFails, pendingFails, progressFails)
    ensures !outcome.EscalatedAll? ==>
              store.requests == old(store.requests) && store.comments == old(store.comments) && sent == []
    ensures outcome.EscalatedAll? ==>
              var cands := Candidates(old(store.requests), now);
              && store.requests == EscalateRows(old(store.requests), SucceededIds(cands, updateFails))
              && store.comments == old(store.comments) + AuditComments(cands, updateFails, commentFails, now)
              && sent == Notifications(cands, updateFails, old(store.settings)[0].emails)
  {
    sent := [];
    if settingsFails || |store.settings| != 1 {
      return SettingsError, sent;
    }
    var emails := store.settings[0].emails;
    if NoRecipients(emails) {
      return NoEmailsConfigured, sent;
    }
    if pendingFails {
      return PendingQueryError, sent;
    }
    var pendingRequests := PendingCandidates(store.requests, now);
    if progressFails {
      return ProgressQueryError, sent;
    }
    var inProgressRequests := ProgressCandidates(store.requests, now);
    var cands := pendingRequests + inProgressRequests;
    if |cands| == 0 {
      return NothingToEscalate, sent;
    }

    sent := EscalateEach(store, cands, emails, now, updateFails, commentFails);
    outcome := EscalatedAll(|cands|);
  }

  /** The loop over the candidates, one `EscalateOne` per candidate. */
  method EscalateEach(store: Store, cands: seq<RequestRow>, emails: Json, now: int,
                      updateFails: set<string>, commentFails: set<string>)
    returns (sent: seq<Email>)
    modifies store
    ensures store.settings == old(store.settings) && store.profiles == old(store.profiles)
    ensures store.requests == EscalateRows(old(store.requests), SucceededIds(cands, updateFails))
    ensures store.comments == old(store.comments) + AuditComments(cands, updateFails, commentFails, now)
    ensures sent == Notifications(cands, updateFails, emails)
  {
    sent := [];
    var i := 0;
    while i < |cands|
      invariant 0 <= i <= |cands|
      invariant store.settings == old(store.settings) && store.profiles == old(store.profiles)
      invariant store.requests == EscalateRows(old(store.requests), SucceededIds(cands[..i], updateFails))
      invariant store.comments == old(store.comments) + AuditComments(cands[..i], updateFails, commentFails, now)
      invariant sent == Notifications(cands[..i], updateFails, emails)
    {
      ghost var rowsBefore, commentsBefore := store.requests, store.comments;
      var mail := EscalateOne(store, cands[i], emails, now, updateFails, commentFails);
      EscalateStep(old(store.requests), old(store.comments), cands, i, emails, now, updateFails, commentFails,
                   rowsBefore, commentsBefore, sent, store.requests, store.comments, mail);
      sent := sent + mail;
      i := i + 1;
    }
    assert cands[..|cands|] == cands;
  }

  /** One pass of the loop: the status write; when it fails, on to the next
      candidate (`continue`); otherwise the audit comment (a failed insert is
      only logged) and the mail. */
  method EscalateOne(store: Store, request: RequestRow, emails: Json, now: int,
                     updateFails: set<string>, commentFails: set<string>)
    returns (mail: seq<Email>)
    modifies store
    ensures store.settings == old(store.settings) && store.profiles == old(store.profiles)
    ensures store.requests == if request.id in updateFails then old(store.requests)
                              else SetStatus(old(store.requests), request.id, Escalated)
    ensures store.comments == old(store.comments)
                              + (if request.id !in updateFails && request.id !in commentFails
                                 then [AuditComment(request, now)] else [])
    ensures mail == if request.id !in updateFails && emails.JArray? then [EscalationEmail(emails.items, request)] else []
  {
    mail := [];
    if request.id in updateFails {
      return;
    }
    store.requests := SetStatus(store.requests, request.id, Escalated);
    if request.id !in commentFails {
      store.comments := store.comments + [AuditComment(request, now)];
    }
    if emails.JArray? {
      mail := [EscalationEmail(emails.items, request)];
    }
  }

  // ---------------------------------------------------------------------------
  // Properties of the sweep

  /** A row is selected exactly when it is pending and created more than 20
      minutes ago (strictly), or in progress and not updated for more than 45
      minutes (strictly; its creation time plays no part). */
  lemma CandidateRule(rows: seq<RequestRow>, now: int, r: RequestRow)
    ensures r in Candidates(rows, now) <==>
              r in rows
              && ((r.status == Pending && r.createdAt < now - 1200000)
                  || (r.status == InProgress && r.updatedAt < now - 2700000))
  {
    if r in rows {
      var k :| 0 <= k < |rows| && rows[k] == r;
      assert IsCandidate(now, rows[k]) ==> r in Candidates(rows, now);
    }
  }

  /** Completed and escalated requests are never selected. */
  lemma NeverSelectsSettled(rows: seq<RequestRow>, now: int)
    ensures forall c :: c in Candidates(rows, now) ==> c.status == Pending || c.status == InProgress
  {
  }

  /** All pending candidates come before all in-progress candidates. */
  lemma PendingBeforeProgress(rows: seq<RequestRow>, now: int, i: nat, j: nat)
    requires i < j < |Candidates(rows, now)|
    requires Candidates(rows, now)[j].status == Pending
    ensures Candidates(rows, now)[i].status == Pending
  {
    var p := PendingCandidates(rows, now);
    assert j < |p|;
    assert Candidates(rows, now)[i] == p[i];
  }

  /** With unique ids in the table, no request is selected twice. */
  lemma {:induction false} CandidatesUnique(rows: seq<RequestRow>, now: int)
    requires UniqueIds(rows)
    ensures UniqueIds(Candidates(rows, now))
  {
    var p := PendingCandidates(rows, now);
    var q := ProgressCandidates(rows, now);
    var c := p + q;
    forall i, j | 0 <= i < j < |c| ensures c[i].id != c[j].id {
      FilteredUnique(rows, r => IsPendingCandidate(now, r));
      FilteredUnique(rows, r => IsProgressCandidate(now, r));
      if i < |p| && j >= |p| {
        var a := c[i];
        var b := c[j];
        assert a in p && b in q;
        var ka :| 0 <= ka < |rows| && rows[ka] == a;
        var kb :| 0 <= kb < |rows| && rows[kb] == b;
        assert a.status == Pending && b.status == InProgress;
        assert ka != kb;
      }
    }
  }

  lemma {:induction false} FilteredUnique(rows: seq<RequestRow>, p: RequestRow -> bool)
    requires UniqueIds(rows)
    ensures UniqueIds(Filter(rows, p))
    decreases |rows|
  {
    if rows != [] {
      FilteredUnique(rows[1..], p);
      var f := Filter(rows, p);
      var t := Filter(rows[1..], p);
      if p(rows[0]) {
        assert f == [rows[0]] + t;
        forall j | 0 < j < |f| ensures f[0].id != f[j].id {
          assert f[j] in rows[1..];
        }
      } else {
        assert f == t;
      }
    }
  }

  /** After the sweep's writes, a row is escalated exactly when it was already
      escalated or it was selected and its write went through; every other
      column, `was_escalated` included, is as it was. */
  lemma SweepRowEffect(rows: seq<RequestRow>, now: int, updateFails: set<string>, i: nat)
    requires UniqueIds(rows)
    requires i < |rows|
    ensures var after := EscalateRows(rows, SucceededIds(Candidates(rows, now), updateFails));
            && after[i] == rows[i].(status := after[i].status)
            && after[i].wasEscalated == rows[i].wasEscalated
            && (after[i].status == Escalated <==>
                  rows[i].status == Escalated || (IsCandidate(now, rows[i]) && rows[i].id !in updateFails))
            && (after[i].status != Escalated ==> after[i].status == rows[i].status)
  {
    var cands := Candidates(rows, now);
    CandidateRule(rows, now, rows[i]);
    if rows[i].id in SucceededIds(cands, updateFails) {
      var c :| c in cands && c.id !in updateFails && c.id == rows[i].id;
      CandidateRule(rows, now, c);
      var k :| 0 <= k < |rows| && rows[k] == c;
      assert k == i;
    }
  }

  /** Running the sweep again at the same instant, after every write of the
      first run went through, finds nothing left to escalate. */
  lemma SecondSweepFindsNothing(rows: seq<RequestRow>, now: int)
    requires UniqueIds(rows)
    ensures Candidates(EscalateRows(rows, SucceededIds(Candidates(rows, now), {})), now) == []
  {
    var after := EscalateRows(rows, SucceededIds(Candidates(rows, now), {}));
    forall i | 0 <= i < |after| ensures !IsCandidate(now, after[i]) {
      SweepRowEffect(rows, now, {}, i);
    }
    FilterDropsAll(after, r => IsPendingCandidate(now, r));
    FilterDropsAll(after, r => IsProgressCandidate(now, r));
  }

  /** The requests still due after a sweep are exactly those whose status
      write failed. */
  lemma StillDueAfterSweep(rows: seq<RequestRow>, now: int, updateFails: set<string>, r: RequestRow)
    requires UniqueIds(rows)
    ensures r in Candidates(EscalateRows(rows, SucceededIds(Candidates(rows, now), updateFails)), now)
            <==> r in Candidates(rows, now) && r.id in updateFails
  {
    var after := EscalateRows(rows, SucceededIds(Candidates(rows, now), updateFails));
    CandidateRule(after, now, r);
    CandidateRule(rows, now, r);
    if r in after {
      var i :| 0 <= i < |after| && after[i] == r;
      SweepRowEffect(rows, now, updateFails, i);
    }
    if r in Candidates(rows, now) && r.id in updateFails {
      var i :| 0 <= i < |rows| && rows[i] == r;
      SweepRowEffect(rows, now, updateFails, i);
      assert after[i] == r;
    }
  }

  /** Each selected request whose status write and comment insert both went
      through gets exactly one comment from the sweep, by "System", naming the
      limit for the status it had; the others get none. */
  lemma {:induction false} OneAuditCommentEach(cands: seq<RequestRow>, updateFails: set<string>, commentFails: set<string>,
                                               now: int, c: RequestRow)
    requires UniqueIds(cands)
    requires c in cands
    ensures var mine := CommentsFor(AuditComments(cands, updateFails, commentFails, now), c.id);
            if c.id !in updateFails && c.id !in commentFails
            then mine == [CommentRow(c.id, "System", AuditText(c.status), now)]
            else mine == []
    decreases |cands|
  {
    var n := |cands|;
    var last := cands[n - 1];
    var init := cands[..n - 1];
    UniqueIdsInit(cands);
    AuditCommentsForLast(cands, updateFails, commentFails, now, c.id);
    if c == last {
      NoAuditCommentsFor(init, updateFails, commentFails, now, c.id);
    } else {
      assert c in init;
      OneAuditCommentEach(init, updateFails, commentFails, now, c);
    }
  }

  /** The sweep's comments on one request: those for the earlier candidates,
      then the last candidate's own comment if it is about that request. */
  lemma AuditCommentsForLast(cands: seq<RequestRow>, updateFails: set<string>, commentFails: set<string>,
                             now: int, id: string)
    requires cands != []
    ensures var last := cands[|cands| - 1];
            CommentsFor(AuditComments(cands, updateFails, commentFails, now), id)
            == CommentsFor(AuditComments(cands[..|cands| - 1], updateFails, commentFails, now), id)
               + (if last.id == id && last.id !in updateFails && last.id !in commentFails
                  then [AuditComment(last, now)] else [])
  {
    var last := cands[|cands| - 1];
    var tail := if last.id !in updateFails && last.id !in commentFails then [AuditComment(last, now)] else [];
    CommentsForAppend(AuditComments(cands[..|cands| - 1], updateFails, commentFails, now), tail, id);
    if tail != [] {
      CommentsForSingle(AuditComment(last, now), id);
    }
  }

  /** Dropping the last row keeps the ids unique, and the dropped row's id is
      not among the rest. */
  lemma UniqueIdsInit(rows: seq<RequestRow>)
    requires UniqueIds(rows) && rows != []
    ensures UniqueIds(rows[..|rows| - 1])
    ensures forall r :: r in rows[..|rows| - 1] ==> r.id != rows[|rows| - 1].id
  {
    forall r | r in rows[..|rows| - 1]
      ensures r.id != rows[|rows| - 1].id
    {
      var k :| 0 <= k < |rows| - 1 && rows[k] == r;
    }
  }

  /** Comments the sweep writes only ever concern the requests it processed. */
  lemma {:induction false} NoAuditCommentsFor(cands: seq<RequestRow>, updateFails: set<string>, commentFails: set<string>,
                                              now: int, id: string)
    requires forall c :: c in cands ==> c.id != id
    ensures CommentsFor(AuditComments(cands, updateFails, commentFails, now), id) == []
    decreases |cands|
  {
    if cands != [] {
      var n := |cands|;
      var last := cands[n - 1];
      var init := cands[..n - 1];
      var tail := if last.id !in updateFails && last.id !in commentFails then [AuditComment(last, now)] else [];
      NoAuditCommentsFor(init, updateFails, commentFails, now, id);
      CommentsForAppend(AuditComments(init, updateFails, commentFails, now), tail, id);
      if tail != [] {
        assert last in cands;
        CommentsForSingle(AuditComment(last, now), id);
      }
    }
  }

  /** Every mail of the sweep goes to the whole stored list. */
  lemma {:induction false} NotificationsRecipients(cands: seq<RequestRow>, updateFails: set<string>, emails: Json)
    ensures forall m :: m in Notifications(cands, updateFails, emails) ==> emails.JArray? && m.to == emails.items
    decreases |cands|
  {
    if cands != [] {
      NotificationsRecipients(cands[..|cands| - 1], updateFails, emails);
    }
  }

  /** A failed status write skips that candidate's comment and mail; a failed
      comment insert does not stop its mail. Mails go out only when the stored
      list is an array, one per candidate whose status write went through. */
  lemma MailCount(cands: seq<RequestRow>, updateFails: set<string>, emails: Json)
    ensures emails.JArray? ==>
              |Notifications(cands, updateFails, emails)| == |Filter(cands, (c: RequestRow) => c.id !in updateFails)|
    ensures !emails.JArray? ==> Notifications(cands, updateFails, emails) == []
  {
    if emails.JArray? {
      MailCountArray(cands, updateFails, emails);
    } else {
      NoMailWithoutArray(cands, updateFails, emails);
    }
  }

  lemma {:induction false} MailCountArray(cands: seq<RequestRow>, updateFails: set<string>, emails: Json)
    requires emails.JArray?
    ensures |Notifications(cands, updateFails, emails)| == |Filter(cands, (c: RequestRow) => c.id !in updateFails)|
    decreases |cands|
  {
    if cands != [] {
      var n := |cands|;
      var p := (c: RequestRow) => c.id !in updateFails;
      MailCountArray(cands[..n - 1], updateFails, emails);
      assert cands == cands[..n - 1] + [cands[n - 1]];
      FilterAppend(cands[..n - 1], [cands[n - 1]], p);
    }
  }

  lemma {:induction false} NoMailWithoutArray(cands: seq<RequestRow>, updateFails: set<string>, emails: Json)
    requires !emails.JArray?
    ensures Notifications(cands, updateFails, emails) == []
    decreases |cands|
  {
    if cands != [] {
      NoMailWithoutArray(cands[..|cands| - 1], updateFails, emails);
    }
  }
}
