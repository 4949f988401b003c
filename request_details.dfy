/** The request dialog (`RequestDetails`): which status actions the footer
    offers, the status label, and the delayed status update that hands the
    typed comment to the caller and then resets the dialog. */
module RequestDetails {
  import opened Model

  /** The footer's buttons. */
  datatype Button = MarkInProgress | MarkComplete | Escalate | Close

  /** The buttons the footer shows, in order: an admin sees the status
      actions (none once the request is completed), anyone else only Close. */
  function FooterButtons(isAdmin: bool, status: Status): seq<Button>
  {
    if isAdmin then
      if status == Completed then []
      else (if status == Pending then [MarkInProgress] else [])
           + [MarkComplete]
           + (if status != Escalated then [Escalate] else [])
    else [Close]
  }

  /** The status a button asks for; Close asks for none. */
  function Target(b: Button): Option<Status>
  {
    match b
    case MarkInProgress => Some(InProgress)
    case MarkComplete => Some(Completed)
    case Escalate => Some(Escalated)
    case Close => None
  }

  /** A non-admin is offered only Close. */
  lemma NonAdminOnlyCloses(status: Status)
    ensures FooterButtons(false, status) == [Close]
    ensures forall b :: b in FooterButtons(false, status) ==> Target(b).None?
  {
  }

  /** Completed is terminal: nothing is offered from it, to anyone. */
  lemma CompletedIsTerminal(isAdmin: bool)
    ensures forall b :: b in FooterButtons(isAdmin, Completed) ==> Target(b).None?
  {
  }

  /** Where each action is offered to an admin. */
  lemma ActionAvailability(status: Status)
    ensures MarkInProgress in FooterButtons(true, status) <==> status == Pending
    ensures MarkComplete in FooterButtons(true, status) <==> status != Completed
    ensures Escalate in FooterButtons(true, status) <==> status == Pending || status == InProgress
    ensures Close !in FooterButtons(true, status)
  {
  }

  /** No offered action leads back to pending, and none leaves the status as
      it is, so every click moves the request forward. */
  lemma NoActionTargetsPending(isAdmin: bool, status: Status)
    ensures forall b :: b in FooterButtons(isAdmin, status) && Target(b).Some? ==>
              Target(b).value != Pending && Target(b).value != status
  {
  }

  /** `getStatusText`, on the raw status string. */
  function StatusText(raw: string): (text: string)
    ensures raw !in {"pending", "in-progress", "completed", "escalated"} ==> text == "Unknown"
  {
    if raw == "pending" then "Pending"
    else if raw == "in-progress" then "In Progress"
    else if raw == "completed" then "Completed"
    else if raw == "escalated" then "Escalated"
    else "Unknown"
  }

  /** Each status has its own label, and no status is labelled "Unknown". */
  lemma StatusTextLabels(s: Status, t: Status)
    ensures StatusText(StatusName(s)) != "Unknown"
    ensures s != t ==> StatusText(StatusName(s)) != StatusText(StatusName(t))
  {
  }

  /** What the delayed update hands over: the call to `onUpdateStatus` (when a
      handler is wired) and the toast it shows. */
  datatype UpdateCall = UpdateCall(id: string, status: Status, comment: string)
  datatype Notice = Notice(title: string, description: string)

  const NoticePrefix: string := "Request status updated to "
  const CommentNotice: string := "Comment added successfully"

  /** The request the dialog is given: its id and its status when shown. */
  datatype Shown = Shown(id: string, status: Status)

  /** The one dialog a page mounts. It stays mounted while closed or while no
      request is selected, so its comment box keeps what was typed until an
      update clears it. */
  class DetailsDialog {
    var request: Option<Shown>
    var isAdmin: bool
    var open: bool
    var comment: string
    var isUpdating: bool
    /** The update a click arms for the one-second timer: the id, the status
        asked for and the comment, as they were at the click. */
    var armed: Option<UpdateCall>

    ghost predicate Valid()
      reads this
    {
      isUpdating <==> armed.Some?
    }

    /** Mounting: no request yet, closed, an empty comment box. */
    constructor ()
      ensures Valid()
      ensures request.None? && !isAdmin && !open
      ensures comment == "" && !isUpdating && armed.None?
    {
      request := None;
      isAdmin := false;
      open := false;
      comment := "";
      isUpdating := false;
      armed := None;
    }

    /** The page opens the dialog on a request. The comment box and any armed
        update are kept: a comment typed for an earlier request and not sent
        is still there. */
    method Show(id: string, status: Status, isAdmin: bool)
      modifies this`request, this`isAdmin, this`open
      ensures request == Some(Shown(id, status)) && this.isAdmin == isAdmin && open
      ensures comment == old(comment) && isUpdating == old(isUpdating) && armed == old(armed)
    {
      request := Some(Shown(id, status));
      this.isAdmin := isAdmin;
      open := true;
    }

    /** `onOpenChange`: the dialog is closed from its frame; nothing else changes. */
    method Dismiss()
      modifies this`open
      ensures !open
      ensures comment == old(comment) && isUpdating == old(isUpdating) && armed == old(armed)
    {
      open := false;
    }

    /** Typing in the comment box. */
    method EditComment(text: string)
      modifies this`comment
      ensures comment == text
    {
      comment := text;
    }

    /** The buttons on screen: none while closed or with no request. */
    function Buttons(): seq<Button>
      reads this
    {
      if open && request.Some? then FooterButtons(isAdmin, request.value.status) else []
    }

    /** A click. Buttons not on screen, or disabled while an update is under
        way, do nothing; Close closes; a status action arms the timer with
        the shown request's id, the status and the comment as typed. */
    method Click(b: Button)
      requires Valid()
      modifies this`isUpdating, this`armed, this`open
      ensures Valid()
      ensures b !in old(Buttons()) || (old(isUpdating) && b != Close) ==>
                isUpdating == old(isUpdating) && armed == old(armed) && open == old(open)
      ensures b in old(Buttons()) && b == Close ==>
                !open && isUpdating == old(isUpdating) && armed == old(armed)
      ensures b in old(Buttons()) && b != Close && !old(isUpdating) ==>
                isUpdating && open == old(open)
                && armed == Some(UpdateCall(request.value.id, Target(b).value, comment))
    {
      if b !in Buttons() {
        return;
      }
      if b == Close {
        open := false;
        return;
      }
      if isUpdating {
        return;
      }
      isUpdating := true;
      armed := Some(UpdateCall(request.value.id, Target(b).value, comment));
    }

    /** The timer fires: the caller's handler receives what the click
        captured; then the comment box is cleared, the buttons re-enabled and
        the dialog closed. */
    method TimerFires(hasHandler: bool) returns (call: Option<UpdateCall>, notice: Option<Notice>)
      requires Valid()
      modifies this`comment, this`isUpdating, this`armed, this`open
      ensures Valid()
      ensures old(armed).None? ==>
                call.None? && notice.None? && comment == old(comment) && !isUpdating && armed.None? && open == old(open)
      ensures old(armed).Some? ==>
                && comment == "" && !isUpdating && armed.None? && !open
                && (call.Some? <==> hasHandler)
                && (hasHandler ==> call.value == old(armed).value)
                && notice == Some(Notice(NoticePrefix + StatusText(StatusName(old(armed).value.status)),
                                         if old(armed).value.comment != "" then CommentNotice else ""))
    {
      if armed.None? {
        return None, None;
      }
      var update := armed.value;
      call := if hasHandler then Some(update) else None;
      notice := Some(Notice(NoticePrefix + StatusText(StatusName(update.status)),
                            if update.comment != "" then CommentNotice else ""));
      comment := "";
      isUpdating := false;
      armed := None;
      open := false;
    }
  }

  /** The comment box outlives the request it was typed for: a comment typed
      on request "A", closed without an update, is sent with the next update
      made on request "B". */
  method CommentCarriesOver() returns (call: Option<UpdateCall>)
    ensures call == Some(UpdateCall("B", Completed, "typed for A"))
  {
    var dialog := new DetailsDialog();
    dialog.Show("A", Pending, true);
    dialog.EditComment("typed for A");
    dialog.Dismiss();
    dialog.Show("B", InProgress, true);
    assert MarkComplete in dialog.Buttons();
    dialog.Click(MarkComplete);
    var notice;
    call, notice := dialog.TimerFires(true);
  }

  /** The status a completed click-and-wait hands over is one the footer
      offered for the request, so never pending and never its current status. */
  lemma HandedOverStatusWasOffered(isAdmin: bool, status: Status, b: Button)
    requires b in FooterButtons(isAdmin, status) && b != Close
    ensures isAdmin && status != Completed
    ensures Target(b).Some? && Target(b).value != Pending && Target(b).value != status
  {
    NoActionTargetsPending(isAdmin, status);
  }
}
