# Lilac WiFi Support — a Dafny model of the request and escalation core

Lilac WiFi Support is a hotel portal. A guest reports a WiFi problem through a
form and gets a tracking id. Staff work the request through the statuses
pending, in progress, completed and escalated. A scheduled function escalates
requests that waited too long, writes an audit comment on each and prepares a
notification email for the configured addresses. Admins keep that address
list, edit staff profiles and export PDF reports. Staff sessions end after a
period of inactivity.

This project models that core in Dafny. There is one module per source file,
plus four shared modules:

- `Seqs`: filtering and subsequences.
- `Text`: ASCII case mapping, the JavaScript white-space class, first-match replacement and decimal numerals.
- `Model`: the table rows, the enums and the dashboard's request record.
- `Database`: a `Store` class that holds the four tables as sequences of rows.

| module | file | models |
|---|---|---|
| `EscalateRequests` | escalate_requests.dfy | the scheduled escalation sweep |
| `WifiRequestsHook` | wifi_requests_hook.dfy | the staff dashboard's data hook: fetch, filters, statistics, status writes, manual check |
| `RequestDetails` | request_details.dfy | the request dialog: footer actions, status label, delayed hand-over |
| `FormSubmission` | form_submission.dfy | the guest form: tracking id and insert |
| `EscalationSettings` | escalation_settings.dfy | the escalation address list: validation, load, save |
| `PdfExport` | pdf_export.dfy | the report: title, date filter, summary, tables |
| `MockDashboard` | mock_dashboard.dfy | the stand-alone dashboard on sample data |
| `AdminUsers` | admin_users.dfy | the user list: merge of accounts and profiles, profile edit |
| `AutoLogout` | auto_logout.dfy | the inactivity warning and sign-out |

Modelling conventions:

- Every read and write to the database whose outcome the code branches on
  becomes a `bool` parameter saying whether it fails. For per-request writes
  in the sweep, this is a set of the request ids whose write fails.
- Clocks and `Math.random()` become parameters. Timestamps are integers in
  milliseconds.
- Components that keep state (the hook, the dialogs, the panels, the
  auto-logout hook) are classes. Their React state is fields and their
  handlers are methods.
- Each method is specified by pure functions. The properties the code promises
  are proved about those functions as lemmas.

Three behaviours of the code worth noting:

- The tracking id lower-cases only the name part. For "John Doe" in room
  "101 A" it is "john101A" (`FormSubmission.TrackingIdExample`).
- The code never writes `updated_at`: no status write of the dashboard or
  of the sweep sets it.
- The sweep sets the status to escalated but does not set `was_escalated`. The
  flag is only written by the dashboard (`WifiRequestsHook.StaleViewLosesHistory`).

Facts proved about the code as written:

- Completing a request that the sweep escalated after the dashboard loaded it
  drops the escalation from the reports and the statistics
  (`WifiRequestsHook.StaleViewLosesHistory`).
- Saving the address list while the settings table holds two or more rows
  appends a further row. After that the sweep always fails with an error
  (`EscalationSettings.SaveWithSeveralRows`).
- When the same check raises the warning and reaches the limit, the warning
  flag re-runs the effect and a fresh interval starts. If the page is still
  open at the next check, that check requests a second sign-out, and only
  then do the checks stop (`AutoLogout.WarnedLogoutChecksAgain`). A
  successful sign-out redirects to /login first, so this happens only after a
  failed or slow sign-out.

## Model

| member | source | states |
|---|---|---|
| `Model.OrElse` | src/hooks/use-wifi-requests.tsx:193 | `s \|\| fallback` on a nullable string: the value when truthy (non-null, non-empty), otherwise the fallback |
| `Model.ParseStatusName` | src/integrations/supabase/types.ts:166 | each of the four `request_status` names reads back as its status |
| `Model.StatusCountsSum` | src/hooks/use-wifi-requests.tsx:135-138 | the pending, in-progress, completed and escalated counts of any list add up to its length |
| `Model.EverEscalatedCount` | src/hooks/use-wifi-requests.tsx:139 | the "escalated" count is the currently escalated plus the completed-after-escalation requests |
| `Model.CompletedAfterEscalationAtMostCompleted` | src/hooks/use-wifi-requests.tsx:138-139 | completed-after-escalation requests are a part of the completed ones |
| `Database.Store.constructor` | src/integrations/supabase/types.ts:105-117 | the store starts with the given rows of the four tables |
| `Database.SetStatus` | supabase/functions/escalate-requests/index.ts:90-93 | `update({status}).eq('id', id)`: every row with that id takes the status, every other row is unchanged |
| `Database.SetStatusFlagged` | src/hooks/use-wifi-requests.tsx:238-244 | the same with `was_escalated` set to true |
| `Database.SetStatusKeepsIds` | supabase/functions/escalate-requests/index.ts:90-93 | status writes keep the ids unique |
| `EscalateRequests.ResponseOf` | supabase/functions/escalate-requests/index.ts:156-173 | the reply succeeds exactly when neither the settings read nor either query failed; success is HTTP 200, failure 500 |
| `EscalateRequests.EscalateRows` | supabase/functions/escalate-requests/index.ts:88-98 | rows whose id was escalated take status escalated; the rest are unchanged |
| `EscalateRequests.Sweep` | supabase/functions/escalate-requests/index.ts:23-175 | the outcome follows the settings, the address list and the two queries. With no escalation, nothing is written or mailed. Otherwise each candidate whose update succeeds is escalated, gets one audit comment unless that insert fails, and gets one notification when the address list is an array |
| `EscalateRequests.EscalateEach` | supabase/functions/escalate-requests/index.ts:88-154 | the loop leaves the rows, the comments and the mail exactly as the specifying functions say, in candidate order |
| `EscalateRequests.EscalateOne` | supabase/functions/escalate-requests/index.ts:89-153 | one iteration. A failed update skips the request (`continue`). Otherwise the status is written, the audit comment is appended unless its insert fails, and the email is produced when the address list is an array |
| `EscalateRequests.CandidateRule` | supabase/functions/escalate-requests/index.ts:49-75 | a row is selected iff it is pending and created more than 20 minutes ago, or in progress and updated more than 45 minutes ago (strict cut-offs) |
| `EscalateRequests.NeverSelectsSettled` | supabase/functions/escalate-requests/index.ts:52-69 | completed and escalated requests are never selected |
| `EscalateRequests.PendingBeforeProgress` | supabase/functions/escalate-requests/index.ts:75 | all pending candidates come before all in-progress ones |
| `EscalateRequests.CandidatesUnique` | supabase/functions/escalate-requests/index.ts:75 | with unique ids in the table, no request is selected twice |
| `EscalateRequests.SweepRowEffect` | supabase/functions/escalate-requests/index.ts:88-98 | after a sweep, a row is escalated iff it already was, or it was due and its update succeeded. No other field changes, `was_escalated` included |
| `EscalateRequests.SecondSweepFindsNothing` | supabase/functions/escalate-requests/index.ts:49-98 | when every update succeeds, an immediate second sweep finds no candidates |
| `EscalateRequests.StillDueAfterSweep` | supabase/functions/escalate-requests/index.ts:88-98 | a request is still due after a sweep iff it was due and its update failed |
| `EscalateRequests.OneAuditCommentEach` | supabase/functions/escalate-requests/index.ts:100-113 | each candidate gets exactly one "System" comment giving the status it waited in, or none if its update or insert failed |
| `EscalateRequests.NotificationsRecipients` | supabase/functions/escalate-requests/index.ts:134 | every email goes to the whole configured list, and only when that list is an array |
| `EscalateRequests.MailCount` | supabase/functions/escalate-requests/index.ts:116-153 | with an address array, one email per candidate whose update succeeded; otherwise none |
| `WifiRequestsHook.Normalize` | src/hooks/use-wifi-requests.tsx:105-114 | the dashboard record keeps every column. Its flag is set for escalated requests and for completed ones with `was_escalated === true`, and cleared for pending and in-progress ones |
| `WifiRequestsHook.NormalizeAll` | src/hooks/use-wifi-requests.tsx:105-114 | the fetched list is the rows normalised one by one, in order |
| `WifiRequestsHook.NormalizeEverEscalated` | src/hooks/use-wifi-requests.tsx:106-107 | a fetched request counts as ever escalated iff its row is escalated, or completed with the flag set |
| `WifiRequestsHook.DateRangeRule` | src/hooks/use-wifi-requests.tsx:47-63 | no range or no start keeps every date; a start alone is an inclusive lower bound; an ordered start and end give the closed interval |
| `WifiRequestsHook.FilterRequests` | src/hooks/use-wifi-requests.tsx:65-94 | the shown list is exactly the requests in the date range and on the tab, in their original order |
| `WifiRequestsHook.DateFilterProperties` | src/hooks/use-wifi-requests.tsx:68-73 | the date step keeps exactly the in-range requests, in order |
| `WifiRequestsHook.TabFilterProperties` | src/hooks/use-wifi-requests.tsx:75-91 | the tab step keeps exactly the requests on the tab, in order |
| `WifiRequestsHook.TabRules` | src/hooks/use-wifi-requests.tsx:75-91 | "all" hides exactly the completed requests never escalated; "escalated" shows current and past escalations; the other status tabs match the status exactly |
| `WifiRequestsHook.CalculateStats` | src/hooks/use-wifi-requests.tsx:129-145 | the statistics count the requests in the date range. Pending, in progress and completed each count the requests in that status, and with the escalated ones they partition the total. "Escalated" adds completed-after-escalation to current escalations. The average texts are fixed, or "N/A" when there are no requests |
| `WifiRequestsHook.FindById` | src/hooks/use-wifi-requests.tsx:173 | the result is the first request with that id, or none exists |
| `WifiRequestsHook.ApplyLocal` | src/hooks/use-wifi-requests.tsx:200-225 | the local list changes only the requests with the id: new status, new flag, the new comment appended, all else kept |
| `WifiRequestsHook.StatusWriteKeepsFlag` | src/hooks/use-wifi-requests.tsx:173-186 | the status write sets `was_escalated` only when the loaded request was escalated or flagged, and never clears a set flag |
| `WifiRequestsHook.FreshViewKeepsHistory` | src/hooks/use-wifi-requests.tsx:173-186 | when the loaded record reflects the row, completing an escalated request keeps its escalation history |
| `WifiRequestsHook.StaleViewLosesHistory` | src/hooks/use-wifi-requests.tsx:173-186 | a request the sweep escalated after the list was loaded loses its escalation history when completed from that list |
| `WifiRequestsHook.WithLoadedComments` | src/hooks/use-wifi-requests.tsx:147-162 | the dialog's request gets the stored comments on that request, one view per comment in the order they are stored, unless the read fails or finds none; nothing else changes |
| `WifiRequestsHook.NoEmailsMessageLacksE` | supabase/functions/escalate-requests/index.ts:42 | the "no emails" reply contains no "E", so it never contains "Escalated" |
| `WifiRequestsHook.NothingMessageLacksE` | supabase/functions/escalate-requests/index.ts:80 | the "nothing to escalate" reply contains no "E", so it never contains "Escalated" |
| `WifiRequestsHook.ManualCheckReport` | src/hooks/use-wifi-requests.tsx:296-310 | a manual check shows a success toast iff the call went through and requests were escalated, and an error toast iff the call or the sweep failed |
| `WifiRequestsHook.RequestsHook.constructor` | src/hooks/use-wifi-requests.tsx:27-40 | the hook starts empty on the "all" tab, with zero statistics and "N/A" averages |
| `WifiRequestsHook.RequestsHook.SetActiveTab` | src/hooks/use-wifi-requests.tsx:26 | picking a tab sets it; the shown list follows through `Refilter` |
| `WifiRequestsHook.RequestsHook.SetDate` | src/hooks/use-wifi-requests.tsx:37-40 | picking a range sets it; the statistics keep the range of the last fetch |
| `WifiRequestsHook.RequestsHook.SetDetailsOpen` | src/hooks/use-wifi-requests.tsx:24 | the dialog's open flag takes the given value |
| `WifiRequestsHook.RequestsHook.ViewDetails` | src/hooks/use-wifi-requests.tsx:147-169 | the dialog opens on the request with its stored comments loaded |
| `WifiRequestsHook.RequestsHook.Refilter` | src/hooks/use-wifi-requests.tsx:42-45 | with requests loaded, the shown list is exactly the in-range, on-tab requests in order; with none, it is left as it was |
| `WifiRequestsHook.RequestsHook.FetchRequests` | src/hooks/use-wifi-requests.tsx:96-127 | a successful fetch replaces the list with the normalised rows and recomputes the statistics; a failed one changes nothing |
| `WifiRequestsHook.RequestsHook.UpdateStatus` | src/hooks/use-wifi-requests.tsx:171-234 | a failed status write changes nothing. Otherwise the row takes the status and keeps the escalation flag. A typed comment is stored under the profile name or "IT Staff"; if that insert fails, the local list is not updated |
| `WifiRequestsHook.RequestsHook.EscalateRequest` | src/hooks/use-wifi-requests.tsx:236-287 | `handleEscalateRequest` sets the status and the flag, in the table and in the local list, or changes nothing on failure. No rendered component calls it: the dialog's Escalate button goes through `handleUpdateStatus` |
| `WifiRequestsHook.DialogEscalationOmitsFlag` | src/hooks/use-wifi-requests.tsx:173-186 | escalating through `handleUpdateStatus` a pending or in-progress request that was never flagged writes the status alone: the flag is not set in the table or in the local list |
| `RequestDetails.NonAdminOnlyCloses` | src/components/RequestDetails.tsx:222-224 | a non-admin sees only Close, which changes no status |
| `RequestDetails.CompletedIsTerminal` | src/components/RequestDetails.tsx:190 | a completed request offers no status action |
| `RequestDetails.ActionAvailability` | src/components/RequestDetails.tsx:190-220 | for an admin: "Mark In Progress" iff pending, "Mark Complete" iff not completed, "Escalate" iff pending or in progress, and no Close |
| `RequestDetails.NoActionTargetsPending` | src/components/RequestDetails.tsx:190-220 | no action moves a request back to pending or to its own status |
| `RequestDetails.StatusText` | src/components/RequestDetails.tsx:71-84 | any name outside the four statuses reads "Unknown" |
| `RequestDetails.StatusTextLabels` | src/components/RequestDetails.tsx:71-84 | the four statuses have four distinct labels, none "Unknown" |
| `RequestDetails.DetailsDialog.constructor` | src/components/RequestDetails.tsx:41-49 | the page mounts one dialog, closed, with no request, not admin by default, an empty comment and no update under way |
| `RequestDetails.DetailsDialog.Show` | src/components/dashboard/RequestsTab.tsx:125-132 | selecting a request shows it and opens the dialog. The comment box and any pending update are kept, since the dialog stays mounted |
| `RequestDetails.DetailsDialog.Dismiss` | src/components/RequestDetails.tsx:106 | closing the dialog from its frame only closes it. The comment is kept |
| `RequestDetails.DetailsDialog.EditComment` | src/components/RequestDetails.tsx:178-183 | typing replaces the comment |
| `RequestDetails.DetailsDialog.Click` | src/components/RequestDetails.tsx:86-90 | a shown, enabled action button starts the one-second update. It captures the shown request's id, the status and the comment as typed. Close closes. Hidden or disabled buttons do nothing |
| `RequestDetails.DetailsDialog.TimerFires` | src/components/RequestDetails.tsx:90-102 | the handler gets what the click captured. The notice names the status and mentions the comment iff one was typed. The box is cleared, the buttons re-enabled and the dialog closed |
| `RequestDetails.CommentCarriesOver` | src/components/RequestDetails.tsx:48-51 | a comment typed on one request and closed without an update is sent with the next update, on another request |
| `RequestDetails.HandedOverStatusWasOffered` | src/components/RequestDetails.tsx:190-220 | a handed-over status comes from an admin on an open request, and is neither pending nor the current status |
| `FormSubmission.GenerateTrackingId` | src/utils/formSubmission.ts:75-84 | the id is the name's first four characters (fewer if shorter), lower-cased, followed by the room number with its white space removed |
| `FormSubmission.RoomWithoutSpaceKept` | src/utils/formSubmission.ts:80 | removing white space leaves a room number unchanged iff it contains no white space character |
| `FormSubmission.TrackingIdExample` | src/utils/formSubmission.ts:75-84 | "John Doe" in room "101 A" gives "john101A" |
| `FormSubmission.Suffix` | src/utils/formSubmission.ts:43 | `Math.floor(rand * 100)` is the integer part of `rand * 100`, between 0 and 99 |
| `FormSubmission.FinalIdShape` | src/utils/formSubmission.ts:41-44 | a free id is kept. A taken one gets "-" and one or two digits whose value is the random suffix, and so differs from it |
| `FormSubmission.NewRow` | src/utils/formSubmission.ts:16-24 | the inserted row carries the form's fields, the chosen id and status pending |
| `FormSubmission.SubmitWifiRequest` | src/utils/formSubmission.ts:14-72 | the request is appended under the chosen id and that id is returned. A failed insert, or a clash with an existing id, adds nothing and returns no id |
| `FormSubmission.SubmittedIsTrackable` | src/utils/formSubmission.ts:30-52 | after a successful submission the id is unique and names the new pending request |
| `Text.ToLowerAscii` | src/utils/formSubmission.ts:77 | lower-casing keeps the length, leaves no capital and changes only capitals |
| `Text.ToUpperAscii` | src/utils/pdfExport.ts:32 | upper-casing keeps the length, leaves no small letter and changes only small letters |
| `Text.RemoveSpaceRunsIsFilter` | src/utils/formSubmission.ts:80 | replacing each white-space run by nothing is the same as dropping every white-space character |
| `Text.NatToString` | src/utils/formSubmission.ts:43 | the numeral is a non-empty digit string with no leading zero, at most two digits below 100 |
| `Text.ParseNatToString` | src/utils/formSubmission.ts:43 | the numeral reads back as the number |
| `Text.ReplaceFirstNoMatch` | src/utils/pdfExport.ts:32 | without a dash, `replace('-', ' ')` changes nothing |
| `Text.ReplaceFirstAt` | src/utils/pdfExport.ts:32 | `replace('-', ' ')` changes the first dash only |
| `Text.IncludesNeedsFirstChar` | src/hooks/use-wifi-requests.tsx:303 | `includes(t)` is false when the text lacks the first character of `t` |
| `EscalationSettings.ValidEmailMatchesPattern` | src/components/dashboard/EscalationSettings.tsx:59 | the check accepts exactly `^[^\s@]+@[^\s@]+\.[^\s@]+$` |
| `EscalationSettings.EmailExamples` | src/components/dashboard/EscalationSettings.tsx:59-63 | "it@hotel.com" is accepted and "it@hotel" refused |
| `EscalationSettings.LoadedEmails` | src/components/dashboard/EscalationSettings.tsx:33-48 | zero or several settings rows, or a non-array `emails`, load as the empty list |
| `EscalationSettings.SavedSettings` | src/components/dashboard/EscalationSettings.tsx:81-105 | with exactly one row, save updates its list; otherwise it inserts a new row |
| `EscalationSettings.SaveThenLoad` | src/components/dashboard/EscalationSettings.tsx:78-105 | from zero or one row, saving then loading gives back the saved list |
| `EscalationSettings.SaveWithSeveralRows` | src/components/dashboard/EscalationSettings.tsx:81-88 | from two or more rows, save appends a row, the panel loads nothing, and every later sweep fails on its settings read |
| `EscalationSettings.SavedListReachesSweep` | src/components/dashboard/EscalationSettings.tsx:90-105 | from zero or one row, the sweep sees the saved list: an empty one skips escalation, and every email goes to exactly the saved list |
| `EscalationSettings.SettingsPanel.constructor` | src/components/dashboard/EscalationSettings.tsx:21-24 | the panel starts with no addresses and an empty input |
| `EscalationSettings.SettingsPanel.SetNewEmail` | src/components/dashboard/EscalationSettings.tsx:143 | typing replaces the input |
| `EscalationSettings.SettingsPanel.AddEmail` | src/components/dashboard/EscalationSettings.tsx:57-72 | the input is appended and cleared iff it is a valid address not yet listed. Otherwise nothing changes. The list stays free of duplicates |
| `EscalationSettings.SettingsPanel.RemoveEmail` | src/components/dashboard/EscalationSettings.tsx:74-76 | removing keeps exactly the other addresses, in order |
| `EscalationSettings.SettingsPanel.Load` | src/components/dashboard/EscalationSettings.tsx:30-55 | a successful load shows the stored list; a failed one keeps what was shown |
| `EscalationSettings.SettingsPanel.Save` | src/components/dashboard/EscalationSettings.tsx:78-114 | save reports success iff both calls succeed, and then writes the list; on failure the table is unchanged |
| `EscalationSettings.AppendKeepsDistinct` | src/components/dashboard/EscalationSettings.tsx:65-70 | appending an unlisted address keeps the list free of duplicates |
| `EscalationSettings.RemoveEmailSpec` | src/components/dashboard/EscalationSettings.tsx:74-76 | after removal the address is gone, the others remain in order, and no duplicate appears |
| `PdfExport.ReportTitleShape` | src/utils/pdfExport.ts:32 | the title is the report type in capitals with its first dash turned into a space, followed by " REPORT" |
| `PdfExport.ReportTitleExample` | src/utils/pdfExport.ts:32 | "response-time" gives "RESPONSE TIME" |
| `PdfExport.ReportRequestsRule` | src/utils/pdfExport.ts:45-50 | with both ends, the report covers the requests created within them, ends included, in order, each as often as it occurs in the list; otherwise all requests |
| `PdfExport.ReportSummary` | src/utils/pdfExport.ts:53-61 | the summary counts the requests in each status, these partition the total, and "escalated" is current plus past escalations |
| `PdfExport.SummaryMatchesDashboard` | src/utils/pdfExport.ts:53-61 | for an ordered range, the report's summary equals the dashboard's statistics |
| `PdfExport.ReportStatusRule` | src/utils/pdfExport.ts:140-152 | "Completed (Escalated)" marks exactly the completed requests that were escalated; the labels tell apart exactly those cases |
| `PdfExport.DetailedListsAll` | src/utils/pdfExport.ts:78-94 | detailed and summary reports list every covered request in order, without a resolution column |
| `PdfExport.EscalationReportRows` | src/utils/pdfExport.ts:95-124 | the escalation report lists exactly the current or past escalations, in order, resolved iff completed. With none, a note is printed instead |
| `PdfExport.GenerateReport` | src/utils/pdfExport.ts:21-137 | the report is the title, the summary and the body of the covered requests. The summary total is their number, and only an unknown report type has no table after the summary |
| `MockDashboard.CountStatsSum` | src/components/dashboard/Dashboard.tsx:100-108 | the four status counts of any list add up to its total |
| `MockDashboard.MockStatsValues` | src/components/dashboard/Dashboard.tsx:27-108 | the sample list has four requests, one of each status |
| `MockDashboard.FilterTabRule` | src/components/dashboard/Dashboard.tsx:116-124 | a status tab is the filter by that status: the requests with it, in order, each as often as it occurs. "all" and unknown tabs show everything |
| `MockDashboard.EscalatedTabIsCurrentOnly` | src/components/dashboard/Dashboard.tsx:116-124 | the escalated tab shows only currently escalated requests |
| `MockDashboard.UpdatedRequestsRule` | src/components/dashboard/Dashboard.tsx:131-157 | only requests with the id change. They take the status and keep every other field. A typed comment from "IT Staff" is appended, to an empty list if there was none |
| `MockDashboard.UpdateKeepsIds` | src/components/dashboard/Dashboard.tsx:131-157 | the update keeps every request's id |
| `MockDashboard.Dashboard.constructor` | src/components/dashboard/Dashboard.tsx:111-114 | the page starts on "all" with the sample requests and no dialog |
| `MockDashboard.Dashboard.SetTab` | src/components/dashboard/Dashboard.tsx:163-174 | picking a tab, or Refresh ("all"), sets the tab |
| `MockDashboard.Dashboard.ViewDetails` | src/components/dashboard/Dashboard.tsx:126-129 | the dialog opens on the request |
| `MockDashboard.Dashboard.UpdateStatus` | src/components/dashboard/Dashboard.tsx:131-157 | the list becomes its updated copy |
| `AdminUsers.LastByIdRule` | src/components/dashboard/AdminUsers.tsx:94-97 | the index has exactly the profile ids as keys, and maps each to the last profile with that id |
| `AdminUsers.IndexProfiles` | src/components/dashboard/AdminUsers.tsx:94-97 | the `forEach` loop builds that index |
| `AdminUsers.MergeUser` | src/components/dashboard/AdminUsers.tsx:100-110 | the entry's name is the profile's first name, else the account's name, else "Unknown". The email falls back to "No email". Role, team and escalation right come from the profile, or default to user, "" and false without one |
| `AdminUsers.MergeUsersRule` | src/components/dashboard/AdminUsers.tsx:94-110 | one entry per account in order; role and team from the account's last profile; defaults for accounts without a profile |
| `AdminUsers.FallbackUser` | src/components/dashboard/AdminUsers.tsx:70-79 | without account data, the email column is "User ID: " plus the first eight characters of the id plus "...". The other fields come from the profile |
| `AdminUsers.FallbackUsersRule` | src/components/dashboard/AdminUsers.tsx:60-84 | one entry per profile in order; an id of at most eight characters is shown whole |
| `AdminUsers.ApplyEdit` | src/components/dashboard/AdminUsers.tsx:183-185 | a form edit changes the named field and keeps the other four |
| `AdminUsers.EditedProfilesRule` | src/components/dashboard/AdminUsers.tsx:149-163 | saving changes only the edited user's profile. It takes the form's role, team and escalation right, and a non-empty name. The last name is kept |
| `AdminUsers.UsersPanel.constructor` | src/components/dashboard/AdminUsers.tsx:38-48 | the panel starts loading, with no users, a closed dialog and an empty form |
| `AdminUsers.UsersPanel.FetchUsers` | src/components/dashboard/AdminUsers.tsx:54-121 | when the account listing fails, the list comes from the profiles alone. Otherwise accounts are merged with their profiles. A failed profile read keeps the old list |
| `AdminUsers.UsersPanel.EditUser` | src/components/dashboard/AdminUsers.tsx:123-133 | the dialog opens on the user, with the form filled from the entry |
| `AdminUsers.UsersPanel.AddUser` | src/components/dashboard/AdminUsers.tsx:135-145 | the dialog opens with an empty form and no user being edited |
| `AdminUsers.UsersPanel.Change` | src/components/dashboard/AdminUsers.tsx:183-185 | a field edit updates the form |
| `AdminUsers.UsersPanel.Submit` | src/components/dashboard/AdminUsers.tsx:147-181 | without a user being edited, nothing is saved and the dialog closes. Otherwise a successful update writes the form into the profile and closes the dialog; a failed one changes nothing |
| `AutoLogout.Check` | src/hooks/use-auto-logout.tsx:45-68 | a check warns iff the idle time reached the limit minus five minutes and no warning was shown, and logs out iff it reached the limit. The checks stop only after a logout without a warning in the same check |
| `AutoLogout.LogoutAfterWarning` | src/hooks/use-auto-logout.tsx:45-64 | a check that logs out leaves the warning shown |
| `AutoLogout.WarnedLogoutChecksAgain` | src/hooks/use-auto-logout.tsx:52-68 | from an unwarned session, two checks past the limit give a warning with a sign-out, then a second sign-out, and then no further check |
| `AutoLogout.AtMostOneWarning` | src/hooks/use-auto-logout.tsx:52-58 | between two activities the warning is raised at most once, and not at all if it was already shown |
| `AutoLogout.WarnedBeforeLogout` | src/hooks/use-auto-logout.tsx:45-64 | from an unwarned session, every logout comes at or after a warning |
| `AutoLogout.Logout.constructor` | src/hooks/use-auto-logout.tsx:11-13 | the limit defaults to two hours; the session starts fresh at mount time |
| `AutoLogout.Logout.Activity` | src/hooks/use-auto-logout.tsx:16-22 | activity while signed in restarts the clock and clears the warning; otherwise nothing changes |
| `AutoLogout.Logout.SetAuthenticated` | src/hooks/use-auto-logout.tsx:16-39 | signing in counts as activity; other changes keep the session |
| `AutoLogout.Logout.Tick` | src/hooks/use-auto-logout.tsx:42-68 | a tick does nothing when signed out or stopped. Otherwise it runs the check and counts a sign-out request when the check logs out |

## Left out

- HTTP handling, CORS, console output and response headers of the escalation function are not modelled. Thrown error messages are reduced to which step failed.
- Email delivery is not modelled. The function only logs the email, so the model produces the email value and no transport.
- Toasts are not modelled, except the manual-check toast and the dialog's status notice, which the code branches on.
- The PDF document, its fonts, colours and layout are not modelled. Neither is its file name, which reads the clock.
- Locale date formatting is not modelled: report dates stay timestamps.
- Timers, event listeners, React effects and re-renders become explicit method calls with the current time as a parameter.
- The sign-out call and the redirect become a counter of sign-out requests.
- `Math.random()` is a parameter in [0, 1).
- `Text.ToLowerAscii` and `Text.ToUpperAscii` map ASCII letters only. JavaScript's `toLowerCase` and `toUpperCase` also map non-ASCII letters.
- Strings are sequences of characters, not UTF-16 code units. `substring` therefore counts characters.
- The date-fns version is not part of this model. `WifiRequestsHook.IsDateInRange` assumes the version 3 behaviour of `isWithinInterval`, which orders the two ends of the interval before testing.
- `WifiRequestsHook.RequestsHook.ViewDetails` stores a copy of the request. The code writes the loaded comments into the object shared with the list, so the list's entry also gains them; that aliasing is not modelled.
- The `fetchRequests` call at the end of status updates, escalations and the manual check is not modelled inside those methods. It is the separate method `WifiRequestsHook.RequestsHook.FetchRequests`.
- The `fetchUsers` call after a saved profile is likewise the separate method `AdminUsers.UsersPanel.FetchUsers`.
- The settings read inside `handleEscalateRequest` only chooses a toast and is not modelled.
- JSON address lists hold strings in the model. Non-string array elements, which `String(email)` would convert, are not modelled.
- Column defaults the database supplies are not modelled: `was_escalated` is null on insert.
- Database triggers are not modelled: `updated_at` is assumed to be set at insert and never refreshed. This decides when in-progress requests fall due for the sweep.
- Query results are taken in stored order throughout. Neither the sweep's two candidate queries nor the dashboard's request query sets an order, so the database may return rows in any order. This decides the order of the audit comments, the emails and the dashboard list, but not which requests are escalated.
- `WifiRequestsHook.WithLoadedComments`: the comment query sets no order. The model returns the comments in the order they were stored.
- The spinner flags (`isLoading`, `isSaving`) of the hook and the settings panel are not modelled; they only choose what is drawn. `AdminUsers` keeps its `isLoading`.
- `FormSubmission.SubmitWifiRequest`: a failed existence check is treated as "id free", as the code does. The insert then fails on a clash, which the model captures as an id taken in the table.
- The stand-alone dashboard's fixed statistics texts (average times) are not modelled. Only the counts are.
