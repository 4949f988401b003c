/** The escalation recipients panel (`EscalationSettings`): address
    validation, adding and removing recipients, and loading and saving the
    single `escalation_settings` row the sweep reads. */
module EscalationSettings {
  import opened Seqs
  import opened Text
  import opened Model
  import opened Database
  import opened EscalateRequests

  // ---------------------------------------------------------------------------
  // Address validation

  /** A non-empty run of characters that are neither `\s` nor '@' (`[^\s@]+`). */
  predicate Plain(s: string)
  {
    |s| > 0 && forall k :: 0 <= k < |s| ==> !IsSpace(s[k]) && s[k] != '@'
  }

  /** `^[^\s@]+@[^\s@]+\.[^\s@]+$`: the address splits at some '@' and some
      later '.' into three plain parts. */
  ghost predicate MatchesEmailPattern(s: string)
  {
    exists i, j :: 0 < i && i + 1 < j && j + 1 < |s| && s[i] == '@' && s[j] == '.'
                   && Plain(s[..i]) && Plain(s[i + 1..j]) && Plain(s[j + 1..])
  }

  /** The first position of `c` in `s`. */
  function FirstIndex(s: string, c: char): (r: Option<nat>)
    ensures r.Some? ==> r.value < |s| && s[r.value] == c && forall k :: 0 <= k < r.value ==> s[k] != c
    ensures r.None? ==> forall k :: 0 <= k < |s| ==> s[k] != c
    decreases |s|
  {
    if s == [] then None
    else if s[0] == c then Some(0)
    else
      var rest := FirstIndex(s[1..], c);
      if rest.Some? then Some(rest.value + 1) else None
  }

  /** The check as a scan: no white space anywhere, exactly one '@', not at
      the start, and a '.' strictly inside the part after it. */
  predicate ValidEmail(s: string)
  {
    var at := FirstIndex(s, '@');
    && at.Some? && 0 < at.value
    && (forall k :: at.value < k < |s| ==> s[k] != '@')
    && (forall k :: 0 <= k < |s| ==> !IsSpace(s[k]))
    && (exists j :: at.value + 1 < j < |s| - 1 && s[j] == '.')
  }

  /** The scan accepts exactly the addresses the regular expression matches. */
  lemma ValidEmailMatchesPattern(s: string)
    ensures ValidEmail(s) <==> MatchesEmailPattern(s)
  {
    if ValidEmail(s) {
      ValidEmailSplits(s);
    }
    if MatchesEmailPattern(s) {
      var i, j :| 0 < i && i + 1 < j && j + 1 < |s| && s[i] == '@' && s[j] == '.'
                  && Plain(s[..i]) && Plain(s[i + 1..j]) && Plain(s[j + 1..]);
      PatternIsValid(s, i, j);
    }
  }

  lemma ValidEmailSplits(s: string)
    requires ValidEmail(s)
    ensures MatchesEmailPattern(s)
  {
    var i := FirstIndex(s, '@').value;
    var j :| i + 1 < j < |s| - 1 && s[j] == '.';
    assert Plain(s[..i]);
    assert Plain(s[i + 1..j]);
    assert Plain(s[j + 1..]);
  }

  lemma PatternIsValid(s: string, i: nat, j: nat)
    requires 0 < i && i + 1 < j && j + 1 < |s| && s[i] == '@' && s[j] == '.'
    requires Plain(s[..i]) && Plain(s[i + 1..j]) && Plain(s[j + 1..])
    ensures ValidEmail(s)
  {
    forall k | 0 <= k < |s|
      ensures !IsSpace(s[k]) && (k != i ==> s[k] != '@')
    {
      if k < i {
        assert s[k] == s[..i][k];
      } else if i < k < j {
        assert s[k] == s[i + 1..j][k - i - 1];
      } else if j < k {
        assert s[k] == s[j + 1..][k - j - 1];
      }
    }
    FirstIndexAt(s, '@', i);
  }

  /** The first occurrence is found. */
  lemma {:induction false} FirstIndexAt(s: string, c: char, k: nat)
    requires k < |s| && s[k] == c && forall m :: 0 <= m < k ==> s[m] != c
    ensures FirstIndex(s, c) == Some(k)
    decreases k
  {
    if k > 0 {
      FirstIndexAt(s[1..], c, k - 1);
    }
  }

  /** Two examples: a usual address passes; one without a dot after the '@' does not. */
  lemma EmailExamples(good: string, bad: string)
    requires good == "it@hotel.com" && bad == "it@hotel"
    ensures ValidEmail(good) && !ValidEmail(bad)
  {
    assert good[0] != '@' && good[1] != '@' && good[2] == '@';
    FirstIndexAt(good, '@', 2);
    assert good[8] == '.';
    assert bad[0] != '@' && bad[1] != '@' && bad[2] == '@';
    FirstIndexAt(bad, '@', 2);
  }

  // ---------------------------------------------------------------------------
  // The stored row

  /** No address appears twice. */
  predicate Distinct(emails: seq<string>)
  {
    forall i, j :: 0 <= i < j < |emails| ==> emails[i] != emails[j]
  }

  /** The list the panel shows after loading: the array in the single row;
      nothing when `.single()` finds no row or several (both reported as
      PGRST116, which is not treated as an error) or the value is not an array. */
  function LoadedEmails(settings: seq<SettingsRow>): (r: seq<string>)
    ensures |settings| != 1 ==> r == []
    ensures |settings| == 1 && !settings[0].emails.JArray? ==> r == []
  {
    if |settings| == 1 && settings[0].emails.JArray? then settings[0].emails.items else []
  }

  /** The table after a successful save: the single row's `emails` replaced,
      or, when `.single()` found no row or several, a new row inserted. */
  function SavedSettings(settings: seq<SettingsRow>, emails: seq<string>, newId: string): (r: seq<SettingsRow>)
    ensures |settings| == 1 ==> r == [settings[0].(emails := JArray(emails))]
    ensures |settings| != 1 ==> r == settings + [SettingsRow(newId, JArray(emails), None, None)]
  {
    if |settings| == 1 then [settings[0].(emails := JArray(emails))]
    else settings + [SettingsRow(newId, JArray(emails), None, None)]
  }

  /** Saving into a table with at most one row and loading again gives back
      the saved list, and the table then holds exactly one row. */
  lemma SaveThenLoad(settings: seq<SettingsRow>, emails: seq<string>, newId: string)
    requires |settings| <= 1
    ensures |SavedSettings(settings, emails, newId)| == 1
    ensures LoadedEmails(SavedSettings(settings, emails, newId)) == emails
  {
  }

  /** With two or more rows, saving adds yet another row: the saved list is
      never read back, and the sweep keeps failing at its settings read. */
  lemma SaveWithSeveralRows(settings: seq<SettingsRow>, emails: seq<string>, newId: string,
                            rows: seq<RequestRow>, now: int)
    requires |settings| >= 2
    ensures var saved := SavedSettings(settings, emails, newId);
            && |saved| == |settings| + 1
            && LoadedEmails(saved) == []
            && PlannedOutcome(rows, saved, now, false, false, false) == SettingsError
  {
  }

  /** After a save from a table with at most one row, the sweep finds
      recipients exactly when the saved list is non-empty, and sends each
      mail to that list. */
  lemma SavedListReachesSweep(settings: seq<SettingsRow>, emails: seq<string>, newId: string,
                              rows: seq<RequestRow>, now: int)
    requires |settings| <= 1
    ensures var saved := SavedSettings(settings, emails, newId);
            && (NoRecipients(saved[0].emails) <==> emails == [])
            && (emails == [] ==> PlannedOutcome(rows, saved, now, false, false, false) == NoEmailsConfigured)
            && (forall m :: m in Notifications(Candidates(rows, now), {}, saved[0].emails) ==> m.to == emails)
  {
    var saved := SavedSettings(settings, emails, newId);
    NotificationsRecipients(Candidates(rows, now), {}, saved[0].emails);
  }

  // ---------------------------------------------------------------------------
  // The panel

  class SettingsPanel {
    var emails: seq<string>
    var newEmail: string

    constructor ()
      ensures emails == [] && newEmail == ""
    {
      emails := [];
      newEmail := "";
    }

    /** Typing in the address box. */
    method SetNewEmail(text: string)
      modifies this`newEmail
      ensures newEmail == text
    {
      newEmail := text;
    }

    /** `handleAddEmail`: an invalid or already listed address is refused and
        nothing changes; otherwise it is appended and the box is cleared. */
    method AddEmail() returns (accepted: bool)
      modifies this
      ensures accepted <==> ValidEmail(old(newEmail)) && old(newEmail) !in old(emails)
      ensures !accepted ==> emails == old(emails) && newEmail == old(newEmail)
      ensures accepted ==> emails == old(emails) + [old(newEmail)] && newEmail == ""
      ensures Distinct(old(emails)) ==> Distinct(emails)
    {
      if !ValidEmail(newEmail) {
        return false;
      }
      if newEmail in emails {
        return false;
      }
      if Distinct(emails) {
        AppendKeepsDistinct(emails, newEmail);
      }
      emails := emails + [newEmail];
      newEmail := "";
      accepted := true;
    }

    /** `handleRemoveEmail(email)`: every copy of the address goes, the others
        stay in order. */
    method RemoveEmail(email: string)
      modifies this`emails
      ensures emails == Filter(old(emails), e => e != email)
    {
      emails := Filter(emails, e => e != email);
    }

    /** `fetchEscalationSettings`: a read error other than PGRST116 leaves the
        list as it was; otherwise the list is what the table holds. */
    method Load(store: Store, fails: bool)
      modifies this`emails
      ensures fails ==> emails == old(emails)
      ensures !fails ==> emails == LoadedEmails(store.settings)
    {
      if fails {
        return;
      }
      if |store.settings| == 1 {
        var row := store.settings[0];
        emails := if row.emails.JArray? then row.emails.items else [];
      } else {
        emails := [];
      }
    }

    /** `handleSaveSettings`: a read error other than PGRST116, or a failed
        write, changes nothing; otherwise the table becomes `SavedSettings`. */
    method Save(store: Store, checkFails: bool, writeFails: bool, newId: string) returns (ok: bool)
      modifies store`settings
      ensures ok <==> !checkFails && !writeFails
      ensures !ok ==> store.settings == old(store.settings)
      ensures ok ==> store.settings == SavedSettings(old(store.settings), emails, newId)
    {
      if checkFails {
        return false;
      }
      if |store.settings| == 1 {
        if writeFails {
          return false;
        }
        store.settings := [store.settings[0].(emails := JArray(emails))];
      } else {
        if writeFails {
          return false;
        }
        store.settings := store.settings + [SettingsRow(newId, JArray(emails), None, None)];
      }
      ok := true;
    }
  }

  /** Appending an address not yet listed keeps the list free of duplicates. */
  lemma AppendKeepsDistinct(emails: seq<string>, e: string)
    requires Distinct(emails) && e !in emails
    ensures Distinct(emails + [e])
  {
  }

  /** Removing an address drops every copy of it, keeps every other address,
      and keeps the list free of duplicates. */
  lemma RemoveEmailSpec(emails: seq<string>, email: string)
    ensures email !in Filter(emails, e => e != email)
    ensures forall i :: 0 <= i < |emails| && emails[i] != email ==> emails[i] in Filter(emails, e => e != email)
    ensures IsSubsequence(Filter(emails, e => e != email), emails)
    ensures Distinct(emails) ==> Distinct(Filter(emails, e => e != email))
  {
    FilterIsSubsequence(emails, e => e != email);
    var r := Filter(emails, e => e != email);
    if Distinct(emails) {
      SubsequenceKeepsDistinct(r, emails);
    }
  }

  lemma {:induction false} SubsequenceKeepsDistinct(a: seq<string>, b: seq<string>)
    requires IsSubsequence(a, b) && Distinct(b)
    ensures Distinct(a)
    decreases |b|
  {
    if a != [] {
      if a[0] == b[0] && IsSubsequence(a[1..], b[1..]) {
        SubsequenceKeepsDistinct(a[1..], b[1..]);
        SubsequenceMembers(a[1..], b[1..]);
        forall j | 0 < j < |a|
          ensures a[0] != a[j]
        {
          assert a[j] == a[1..][j - 1];
          assert a[j] in b[1..];
          var k :| 0 <= k < |b[1..]| && b[1..][k] == a[j];
          assert b[k + 1] == a[j];
        }
      } else {
        SubsequenceKeepsDistinct(a, b[1..]);
      }
    }
  }

  lemma {:induction false} SubsequenceMembers(a: seq<string>, b: seq<string>)
    requires IsSubsequence(a, b)
    ensures forall x :: x in a ==> x in b
    decreases |b|
  {
    if a != [] {
      if a[0] == b[0] && IsSubsequence(a[1..], b[1..]) {
        SubsequenceMembers(a[1..], b[1..]);
        forall x | x in a
          ensures x in b
        {
          if x != a[0] {
            assert x in a[1..];
            assert x in b[1..];
          }
        }
      } else {
        SubsequenceMembers(a, b[1..]);
        assert forall x :: x in b[1..] ==> x in b;
      }
    }
  }
}
