/** User management (`AdminUsers`): the user list built by joining the
    authentication users with their `profiles` rows, the profile-only list
    used when the authentication listing fails, and the profile edit. */
module AdminUsers {
  import opened Model
  import opened Database

  /** An account from the authentication service's user listing. */
  datatype AuthUser = AuthUser(id: string, email: Option<string>, metadataName: Option<string>)

  /** A row of the user table (`AssignmentProps`). */
  datatype UserEntry = UserEntry(id: string, name: string, email: string, role: Role, team: string, canEscalate: bool)

  // ---------------------------------------------------------------------------
  // Profiles by id

  /** The map the profiles are put into, one `set` per row in list order: the
      last row with an id is the one kept. */
  function LastById(profiles: seq<ProfileRow>): map<string, ProfileRow>
    decreases |profiles|
  {
    if profiles == [] then map[]
    else
      var last := profiles[|profiles| - 1];
      LastById(profiles[..|profiles| - 1])[last.id := last]
  }

  /** The map's keys are exactly the profile ids; each key maps to a profile
      with that id, and to the last one. */
  lemma LastByIdRule(profiles: seq<ProfileRow>)
    ensures forall k :: k in LastById(profiles) <==> exists j :: 0 <= j < |profiles| && profiles[j].id == k
    ensures forall k :: k in LastById(profiles) ==> LastById(profiles)[k] in profiles && LastById(profiles)[k].id == k
    ensures forall j :: 0 <= j < |profiles| && (forall j' :: j < j' < |profiles| ==> profiles[j'].id != profiles[j].id) ==>
              profiles[j].id in LastById(profiles) && LastById(profiles)[profiles[j].id] == profiles[j]
  {
    LastByIdKeys(profiles);
    LastByIdValues(profiles);
    LastByIdLast(profiles);
  }

  lemma {:induction false} LastByIdKeys(profiles: seq<ProfileRow>)
    ensures forall k :: k in LastById(profiles) <==> exists j :: 0 <= j < |profiles| && profiles[j].id == k
    decreases |profiles|
  {
    if profiles != [] {
      var n := |profiles| - 1;
      var init := profiles[..n];
      LastByIdKeys(init);
      forall k | k in LastById(profiles)
        ensures exists j :: 0 <= j < |profiles| && profiles[j].id == k
      {
        if k != profiles[n].id {
          assert k in LastById(init);
          var j :| 0 <= j < |init| && init[j].id == k;
          assert profiles[j].id == k;
        }
      }
      forall k | exists j :: 0 <= j < |profiles| && profiles[j].id == k
        ensures k in LastById(profiles)
      {
        var j :| 0 <= j < |profiles| && profiles[j].id == k;
        if j < n {
          assert init[j].id == k;
        }
      }
    }
  }

  lemma {:induction false} LastByIdValues(profiles: seq<ProfileRow>)
    ensures forall k :: k in LastById(profiles) ==> LastById(profiles)[k] in profiles && LastById(profiles)[k].id == k
    decreases |profiles|
  {
    if profiles != [] {
      var n := |profiles| - 1;
      var init := profiles[..n];
      LastByIdValues(init);
      forall k | k in LastById(profiles)
        ensures LastById(profiles)[k] in profiles && LastById(profiles)[k].id == k
      {
        if k != profiles[n].id {
          assert LastById(init)[k] in init;
        }
      }
    }
  }

  lemma {:induction false} LastByIdLast(profiles: seq<ProfileRow>)
    ensures forall j :: 0 <= j < |profiles| && (forall j' :: j < j' < |profiles| ==> profiles[j'].id != profiles[j].id) ==>
              profiles[j].id in LastById(profiles) && LastById(profiles)[profiles[j].id] == profiles[j]
    decreases |profiles|
  {
    if profiles != [] {
      var n := |profiles| - 1;
      var init := profiles[..n];
      LastByIdLast(init);
      forall j | 0 <= j < |profiles| && (forall j' :: j < j' < |profiles| ==> profiles[j'].id != profiles[j].id)
        ensures profiles[j].id in LastById(profiles) && LastById(profiles)[profiles[j].id] == profiles[j]
      {
        if j < n {
          assert init[j] == profiles[j];
          forall j' | j < j' < |init|
            ensures init[j'].id != init[j].id
          {
            assert init[j'] == profiles[j'];
          }
        }
      }
    }
  }

  /** `profiles.forEach(profile => userProfiles.set(profile.id, profile))`. */
  method IndexProfiles(profiles: seq<ProfileRow>) returns (index: map<string, ProfileRow>)
    ensures index == LastById(profiles)
  {
    index := map[];
    var i := 0;
    while i < |profiles|
      invariant 0 <= i <= |profiles|
      invariant index == LastById(profiles[..i])
    {
      assert profiles[..i + 1][..i] == profiles[..i];
      index := index[profiles[i].id := profiles[i]];
      i := i + 1;
    }
    assert profiles[..|profiles|] == profiles;
  }

  // ---------------------------------------------------------------------------
  // The lists

  const UnknownName: string := "Unknown"
  const NoEmail: string := "No email"

  /** One auth user joined with its profile, if any: each field takes the
      first truthy source, falling back to a fixed default. */
  function MergeUser(u: AuthUser, index: map<string, ProfileRow>): (e: UserEntry)
    ensures e.id == u.id
    ensures u.id in index && Truthy(index[u.id].firstName) ==> e.name == index[u.id].firstName.value
    ensures !(u.id in index && Truthy(index[u.id].firstName)) && Truthy(u.metadataName) ==> e.name == u.metadataName.value
    ensures !(u.id in index && Truthy(index[u.id].firstName)) && !Truthy(u.metadataName) ==> e.name == UnknownName
    ensures e.email == OrElse(u.email, NoEmail)
    ensures u.id !in index ==> e.role == User && e.team == "" && !e.canEscalate
    ensures u.id in index ==> e.role == index[u.id].role && e.team == OrElse(index[u.id].team, "")
                              && (e.canEscalate <==> index[u.id].canEscalate == Some(true))
  {
    var firstName := if u.id in index then index[u.id].firstName else None;
    UserEntry(u.id,
              if Truthy(firstName) then firstName.value else OrElse(u.metadataName, UnknownName),
              OrElse(u.email, NoEmail),
              if u.id in index then index[u.id].role else User,
              if u.id in index then OrElse(index[u.id].team, "") else "",
              u.id in index && index[u.id].canEscalate == Some(true))
  }

  function MergeUsers(users: seq<AuthUser>, index: map<string, ProfileRow>): seq<UserEntry>
  {
    seq(|users|, i requires 0 <= i < |users| => MergeUser(users[i], index))
  }

  /** The joined list has one entry per auth user, in the listing's order,
      under the user's id; an entry's profile data comes from the last
      profile row with that id. */
  lemma MergeUsersRule(users: seq<AuthUser>, profiles: seq<ProfileRow>)
    ensures var list := MergeUsers(users, LastById(profiles));
            && |list| == |users|
            && (forall i :: 0 <= i < |users| ==> list[i].id == users[i].id)
            && (forall i, j :: (0 <= i < |users| && 0 <= j < |profiles| && profiles[j].id == users[i].id
                               && (forall j' :: j < j' < |profiles| ==> profiles[j'].id != users[i].id)) ==>
                  list[i].role == profiles[j].role && list[i].team == OrElse(profiles[j].team, ""))
            && (forall i :: 0 <= i < |users| && (forall j :: 0 <= j < |profiles| ==> profiles[j].id != users[i].id) ==>
                  list[i].role == User && list[i].team == "" && !list[i].canEscalate)
  {
    LastByIdRule(profiles);
  }

  const IdLabel: string := "User ID: "
  const Ellipsis: string := "..."

  /** A profile listed without its account: the email column shows the first
      eight characters of the id (all of a shorter id). */
  function FallbackUser(p: ProfileRow): (e: UserEntry)
    ensures e.id == p.id && e.role == p.role && e.team == OrElse(p.team, "")
    ensures e.name == OrElse(p.firstName, UnknownName)
    ensures e.canEscalate <==> p.canEscalate == Some(true)
    ensures |e.email| == |IdLabel| + Min(8, |p.id|) + |Ellipsis|
    ensures e.email[..|IdLabel|] == IdLabel && e.email[|e.email| - |Ellipsis|..] == Ellipsis
    ensures p.id == e.email[|IdLabel|..|e.email| - |Ellipsis|] + p.id[Min(8, |p.id|)..]
  {
    var e := UserEntry(p.id, OrElse(p.firstName, UnknownName), IdLabel + p.id[..Min(8, |p.id|)] + Ellipsis,
                       p.role, OrElse(p.team, ""), p.canEscalate == Some(true));
    assert e.email[|IdLabel|..|e.email| - |Ellipsis|] == p.id[..Min(8, |p.id|)];
    e
  }

  function FallbackUsers(profiles: seq<ProfileRow>): seq<UserEntry>
  {
    seq(|profiles|, i requires 0 <= i < |profiles| => FallbackUser(profiles[i]))
  }

  /** The profile-only list has one entry per profile row, in order, and an
      id of at most eight characters is shown whole. */
  lemma FallbackUsersRule(profiles: seq<ProfileRow>)
    ensures |FallbackUsers(profiles)| == |profiles|
    ensures forall i :: 0 <= i < |profiles| ==> FallbackUsers(profiles)[i].id == profiles[i].id
    ensures forall i :: 0 <= i < |profiles| && |profiles[i].id| <= 8 ==>
              FallbackUsers(profiles)[i].email == IdLabel + profiles[i].id + Ellipsis
  {
  }

  // ---------------------------------------------------------------------------
  // The panel

  /** The edit form. */
  datatype UserForm = UserForm(email: string, name: string, role: Role, team: string, canEscalate: bool)

  const EmptyForm: UserForm := UserForm("", "", User, "", false)

  /** One form field changed by `handleChange`. */
  datatype FieldEdit = EmailEdit(email: string) | NameEdit(name: string) | RoleEdit(role: Role)
                     | TeamEdit(team: string) | CanEscalateEdit(canEscalate: bool)

  /** `handleChange`: the edited field takes the new value and the other four
      keep theirs. */
  function ApplyEdit(form: UserForm, edit: FieldEdit): (r: UserForm)
    ensures r.email == (if edit.EmailEdit? then edit.email else form.email)
    ensures r.name == (if edit.NameEdit? then edit.name else form.name)
    ensures r.role == (if edit.RoleEdit? then edit.role else form.role)
    ensures r.team == (if edit.TeamEdit? then edit.team else form.team)
    ensures r.canEscalate == (if edit.CanEscalateEdit? then edit.canEscalate else form.canEscalate)
  {
    match edit
    case EmailEdit(e) => form.(email := e)
    case NameEdit(n) => form.(name := n)
    case RoleEdit(r) => form.(role := r)
    case TeamEdit(t) => form.(team := t)
    case CanEscalateEdit(c) => form.(canEscalate := c)
  }

  /** `.update({ role, first_name, team, can_escalate }).eq('id', id)`: the
      rows with that id take the form's four values; nothing else changes. */
  function EditedProfiles(rows: seq<ProfileRow>, id: string, form: UserForm): seq<ProfileRow>
  {
    seq(|rows|, i requires 0 <= i < |rows| =>
      if rows[i].id == id
      then rows[i].(role := form.role, firstName := Some(form.name), team := Some(form.team), canEscalate := Some(form.canEscalate))
      else rows[i])
  }

  /** The edit writes exactly the four form fields of the edited user's rows,
      and the row then reads back as the form in the user list. */
  lemma EditedProfilesRule(rows: seq<ProfileRow>, id: string, form: UserForm)
    ensures var after := EditedProfiles(rows, id, form);
            && |after| == |rows|
            && (forall i :: 0 <= i < |rows| && rows[i].id != id ==> after[i] == rows[i])
            && (forall i :: 0 <= i < |rows| && rows[i].id == id ==>
                  after[i].id == id && after[i].lastName == rows[i].lastName
                  && FallbackUser(after[i]).role == form.role
                  && FallbackUser(after[i]).team == form.team
                  && FallbackUser(after[i]).canEscalate == form.canEscalate
                  && (form.name != "" ==> FallbackUser(after[i]).name == form.name))
  {
  }

  class UsersPanel {
    var users: seq<UserEntry>
    var isLoading: bool
    var isDialogOpen: bool
    var editingUser: Option<UserEntry>
    var formData: UserForm

    constructor ()
      ensures users == [] && isLoading && !isDialogOpen && editingUser.None? && formData == EmptyForm
    {
      users := [];
      isLoading := true;
      isDialogOpen := false;
      editingUser := None;
      formData := EmptyForm;
    }

    /** `fetchUsers`, with the two reads' outcomes as inputs. When the account
        listing fails the list is built from the profiles alone; a failed
        profiles read leaves the list as it was. */
    method FetchUsers(authFails: bool, authUsers: seq<AuthUser>, profilesFails: bool, profiles: seq<ProfileRow>)
      modifies this`users, this`isLoading
      ensures !isLoading
      ensures profilesFails ==> users == old(users)
      ensures !profilesFails && authFails ==> users == FallbackUsers(profiles)
      ensures !profilesFails && !authFails ==> users == MergeUsers(authUsers, LastById(profiles))
    {
      isLoading := true;
      if profilesFails {
        isLoading := false;
        return;
      }
      if authFails {
        users := FallbackUsers(profiles);
      } else {
        var index := IndexProfiles(profiles);
        users := MergeUsers(authUsers, index);
      }
      isLoading := false;
    }

    /** `handleEditUser`: the form starts from the user's entry. */
    method EditUser(u: UserEntry)
      modifies this`editingUser, this`formData, this`isDialogOpen
      ensures editingUser == Some(u) && isDialogOpen
      ensures formData == UserForm(u.email, u.name, u.role, u.team, u.canEscalate)
    {
      editingUser := Some(u);
      formData := UserForm(u.email, u.name, u.role, u.team, u.canEscalate);
      isDialogOpen := true;
    }

    /** `handleAddUser`: an empty form with no user being edited. */
    method AddUser()
      modifies this`editingUser, this`formData, this`isDialogOpen
      ensures editingUser.None? && formData == EmptyForm && isDialogOpen
    {
      editingUser := None;
      formData := EmptyForm;
      isDialogOpen := true;
    }

    /** A field of the open form edited. */
    method Change(edit: FieldEdit)
      modifies this`formData
      ensures formData == ApplyEdit(old(formData), edit)
    {
      formData := ApplyEdit(formData, edit);
    }

    /** `handleSubmit`. Without a user being edited nothing is written (new
        accounts are refused) and the dialog closes; otherwise the edited
        user's profile takes the form's four fields, and on success the dialog
        closes (the list is then fetched again, see `FetchUsers`). */
    method Submit(store: Store, updateFails: bool) returns (saved: bool)
      modifies store`profiles, this`isDialogOpen
      ensures editingUser.None? ==> !saved && store.profiles == old(store.profiles) && !isDialogOpen
      ensures editingUser.Some? && updateFails ==>
                !saved && store.profiles == old(store.profiles) && isDialogOpen == old(isDialogOpen)
      ensures editingUser.Some? && !updateFails ==>
                saved && store.profiles == EditedProfiles(old(store.profiles), editingUser.value.id, formData) && !isDialogOpen
    {
      if editingUser.None? {
        isDialogOpen := false;
        return false;
      }
      if updateFails {
        return false;
      }
      store.profiles := EditedProfiles(store.profiles, editingUser.value.id, formData);
      isDialogOpen := false;
      saved := true;
    }
  }
}
