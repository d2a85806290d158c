/**
 * The user screen: sign-in and registration on an uncontrolled form whose
 * typed text lives in refs, and the profile editor with its
 * changed-username test, duplicate check, conditional payload and the
 * `saving` flag.
 */
module UserScreen {
  import opened Wrappers
  import opened Text
  import opened Records
  import AdminPanel

  // ---------------------------------------------------------------------
  // Sign-in form
  // ---------------------------------------------------------------------

  /** What a sign-in request carries. */
  datatype Credentials = Credentials(username: string, password: string)

  /** `handleLogin`'s guard: the trimmed username and the untrimmed password
      must both be non-empty; only then is a request sent. */
  function LoginCredentials(usernameRef: string, passwordRef: string): (c: Option<Credentials>)
    ensures c.Some? <==> Trim(usernameRef) != "" && passwordRef != ""
    ensures c.Some? ==> c.value == Credentials(Trim(usernameRef), passwordRef)
  {
    if Trim(usernameRef) == "" || passwordRef == "" then None
    else Some(Credentials(Trim(usernameRef), passwordRef))
  }

  /** The sign-in form: the refs the handlers read, and the text the two
      inputs show. */
  datatype AuthForm = AuthForm(usernameRef: string, passwordRef: string, usernameField: string, passwordField: string)

  /** The inputs show what the handlers will read. */
  predicate InSync(f: AuthForm) {
    f.usernameField == f.usernameRef && f.passwordField == f.passwordRef
  }

  /** Typing into an input sets both its ref and its text. */
  function TypeAuth(f: AuthForm, intoUsername: bool, t: string): (g: AuthForm)
    ensures InSync(f) ==> InSync(g)
    ensures intoUsername ==> g.usernameRef == t && g.passwordRef == f.passwordRef
    ensures !intoUsername ==> g.passwordRef == t && g.usernameRef == f.usernameRef
  {
    if intoUsername then f.(usernameRef := t, usernameField := t)
    else f.(passwordRef := t, passwordField := t)
  }

  /** What the source does to the form when it bumps `formKey` or mounts the
      inputs anew: the inputs come back with an empty default value, and the
      refs are left as they were. */
  function ClearAuthAsWritten(f: AuthForm): AuthForm {
    f.(usernameField := "", passwordField := "")
  }

  /** An emptied form the source still signs in from: after a clear that
      leaves the refs, both inputs look empty while the handlers read the
      old credentials. */
  lemma StaleCredentialsAfterClear(f: AuthForm)
    requires LoginCredentials(f.usernameRef, f.passwordRef).Some?
    ensures var g := ClearAuthAsWritten(f);
            && g.usernameField == "" && g.passwordField == ""
            && !InSync(g)
            && LoginCredentials(g.usernameRef, g.passwordRef) == LoginCredentials(f.usernameRef, f.passwordRef)
  {
  }

  /** The same, on the form right after a registration of "alice". */
  lemma StaleCredentialsExample(f: AuthForm)
    requires f == AuthForm("alice", "secret", "alice", "secret")
    ensures LoginCredentials(ClearAuthAsWritten(f).usernameRef, ClearAuthAsWritten(f).passwordRef) == Some(Credentials("alice", "secret"))
  {
    assert Trim("alice") == "alice" by {
      assert !IsSpace("alice"[0]) && !IsSpace("alice"[4]);
    }
  }

  /** The clear as evidently intended: the refs are emptied with the inputs. */
  function ClearAuth(f: AuthForm): AuthForm {
    AuthForm("", "", "", "")
  }

  /** After the intended clear the form is in sync and empty, so nothing
      can be submitted from it. */
  lemma ClearAuthSpec(f: AuthForm)
    ensures var g := ClearAuth(f);
            && InSync(g) && g.usernameField == "" && g.passwordField == ""
            && LoginCredentials(g.usernameRef, g.passwordRef).None?
            && ClearAuthAsWritten(f).usernameField == g.usernameField
            && ClearAuthAsWritten(f).passwordField == g.passwordField
  {
  }

  /** Whenever the form is in sync, an empty-looking form sends nothing. */
  lemma EmptyLookingFormSendsNothing(f: AuthForm)
    requires InSync(f) && f.usernameField == "" && f.passwordField == ""
    ensures LoginCredentials(f.usernameRef, f.passwordRef).None?
  {
  }

  // ---------------------------------------------------------------------
  // Registration
  // ---------------------------------------------------------------------

  /** `handleRegister`: both fields required, the lookup, the duplicate
      test, then a POST of a plain user without image. */
  function RegisterOutcome(usernameRef: string, passwordRef: string, existing: Response<UserRecord>, posted: bool): SaveOutcome<UserForm> {
    var username := Trim(usernameRef);
    if username == "" || passwordRef == "" then MissingInput
    else if existing.Threw? then RequestFailed
    else if IsDuplicate(existing, username, None) then DuplicateName
    else if !posted then RequestFailed
    else Saved(UserForm(Some(username), passwordRef, "user", None))
  }

  /** Registration succeeds exactly when both fields are filled, no stored
      name clashes and the requests go through; the new account has the
      trimmed name, the password as typed, the "user" role and no image. */
  lemma RegisterOutcomeSpec(usernameRef: string, passwordRef: string, existing: Response<UserRecord>, posted: bool)
    ensures var username := Trim(usernameRef);
            var o := RegisterOutcome(usernameRef, passwordRef, existing, posted);
            && (o.MissingInput? <==> LoginCredentials(usernameRef, passwordRef).None?)
            && (o.Saved? <==>
                  (username != "" && passwordRef != "" && !existing.Threw?
                   && !IsDuplicate(existing, username, None) && posted))
            && (o.Saved? ==> o.body == UserForm(Some(username), passwordRef, "user", None))
  {
  }

  /** Registration is refused as a duplicate exactly when the filled-in
      name clashes with a record of the lookup. */
  lemma RegisterRefusesTakenName(usernameRef: string, passwordRef: string, existing: Response<UserRecord>, posted: bool)
    ensures var username := Trim(usernameRef);
            RegisterOutcome(usernameRef, passwordRef, existing, posted).DuplicateName? <==>
              (username != "" && passwordRef != "" && existing.Array?
               && exists i :: 0 <= i < |existing.items| && Clashes(existing.items[i], username, None))
  {
  }

  /** Self-registration decides exactly as the admin's "add user" does on a
      form with the "user" role and no image. */
  lemma RegisterMatchesAdminAdd(usernameRef: string, passwordRef: string, existing: Response<UserRecord>, posted: bool)
    ensures RegisterOutcome(usernameRef, passwordRef, existing, posted)
         == AdminPanel.AddUserOutcome(UserForm(Some(usernameRef), passwordRef, "user", None), existing, posted)
  {
    var f := UserForm(Some(usernameRef), passwordRef, "user", None);
    assert OrEmpty(f.username) == usernameRef;
    assert f.(username := Some(Trim(usernameRef))) == UserForm(Some(Trim(usernameRef)), passwordRef, "user", None);
  }

  // ---------------------------------------------------------------------
  // Profile edit
  // ---------------------------------------------------------------------

  /** `isUsernameChanged`: the new name differs from the stored one,
      ignoring case and the stored name's surrounding whitespace. */
  predicate UsernameChanged(me: UserRecord, next: string) {
    Lower(next) != Lower(Trim(OrEmpty(me.username)))
  }

  /** The name counts as unchanged exactly when the user's own record would
      clash with it in the duplicate test. */
  lemma UsernameChangedIffNoSelfClash(me: UserRecord, next: string)
    ensures UsernameChanged(me, next) <==> !Clashes(me, next, None)
  {
  }

  /** The PATCH body of `saveEdit`: the image always (null when there is
      none), the username only when it changed, the password only when one
      was typed; never the role. */
  function ProfilePayload(image: Option<string>, changed: bool, next: string, password: string): (p: UserPatch)
    ensures p.image == image && p.role.None?
    ensures p.username.Some? <==> changed
    ensures changed ==> p.username == Some(next)
    ensures p.password.Some? <==> password != ""
    ensures password != "" ==> p.password == Some(password)
  {
    UserPatch(if changed then Some(next) else None, None, image, if password != "" then Some(password) else None)
  }

  /** The `saveEdit` decision for signed-in user `me`: a blank name is
      refused; the duplicate lookup runs only for a changed name and
      ignores `me`'s own id; then the PATCH. `patched` says whether the
      PATCH resolved. */
  function ProfileEditOutcome(me: UserRecord, usernameRef: string, passwordRef: string, image: Option<string>,
                              exist: Response<UserRecord>, patched: bool): SaveOutcome<UserPatch> {
    var next := Trim(usernameRef);
    var changed := UsernameChanged(me, next);
    if next == "" then MissingInput
    else if changed && exist.Threw? then RequestFailed
    else if changed && IsDuplicate(exist, next, Some(me.id)) then DuplicateName
    else if !patched then RequestFailed
    else Saved(ProfilePayload(image, changed, next, passwordRef))
  }

  lemma ProfileEditOutcomeSpec(me: UserRecord, usernameRef: string, passwordRef: string, image: Option<string>,
                               exist: Response<UserRecord>, patched: bool)
    ensures var next := Trim(usernameRef);
            var o := ProfileEditOutcome(me, usernameRef, passwordRef, image, exist, patched);
            && (o.MissingInput? <==> next == "")
            && (o.DuplicateName? <==>
                  (next != "" && UsernameChanged(me, next) && exist.Array?
                   && exists i :: 0 <= i < |exist.items| && Clashes(exist.items[i], next, Some(me.id))))
            && (o.Saved? <==>
                  (next != "" && patched
                   && (UsernameChanged(me, next) ==> !exist.Threw? && !IsDuplicate(exist, next, Some(me.id)))))
            && (o.Saved? ==> o.body == ProfilePayload(image, UsernameChanged(me, next), next, passwordRef))
  {
    var next := Trim(usernameRef);
    var changed := UsernameChanged(me, next);
    var o := ProfileEditOutcome(me, usernameRef, passwordRef, image, exist, patched);
    if next == "" {
      assert o == MissingInput;
    } else if changed && exist.Threw? {
      assert o == RequestFailed;
    } else if changed && IsDuplicate(exist, next, Some(me.id)) {
      assert o == DuplicateName;
    } else {
      assert o == if patched then Saved(ProfilePayload(image, changed, next, passwordRef)) else RequestFailed;
    }
  }

  /** The PATCH only matters once the checks pass: before that the outcome
      is the refusal, after it a failed PATCH is a failed request. */
  lemma PatchOutcome(me: UserRecord, usernameRef: string, passwordRef: string, image: Option<string>,
                     exist: Response<UserRecord>, patched: bool)
    ensures var verdict := ProfileEditOutcome(me, usernameRef, passwordRef, image, exist, true);
            var o := ProfileEditOutcome(me, usernameRef, passwordRef, image, exist, patched);
            && (!verdict.Saved? ==> o == verdict)
            && (verdict.Saved? ==> o == if patched then verdict else RequestFailed)
  {
    var next := Trim(usernameRef);
    var changed := UsernameChanged(me, next);
    if next == "" || (changed && (exist.Threw? || IsDuplicate(exist, next, Some(me.id)))) {
      assert !ProfileEditOutcome(me, usernameRef, passwordRef, image, exist, true).Saved?;
    } else {
      assert ProfileEditOutcome(me, usernameRef, passwordRef, image, exist, true)
          == Saved(ProfilePayload(image, changed, next, passwordRef));
    }
  }

  /** With the name unchanged no lookup is made, so its response cannot
      matter. */
  lemma UnchangedNameSkipsLookup(me: UserRecord, usernameRef: string, passwordRef: string, image: Option<string>,
                                 e1: Response<UserRecord>, e2: Response<UserRecord>, patched: bool)
    requires !UsernameChanged(me, Trim(usernameRef))
    ensures ProfileEditOutcome(me, usernameRef, passwordRef, image, e1, patched)
         == ProfileEditOutcome(me, usernameRef, passwordRef, image, e2, patched)
  {
  }

  /** Re-typing one's own name in another case counts as unchanged: the
      save goes through without the username, and the stored spelling is
      kept. */
  lemma CaseOnlyRename(me: UserRecord, usernameRef: string, passwordRef: string, image: Option<string>,
                       exist: Response<UserRecord>)
    requires Trim(usernameRef) != "" && Lower(Trim(usernameRef)) == NameKey(me)
    ensures var o := ProfileEditOutcome(me, usernameRef, passwordRef, image, exist, true);
            && o.Saved? && o.body.username.None?
            && FallbackUser(me, o.body, false, Trim(usernameRef)).username == me.username
  {
  }

  /** `{ ...me, ...payload, username: changed ? next : me.username }`. */
  function FallbackUser(me: UserRecord, payload: UserPatch, changed: bool, next: string): (u: UserRecord)
    ensures u.id == me.id && u.role == me.role
    ensures u.image == payload.image
    ensures u.password == if payload.password.Some? then payload.password else me.password
    ensures u.username == if changed then Some(next) else me.username
  {
    UserRecord(me.id, if changed then Some(next) else me.username,
               if payload.password.Some? then payload.password else me.password, me.role, payload.image)
  }

  /** The fallback of a saved edit carries exactly the edit: the new name if
      it changed, the new password if one was typed, the chosen image, and
      `me`'s id and role. */
  lemma FallbackUserOfSavedEdit(me: UserRecord, usernameRef: string, passwordRef: string, image: Option<string>,
                                exist: Response<UserRecord>)
    requires ProfileEditOutcome(me, usernameRef, passwordRef, image, exist, true).Saved?
    ensures var next := Trim(usernameRef);
            var o := ProfileEditOutcome(me, usernameRef, passwordRef, image, exist, true);
            var u := FallbackUser(me, o.body, UsernameChanged(me, next), next);
            && u.id == me.id && u.role == me.role && u.image == image
            && (UsernameChanged(me, next) ==> u.username == Some(next))
            && (!UsernameChanged(me, next) ==> u.username == me.username)
            && (passwordRef != "" ==> u.password == Some(passwordRef))
            && (passwordRef == "" ==> u.password == me.password)
  {
  }

  /** What the PATCH of the profile resolves to: a JSON value that is a
      user record, a falsy one, or an exception. */
  datatype PatchResponse = Updated(user: UserRecord) | Falsy | PatchThrew

  /** `updated || fallback`. */
  function NextUser(me: UserRecord, patch: PatchResponse, payload: UserPatch, changed: bool, next: string): (u: UserRecord)
    ensures patch.Updated? ==> u == patch.user
    ensures !patch.Updated? ==> u == FallbackUser(me, payload, changed, next)
  {
    if patch.Updated? then patch.user else FallbackUser(me, payload, changed, next)
  }

  /** The record a saved edit signs in as. */
  function EditedUser(me: UserRecord, usernameRef: string, patch: PatchResponse, payload: UserPatch): UserRecord {
    NextUser(me, patch, payload, UsernameChanged(me, Trim(usernameRef)), Trim(usernameRef))
  }

  /** The checks of `saveEdit` up to the PATCH, for signed-in user `me`:
      either the refusal it ends with, or the payload it assembles field by
      field, which a PATCH that resolves saves. */
  method PrepareProfileEdit(me: UserRecord, usernameRef: string, passwordRef: string, image: Option<string>,
                            exist: Response<UserRecord>)
    returns (refusal: Option<SaveOutcome<UserPatch>>, payload: UserPatch)
    ensures var verdict := ProfileEditOutcome(me, usernameRef, passwordRef, image, exist, true);
            && (refusal.Some? ==> refusal.value == verdict && !verdict.Saved?)
            && (refusal.None? ==> verdict == Saved(payload))
  {
    var next := Trim(usernameRef);
    payload := UserPatch(None, None, image, None);
    if next == "" {
      return Some(MissingInput), payload;
    }
    var changed := UsernameChanged(me, next);
    if changed {
      if exist.Threw? {
        return Some(RequestFailed), payload;
      }
      var duplicated := IsDuplicate(exist, next, Some(me.id));
      if duplicated {
        return Some(DuplicateName), payload;
      }
    }
    if changed {
      payload := payload.(username := Some(next));
    }
    if passwordRef != "" {
      payload := payload.(password := Some(passwordRef));
    }
    refusal := None;
  }

  // ---------------------------------------------------------------------
  // The screen
  // ---------------------------------------------------------------------

  /** Every state cell and ref of the screen; `session` is the stored
      `session_user`. */
  datatype ScreenState = ScreenState(
    me: Option<UserRecord>,
    session: Option<UserRecord>,
    showRegister: bool,
    auth: AuthForm,
    formKey: nat,
    editOpen: bool,
    editImage: Option<string>,
    saving: bool,
    editUsername: string,
    editPassword: string,
    editKey: nat)

  /** Between handlers: the sign-in inputs show what would be sent, a
      signed-in user is the stored one, and nothing is being saved. */
  predicate Settled(s: ScreenState) {
    InSync(s.auth) && (s.me.Some? ==> s.me == s.session) && !s.saving
  }

  class UserScreen {
    var me: Option<UserRecord>
    var session: Option<UserRecord>
    var showRegister: bool
    var usernameRef: string
    var passwordRef: string
    var usernameField: string
    var passwordField: string
    var formKey: nat
    var editOpen: bool
    var editImage: Option<string>
    var saving: bool
    var editUsernameRef: string
    var editPasswordRef: string
    var editKey: nat

    function Auth(): AuthForm
      reads this
    {
      AuthForm(usernameRef, passwordRef, usernameField, passwordField)
    }

    function State(): ScreenState
      reads this
    {
      ScreenState(me, session, showRegister, Auth(), formKey, editOpen, editImage, saving,
                  editUsernameRef, editPasswordRef, editKey)
    }

    ghost predicate Valid()
      reads this
    {
      Settled(State())
    }

    /** The screen as mounted, with `stored` the session a previous run left. */
    constructor (stored: Option<UserRecord>)
      ensures State() == ScreenState(None, stored, false, AuthForm("", "", "", ""), 0, false, None, false, "", "", 0)
      ensures Valid()
    {
      me := None;
      session := stored;
      showRegister := false;
      usernameRef := "";
      passwordRef := "";
      usernameField := "";
      passwordField := "";
      formKey := 0;
      editOpen := false;
      editImage := None;
      saving := false;
      editUsernameRef := "";
      editPasswordRef := "";
      editKey := 0;
    }

    /** `refresh`, run when the screen gains focus: the stored session
        becomes the signed-in user. */
    method Refresh()
      modifies this
      ensures State() == old(State()).(me := old(session))
      ensures old(Valid()) ==> Valid()
    {
      me := session;
    }

    /** Typing into the username or the password input. */
    method TypeAuthInput(intoUsername: bool, t: string)
      modifies this
      ensures State() == old(State()).(auth := TypeAuth(old(Auth()), intoUsername, t))
      ensures old(Valid()) ==> Valid()
    {
      if intoUsername {
        usernameRef := t;
        usernameField := t;
      } else {
        passwordRef := t;
        passwordField := t;
      }
    }

    /** The link that switches between sign-in and registration. */
    method ToggleRegister()
      modifies this
      ensures State() == old(State()).(showRegister := !old(showRegister))
      ensures old(Valid()) ==> Valid()
    {
      showRegister := !showRegister;
    }

    /** Empties the sign-in form, refs included, and bumps its key. */
    method ResetAuthForm()
      modifies this
      ensures State() == old(State()).(auth := ClearAuth(old(Auth())), formKey := old(formKey) + 1)
    {
      usernameRef := "";
      passwordRef := "";
      usernameField := "";
      passwordField := "";
      formKey := formKey + 1;
    }

    /** `handleLogin`, with `users` what the credential lookup resolved to:
        a non-empty list signs in as its first record, which is also
        stored, and empties the form; anything else changes nothing. */
    method HandleLogin(users: Response<UserRecord>) returns (sent: Option<Credentials>)
      modifies this
      ensures sent == LoginCredentials(old(usernameRef), old(passwordRef))
      ensures sent.Some? && users.Array? && |users.items| > 0 ==>
        State() == old(State()).(me := Some(users.items[0]), session := Some(users.items[0]),
                                 auth := ClearAuth(old(Auth())), formKey := old(formKey) + 1)
      ensures !(sent.Some? && users.Array? && |users.items| > 0) ==> State() == old(State())
      ensures old(Valid()) ==> Valid()
    {
      sent := LoginCredentials(usernameRef, passwordRef);
      if sent.None? {
        return;
      }
      if users.Array? && |users.items| > 0 {
        session := Some(users.items[0]);
        ResetAuthForm();
        me := session;
      }
    }

    /** `handleLogout`: the stored session is removed and the user signed
        out; leaving the profile view mounts the sign-in inputs anew, empty. */
    method HandleLogout()
      modifies this
      ensures old(me).Some? ==> State() == old(State()).(me := None, session := None, auth := ClearAuth(old(Auth())))
      ensures old(me).None? ==> State() == old(State()).(me := None, session := None)
      ensures old(Valid()) ==> Valid()
    {
      if me.Some? {
        usernameRef := "";
        passwordRef := "";
        usernameField := "";
        passwordField := "";
      }
      session := None;
      me := None;
    }

    /** `handleRegister`, given the lookup's response and whether the POST
        resolved: once the checks pass the new account is POSTed to "/users"
        (`sent`); a registration switches back to sign-in with an empty form. */
    method HandleRegister(existing: Response<UserRecord>, posted: bool)
      returns (o: SaveOutcome<UserForm>, sent: Option<Request<UserForm>>)
      modifies this
      ensures o == RegisterOutcome(old(usernameRef), old(passwordRef), existing, posted)
      ensures var v := RegisterOutcome(old(usernameRef), old(passwordRef), existing, true);
              sent == if v.Saved? then Some(Request("/users", v.body)) else None
      ensures o.Saved? ==>
        State() == old(State()).(showRegister := false, auth := ClearAuth(old(Auth())), formKey := old(formKey) + 1)
      ensures !o.Saved? ==> State() == old(State())
      ensures old(Valid()) ==> Valid()
    {
      var username := Trim(usernameRef);
      var password := passwordRef;
      if username == "" || password == "" {
        return MissingInput, None;
      }
      if existing.Threw? {
        return RequestFailed, None;
      }
      var isDuplicate := IsDuplicate(existing, username, None);
      if isDuplicate {
        return DuplicateName, None;
      }
      var account := UserForm(Some(username), password, "user", None);
      sent := Some(Request("/users", account));
      if !posted {
        return RequestFailed, sent;
      }
      o := Saved(account);
      showRegister := false;
      ResetAuthForm();
    }

    /** `openEdit`: without a signed-in user nothing happens; otherwise the
        editor opens on the stored name, an empty password and the stored
        image, its inputs mounted anew. */
    method OpenEdit()
      modifies this
      ensures old(me).None? ==> State() == old(State())
      ensures old(me).Some? ==>
        State() == old(State()).(editUsername := OrEmpty(old(me).value.username), editPassword := "",
                                 editImage := OrNull(old(me).value.image), editKey := old(editKey) + 1, editOpen := true)
      ensures old(Valid()) ==> Valid()
    {
      if me.None? {
        return;
      }
      editUsernameRef := OrEmpty(me.value.username);
      editPasswordRef := "";
      editImage := OrNull(me.value.image);
      editKey := editKey + 1;
      editOpen := true;
    }

    /** Typing into the editor's username or password input. */
    method TypeEditInput(intoUsername: bool, t: string)
      modifies this
      ensures intoUsername ==> State() == old(State()).(editUsername := t)
      ensures !intoUsername ==> State() == old(State()).(editPassword := t)
      ensures old(Valid()) ==> Valid()
    {
      if intoUsername {
        editUsernameRef := t;
      } else {
        editPasswordRef := t;
      }
    }

    /** `pickImage`: a refused permission or a cancelled pick changes
        nothing; otherwise the picked data, or null, becomes the image. */
    method PickImage(granted: bool, canceled: bool, base64: Option<string>)
      modifies this
      ensures granted && !canceled ==> State() == old(State()).(editImage := OrNull(base64))
      ensures !(granted && !canceled) ==> State() == old(State())
      ensures old(Valid()) ==> Valid()
    {
      if !granted {
        return;
      }
      if !canceled {
        editImage := OrNull(base64);
      }
    }

    /** `clearAvatar`. */
    method ClearAvatar()
      modifies this
      ensures State() == old(State()).(editImage := None)
      ensures old(Valid()) ==> Valid()
    {
      editImage := None;
    }

    method CloseEdit()
      modifies this
      ensures State() == old(State()).(editOpen := false)
      ensures old(Valid()) ==> Valid()
    {
      editOpen := false;
    }

    /** `setSaving(b)`. */
    method SetSaving(b: bool)
      modifies this
      ensures State() == old(State()).(saving := b)
    {
      saving := b;
    }

    /** The end of a saved edit: `u` is stored as the session and signed
        in, and the editor closes. */
    method CommitEdit(u: UserRecord)
      modifies this
      ensures State() == old(State()).(me := Some(u), session := Some(u), editOpen := false)
    {
      session := Some(u);
      me := session;
      editOpen := false;
    }

    /** `saveEdit`, given the lookup's response (read only when the name
        changed) and what the PATCH resolved to. Without a signed-in user
        nothing happens. Otherwise `saving` is raised and lowered again on
        every way out; once the checks pass the payload is PATCHed to the
        user's own path (`sent`); a saved edit stores and signs in as the
        updated record, or the merged fallback, and closes the editor. */
    method SaveEdit(exist: Response<UserRecord>, patch: PatchResponse)
      returns (o: Option<SaveOutcome<UserPatch>>, sent: Option<Request<UserPatch>>)
      modifies this
      ensures old(me).None? ==> o.None? && sent.None? && State() == old(State())
      ensures old(me).Some? ==>
        o == Some(ProfileEditOutcome(old(me).value, old(editUsernameRef), old(editPasswordRef), old(editImage),
                                     exist, !patch.PatchThrew?))
      ensures old(me).Some? ==>
        var v := ProfileEditOutcome(old(me).value, old(editUsernameRef), old(editPasswordRef), old(editImage), exist, true);
        sent == if v.Saved? then Some(Request("/users/" + IdString(old(me).value.id), v.body)) else None
      ensures old(me).Some? ==> !saving
      ensures o.Some? && o.value.Saved? ==>
        State() == old(State()).(me := Some(EditedUser(old(me).value, old(editUsernameRef), patch, o.value.body)),
                                 session := Some(EditedUser(old(me).value, old(editUsernameRef), patch, o.value.body)),
                                 editOpen := false, saving := false)
      ensures o.Some? && !o.value.Saved? ==> State() == old(State()).(saving := false)
      ensures old(Valid()) ==> Valid()
    {
      if me.None? {
        return None, None;
      }
      var current := me.value;
      var typedName := editUsernameRef;
      var typedPassword := editPasswordRef;
      var image := editImage;
      SetSaving(true);
      var refusal, payload := PrepareProfileEdit(current, typedName, typedPassword, image, exist);
      PatchOutcome(current, typedName, typedPassword, image, exist, !patch.PatchThrew?);
      if refusal.Some? {
        SetSaving(false);
        return refusal, None;
      }
      sent := Some(Request("/users/" + IdString(current.id), payload));
      if patch.PatchThrew? {
        // the `catch` clause, then the `finally` clause
        SetSaving(false);
        return Some(RequestFailed), sent;
      }
      var nextUser := EditedUser(current, typedName, patch, payload);
      CommitEdit(nextUser);
      // the `finally` clause
      SetSaving(false);
      o := Some(Saved(payload));
    }
  }
}
