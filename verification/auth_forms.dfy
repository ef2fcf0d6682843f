/**
 * The sign-in and registration forms of `src/components/auth/AuthForms.tsx`:
 * the two validators with their fixed messages, the clearing of a field's
 * error while the user types, the `FormData` a registration sends, and
 * the rule that an invalid form sends nothing.
 */
module AuthForms {
  import opened Wrappers
  import opened Http
  import opened Text

  datatype LoginForm = LoginForm(email: string, password: string)

  /** The registration form; a file input holds the name of its chosen file, if any. */
  datatype RegisterForm = RegisterForm(
    userName: string,
    email: string,
    fullName: string,
    password: string,
    confirmPassword: string,
    avatar: Option<string>,
    coverImage: Option<string>)

  /** The inputs of the two forms, by their `name` attribute. */
  datatype Field = UserName | Email | FullName | Password | ConfirmPassword | Avatar | CoverImage {
    /** The input's `name`, which is also its key in `errors` and in the `FormData`. */
    function Name(): string {
      match this
      case UserName => "userName"
      case Email => "email"
      case FullName => "fullName"
      case Password => "password"
      case ConfirmPassword => "confirmPassword"
      case Avatar => "avatar"
      case CoverImage => "coverImage"
    }
  }

  /** The `errors` object: messages by input. An entry `""` shows nothing. */
  type Errors = map<Field, string>

  const EmailRequired := "Email is required"
  const EmailInvalid := "Email is invalid"
  const PasswordRequired := "Password is required"
  const PasswordTooShort := "Password must be at least 6 characters"
  const PasswordsDiffer := "Passwords do not match"
  const UserNameRequired := "Username is required"
  const FullNameRequired := "Full Name is required"
  const AvatarRequired := "Avatar is required"
  /** The least password length a registration accepts, in UTF-16 code units. */
  const MinPasswordLength := 6

  /** The forms as first rendered: every text empty, no file chosen. */
  function EmptyLogin(): LoginForm { LoginForm("", "") }
  function EmptyRegister(): RegisterForm { RegisterForm("", "", "", "", "", None, None) }

  // ---------------------------------------------------------------------
  // The e-mail pattern
  // ---------------------------------------------------------------------

  /**
   * `/\S+@\S+\.\S+/` matches with its `@` at `i` and its `.` at `j`: a
   * non-space before the `@`, only non-spaces (at least one) between the
   * two, and a non-space after the `.`.
   */
  predicate EmailMatchAt(s: string, i: nat, j: nat) {
    0 < i && i + 1 < j && j + 1 < |s| &&
    s[i] == '@' && s[j] == '.' &&
    !IsSpace(s[i - 1]) && !IsSpace(s[j + 1]) &&
    forall k | i < k < j :: !IsSpace(s[k])
  }

  /** `/\S+@\S+\.\S+/.test(s)`: the pattern matches somewhere in `s`. */
  predicate LooksLikeEmail(s: string) {
    exists i: nat, j: nat | i < j < |s| :: EmailMatchAt(s, i, j)
  }

  /** A matching address is never blank, so it never draws the "required" message. */
  lemma EmailNotBlank(s: string)
    requires LooksLikeEmail(s)
    ensures !IsBlank(s) && Trim(s) != ""
  {
    var i: nat, j: nat :| i < j < |s| && EmailMatchAt(s, i, j);
    assert !IsSpace(s[i]);
    TrimEmptyIffBlank(s);
  }

  /** Worked cases of the pattern: a plain address matches; no text between `@` and `.`, or a space there, does not. */
  lemma EmailExamples()
    ensures LooksLikeEmail("a@b.c")
    ensures !LooksLikeEmail("a@.c")
    ensures !LooksLikeEmail("a@ b.c")
  {
    assert EmailMatchAt("a@b.c", 1, 3);
    var s := "a@ b.c";
    forall i: nat, j: nat | i < j < |s|
      ensures !EmailMatchAt(s, i, j)
    {
      if EmailMatchAt(s, i, j) {
        assert i == 1 && j == 4;
        assert IsSpace(s[2]);
      }
    }
  }

  // ---------------------------------------------------------------------
  // Validation
  // ---------------------------------------------------------------------

  /** The message for an e-mail field, if it needs one: required first, then invalid. */
  function EmailError(email: string): (m: Option<string>)
    ensures m == None <==> LooksLikeEmail(email)
    ensures IsBlank(email) ==> m == Some(EmailRequired)
    ensures !IsBlank(email) && !LooksLikeEmail(email) ==> m == Some(EmailInvalid)
  {
    if Trim(email) == "" then
      TrimEmptyIffBlank(email);
      if LooksLikeEmail(email) then EmailNotBlank(email); assert false; None else Some(EmailRequired)
    else if !LooksLikeEmail(email) then
      TrimEmptyIffBlank(email);
      Some(EmailInvalid)
    else None
  }

  /** Adds `key: message` when there is a message. */
  function Put(errors: Errors, key: Field, message: Option<string>): (r: Errors)
    ensures message.None? ==> r == errors
    ensures message.Some? ==> r == errors[key := message.value]
  {
    if message.Some? then errors[key := message.value] else errors
  }

  /** The sign-in validator's fresh error map. */
  function LoginErrors(f: LoginForm): (errors: Errors)
    ensures errors.Keys <= {Email, Password}
    ensures Email in errors <==> !LooksLikeEmail(f.email)
    ensures Email in errors ==> Some(errors[Email]) == EmailError(f.email)
    ensures Password in errors <==> f.password == ""
    ensures Password in errors ==> errors[Password] == PasswordRequired
  {
    var e := Put(map[], Email, EmailError(f.email));
    Put(e, Password, if f.password == "" then Some(PasswordRequired) else None)
  }

  /** The sign-in form is valid exactly when the address matches the pattern and a password is given. */
  lemma LoginValidIff(f: LoginForm)
    ensures |LoginErrors(f)| == 0 <==> LooksLikeEmail(f.email) && f.password != ""
  {
    var errors := LoginErrors(f);
    if |errors| == 0 {
      assert errors.Keys == {};
    } else {
      var k :| k in errors;
    }
  }

  /** The registration password's message, if it needs one: required first, then too short. */
  function PasswordError(password: string): (m: Option<string>)
    ensures password == "" ==> m == Some(PasswordRequired)
    ensures password != "" ==> (m.Some? <==> Utf16Length(password) < MinPasswordLength)
    ensures password != "" && m.Some? ==> m.value == PasswordTooShort
  {
    if password == "" then Some(PasswordRequired)
    else if Utf16Length(password) < MinPasswordLength then Some(PasswordTooShort)
    else None
  }

  /** The inputs the registration validator checks. */
  const RegisterChecked: set<Field> := {UserName, Email, Password, ConfirmPassword, FullName, Avatar}

  /** The registration validator's message for one input, if it sets one. */
  function RegisterMessage(f: RegisterForm, name: Field): Option<string> {
    match name
    case UserName => if Trim(f.userName) == "" then Some(UserNameRequired) else None
    case Email => EmailError(f.email)
    case Password => PasswordError(f.password)
    case ConfirmPassword => if f.password != f.confirmPassword then Some(PasswordsDiffer) else None
    case FullName => if Trim(f.fullName) == "" then Some(FullNameRequired) else None
    case Avatar => if f.avatar.None? then Some(AvatarRequired) else None
    case CoverImage => None
  }

  /** The registration validator's fresh error map: one entry per checked input that has a message. */
  function RegisterErrors(f: RegisterForm): (errors: Errors)
    ensures errors.Keys <= RegisterChecked
    ensures CoverImage !in errors
    ensures UserName in errors <==> IsBlank(f.userName)
    ensures UserName in errors ==> errors[UserName] == UserNameRequired
    ensures Email in errors <==> !LooksLikeEmail(f.email)
    ensures Email in errors ==> Some(errors[Email]) == EmailError(f.email)
    ensures Password in errors <==> PasswordError(f.password).Some?
    ensures Password in errors ==> Some(errors[Password]) == PasswordError(f.password)
    ensures ConfirmPassword in errors <==> f.password != f.confirmPassword
    ensures ConfirmPassword in errors ==> errors[ConfirmPassword] == PasswordsDiffer
    ensures FullName in errors <==> IsBlank(f.fullName)
    ensures FullName in errors ==> errors[FullName] == FullNameRequired
    ensures Avatar in errors <==> f.avatar.None?
    ensures Avatar in errors ==> errors[Avatar] == AvatarRequired
  {
    TrimEmptyIffBlank(f.userName);
    TrimEmptyIffBlank(f.fullName);
    map name | name in RegisterChecked && RegisterMessage(f, name).Some? :: RegisterMessage(f, name).value
  }

  /**
   * A registration is valid exactly when the user name and full name are
   * not blank, the address matches, the password is at least six long,
   * the confirmation equals it and an avatar is chosen; the cover image
   * plays no part.
   */
  lemma RegisterValidIff(f: RegisterForm)
    ensures |RegisterErrors(f)| == 0 <==>
      !IsBlank(f.userName) && LooksLikeEmail(f.email) &&
      Utf16Length(f.password) >= MinPasswordLength && f.password == f.confirmPassword &&
      !IsBlank(f.fullName) && f.avatar.Some?
  {
    var errors := RegisterErrors(f);
    if |errors| == 0 {
      assert errors.Keys == {};
    } else {
      var k :| k in errors;
    }
  }

  /** Two registrations that differ only in the cover image are judged alike. */
  lemma CoverImageIrrelevant(f: RegisterForm, cover: Option<string>)
    ensures RegisterErrors(f.(coverImage := cover)) == RegisterErrors(f)
  {
    var g := f.(coverImage := cover);
    assert g.userName == f.userName && g.email == f.email && g.password == f.password;
    assert g.confirmPassword == f.confirmPassword && g.fullName == f.fullName && g.avatar == f.avatar;
    forall name: Field
      ensures RegisterMessage(g, name) == RegisterMessage(f, name)
    {
    }
  }

  // ---------------------------------------------------------------------
  // Typing clears a field's error
  // ---------------------------------------------------------------------

  /** Whether an input shows an error: a non-empty message under its name. */
  predicate Shows(errors: Errors, name: Field) {
    name in errors && errors[name] != ""
  }

  /** Typing in input `name`: a shown error there is blanked, as `""`, and nothing else changes. */
  function ClearError(errors: Errors, name: Field): (r: Errors)
    ensures r.Keys == errors.Keys
    ensures !Shows(r, name)
    ensures forall k | k in errors && k != name :: r[k] == errors[k]
  {
    if name in errors && errors[name] != "" then errors[name := ""] else errors
  }

  /** Clearing one input's error keeps exactly the other inputs' shown errors. */
  lemma ClearErrorShows(errors: Errors, name: Field, other: Field)
    ensures Shows(ClearError(errors, name), other) <==> other != name && Shows(errors, other)
  {
  }

  /**
   * A keystroke in the sign-in form: the e-mail or password input takes
   * the value and only its own error is cleared; the form keeps no other
   * input.
   */
  function ChangeLogin(f: LoginForm, errors: Errors, input: Field, value: string): (r: (LoginForm, Errors))
    ensures r.1 == ClearError(errors, input)
    ensures input == Email ==> r.0 == f.(email := value)
    ensures input == Password ==> r.0 == f.(password := value)
    ensures input != Email && input != Password ==> r.0 == f
  {
    var form := if input == Email then f.(email := value) else if input == Password then f.(password := value) else f;
    (form, ClearError(errors, input))
  }

  /** A value typed or a file picked in the registration form. */
  datatype Entry = Typed(text: string) | Picked(file: Option<string>)

  /**
   * A change in the registration form: a text input takes the typed value,
   * a file input its first chosen file; only that input's error is cleared.
   * A typed value for a file input, or a file for a text input, cannot
   * come from the page and leaves the form as it was.
   */
  function ChangeRegister(f: RegisterForm, errors: Errors, input: Field, entry: Entry): (r: (RegisterForm, Errors))
    ensures r.1 == ClearError(errors, input)
    ensures entry.Typed? && input == UserName ==> r.0 == f.(userName := entry.text)
    ensures entry.Typed? && input == Email ==> r.0 == f.(email := entry.text)
    ensures entry.Typed? && input == FullName ==> r.0 == f.(fullName := entry.text)
    ensures entry.Typed? && input == Password ==> r.0 == f.(password := entry.text)
    ensures entry.Typed? && input == ConfirmPassword ==> r.0 == f.(confirmPassword := entry.text)
    ensures entry.Picked? && input == Avatar ==> r.0 == f.(avatar := entry.file)
    ensures entry.Picked? && input == CoverImage ==> r.0 == f.(coverImage := entry.file)
    ensures entry.Typed? && (input == Avatar || input == CoverImage) ==> r.0 == f
    ensures entry.Picked? && input != Avatar && input != CoverImage ==> r.0 == f
  {
    var form :=
      match entry
      case Typed(t) =>
        (match input
         case UserName => f.(userName := t)
         case Email => f.(email := t)
         case FullName => f.(fullName := t)
         case Password => f.(password := t)
         case ConfirmPassword => f.(confirmPassword := t)
         case _ => f)
      case Picked(file) =>
        (match input
         case Avatar => f.(avatar := file)
         case CoverImage => f.(coverImage := file)
         case _ => f);
    (form, ClearError(errors, input))
  }

  // ---------------------------------------------------------------------
  // Submission
  // ---------------------------------------------------------------------

  /** What a submit does: the error map it leaves, and the request it makes, if any. */
  datatype Submit<+T> = Submit(errors: Errors, request: Option<T>)

  /** Submitting the sign-in form: the credentials go out only when the fresh error map is empty. */
  function SubmitLogin(f: LoginForm): (s: Submit<(string, string)>)
    ensures s.errors == LoginErrors(f)
    ensures s.request.Some? <==> |s.errors| == 0
    ensures s.request.Some? ==> s.request.value == (f.email, f.password)
  {
    var errors := LoginErrors(f);
    Submit(errors, if |errors| == 0 then Some((f.email, f.password)) else None)
  }

  /** After a sign-in attempt: home on success, nothing on failure (the session has shown the error). */
  function AfterLogin(raised: Option<ClientError>): (effects: seq<Effect>)
    ensures raised.None? <==> effects == [Navigate("/")]
    ensures raised.Some? ==> effects == []
  {
    if raised.None? then [Navigate("/")] else []
  }

  /**
   * The registration's `FormData`: the five text fields in form order,
   * then the avatar and the cover image, each only when chosen.
   */
  function RegisterFormData(f: RegisterForm): (fd: FormData)
    ensures 5 <= |fd| <= 7
    ensures Names(fd[..5]) == [UserName.Name(), Email.Name(), Password.Name(), ConfirmPassword.Name(), FullName.Name()]
    ensures fd[0].1 == Text(f.userName) && fd[1].1 == Text(f.email) && fd[2].1 == Text(f.password)
    ensures fd[3].1 == Text(f.confirmPassword) && fd[4].1 == Text(f.fullName)
    ensures |fd| == 5 + (if f.avatar.Some? then 1 else 0) + (if f.coverImage.Some? then 1 else 0)
    ensures f.avatar.Some? ==> fd[5] == (Avatar.Name(), File(f.avatar.value))
    ensures f.coverImage.Some? ==> fd[|fd| - 1] == (CoverImage.Name(), File(f.coverImage.value))
  {
    [(UserName.Name(), Text(f.userName)), (Email.Name(), Text(f.email)), (Password.Name(), Text(f.password)),
     (ConfirmPassword.Name(), Text(f.confirmPassword)), (FullName.Name(), Text(f.fullName))]
    + (if f.avatar.Some? then [(Avatar.Name(), File(f.avatar.value))] else [])
    + (if f.coverImage.Some? then [(CoverImage.Name(), File(f.coverImage.value))] else [])
  }

  /** The names a form's entries are sent under, in order. */
  function Names(fd: FormData): seq<string> {
    seq(|fd|, k requires 0 <= k < |fd| => fd[k].0)
  }

  /** Every field the form sends is sent once, so the server cannot see a duplicate. */
  lemma FormDataNamesDistinct(f: RegisterForm)
    ensures forall a, b | 0 <= a < b < |RegisterFormData(f)| :: Names(RegisterFormData(f))[a] != Names(RegisterFormData(f))[b]
  {
  }

  /**
   * Submitting the registration form: the `FormData` goes out only when
   * the fresh error map is empty, and then it always carries the avatar.
   */
  function SubmitRegister(f: RegisterForm): (s: Submit<FormData>)
    ensures s.errors == RegisterErrors(f)
    ensures s.request.Some? <==> |s.errors| == 0
    ensures s.request.Some? ==> s.request.value == RegisterFormData(f) && |s.request.value| >= 6
  {
    var errors := RegisterErrors(f);
    if |errors| == 0 then
      assert Avatar !in errors;
      Submit(errors, Some(RegisterFormData(f)))
    else Submit(errors, None)
  }
}
