/**
 * The sign-in / sign-up form: the checks a sign-up must pass before an account is
 * requested, the profile row built for a new account, the alert shown for a failed
 * sign-in, and the form reset after a successful sign-up.
 */
module Auth {
  import opened Common
  import opened JsText

  /** The role select only offers these two values, so the role is never empty. */
  datatype Role = Worker | Employer

  datatype View = SignInView | SignUpView

  /** The sign-up fields as typed. */
  datatype SignUpForm = SignUpForm(
    email: string,
    password: string,
    fullName: string,
    age: string,
    phoneNumber: string,
    location: string,
    role: Role,
    skills: string,
    experienceYears: string,
    bio: string)

  /** The form after a successful sign-up: every text field blank, the role kept. */
  function ClearedForm(role: Role): SignUpForm {
    SignUpForm("", "", "", "", "", "", role, "", "", "")
  }

  const FillRequired := "Please fill in all required fields"
  const WorkerFieldsRequired := "Skills and Years of Experience are required for workers"

  /** The checks of `handleSignUp`, in order: the four text fields must be non-empty as typed,
      then a worker needs skills and experience that are not blank. `None` means the sign-up
      goes ahead. */
  function SignUpError(f: SignUpForm): (r: Option<string>)
    ensures r.None? <==>
      && f.fullName != "" && f.age != "" && f.phoneNumber != "" && f.location != ""
      && (f.role == Worker ==> !AllSpace(f.skills) && !AllSpace(f.experienceYears))
    ensures r == Some(FillRequired) <==> (f.fullName == "" || f.age == "" || f.phoneNumber == "" || f.location == "")
    ensures r.Some? ==> r.value == FillRequired || r.value == WorkerFieldsRequired
  {
    TrimSpec(f.skills);
    TrimSpec(f.experienceYears);
    if f.fullName == "" || f.age == "" || f.phoneNumber == "" || f.location == "" then Some(FillRequired)
    else if f.role == Worker && (Trim(f.skills) == "" || Trim(f.experienceYears) == "") then Some(WorkerFieldsRequired)
    else None
  }

  /** `filter(s => s)` over a list of strings. */
  function NonEmptyPieces(ps: seq<string>): (r: seq<string>)
    ensures |r| <= |ps|
    ensures forall k :: 0 <= k < |r| ==> r[k] != "" && r[k] in ps
    ensures (forall k :: 0 <= k < |ps| ==> ps[k] != "") ==> r == ps
  {
    if ps == [] then []
    else
      var rest := NonEmptyPieces(ps[1..]);
      if ps[0] == "" then rest
      else
        assert [ps[0]] + ps[1..] == ps;
        [ps[0]] + rest
  }

  /** The filter keeps exactly the non-empty pieces. */
  lemma {:induction false} NonEmptyPiecesMembers(ps: seq<string>)
    ensures forall s :: s in NonEmptyPieces(ps) <==> s in ps && s != ""
    decreases |ps|
  {
    if ps != [] {
      NonEmptyPiecesMembers(ps[1..]);
      assert forall s :: s in ps <==> s == ps[0] || s in ps[1..];
    }
  }

  /** The filter distributes over concatenation, so the kept pieces stay in their order. */
  lemma {:induction false} NonEmptyPiecesConcat(a: seq<string>, b: seq<string>)
    ensures NonEmptyPieces(a + b) == NonEmptyPieces(a) + NonEmptyPieces(b)
    decreases |a|
  {
    if a == [] {
      assert a + b == b;
    } else {
      assert (a + b)[0] == a[0];
      assert (a + b)[1..] == a[1..] + b;
      NonEmptyPiecesConcat(a[1..], b);
    }
  }

  /** The skills stored for a worker: the comma-separated pieces, trimmed, without empty ones. */
  function ProfileSkills(text: string): seq<string> {
    NonEmptyPieces(TrimmedParts(text, ','))
  }

  /** Every stored skill is non-empty, has no whitespace at either end and holds no comma. */
  lemma ProfileSkillsClean(text: string)
    ensures forall k :: 0 <= k < |ProfileSkills(text)| ==>
      var s := ProfileSkills(text)[k];
      s != "" && Trim(s) == s && ',' !in s
  {
    var trimmed := TrimmedParts(text, ',');
    var skills := ProfileSkills(text);
    forall k | 0 <= k < |skills|
      ensures var s := skills[k]; s != "" && Trim(s) == s && ',' !in s
    {
      var j :| 0 <= j < |trimmed| && trimmed[j] == skills[k];
      TrimmedPieceClean(text, j);
    }
  }

  /** Each trimmed piece of a comma-separated text is trimmed and comma-free. */
  lemma TrimmedPieceClean(text: string, j: int)
    requires 0 <= j < |TrimmedParts(text, ',')|
    ensures var t := TrimmedParts(text, ',')[j]; Trim(t) == t && ',' !in t
  {
    var part := Split(text, ',')[j];
    TrimIdempotent(part);
    SplitPiecesLackSep(text, ',');
    TrimKeepsOut(part, ',');
  }

  /** Typing a list of clean skills separated by commas stores exactly that list. */
  lemma {:induction false} ProfileSkillsOfJoin(skills: seq<string>)
    requires |skills| >= 1
    requires forall k :: 0 <= k < |skills| ==> skills[k] != "" && Trim(skills[k]) == skills[k] && ',' !in skills[k]
    ensures ProfileSkills(Join(skills, ',')) == skills
  {
    SplitJoin(skills, ',');
    var trimmed := TrimmedParts(Join(skills, ','), ',');
    assert trimmed == skills;
  }

  /** A worker's skills text made only of commas passes the "skills required" check and
      still stores no skill. */
  lemma CommasOnlySkillsStoreNothing()
    ensures !AllSpace(",") && ProfileSkills(",") == []
  {
    assert Split(",", ',') == ["", ""] by {
      assert ","[1..] == "";
    }
    assert TrimmedParts(",", ',') == ["", ""];
  }

  /** The `users` row written for a new account. */
  datatype Profile = Profile(
    id: string,
    email: string,
    fullName: string,
    age: Option<int>,
    phoneNumber: string,
    location: string,
    role: Role,
    skills: seq<string>,
    experienceYears: int,
    bio: string)

  /** `profileToSave`: skills and experience only for a worker (`parseInt(...) || 0`, so NaN and
      zero both give 0); `age` is `parseInt` of the text (`None` for NaN). */
  function ProfileOf(f: SignUpForm, userId: string): (p: Profile)
    ensures p.id == userId && p.email == f.email && p.fullName == f.fullName && p.role == f.role
    ensures p.phoneNumber == f.phoneNumber && p.location == f.location && p.bio == f.bio
    ensures p.age == ParseIntAuto(f.age)
    ensures f.role == Employer ==> p.skills == [] && p.experienceYears == 0
    ensures f.role == Worker ==> p.skills == ProfileSkills(f.skills)
    ensures f.role == Worker ==> p.experienceYears == ParseIntAuto(f.experienceYears).GetOr(0)
  {
    Profile(
      userId, f.email, f.fullName, ParseIntAuto(f.age), f.phoneNumber, f.location, f.role,
      if f.role == Worker then ProfileSkills(f.skills) else [],
      if f.role == Worker then ParseIntAuto(f.experienceYears).GetOr(0) else 0,
      f.bio)
  }

  /** A worker who typed a plain number of years gets exactly that number, and whatever an
      employer typed in the worker-only fields is not stored. */
  lemma ProfileExperience(f: SignUpForm, userId: string)
    ensures f.role == Worker && IsDigitString(f.experienceYears) ==>
      ProfileOf(f, userId).experienceYears == DigitsValue(f.experienceYears)
    ensures f.role == Employer ==>
      ProfileOf(f, userId) == ProfileOf(f.(skills := "", experienceYears := ""), userId)
  {
    if f.role == Worker && IsDigitString(f.experienceYears) {
      ParseIntAutoDigits(f.experienceYears);
    }
  }

  const WaitMessage := "Please wait a moment and try again."
  const BadCredentials := "Invalid email or password. Please check your credentials and try again."
  const Unconfirmed := "Please check your email and click the confirmation link before signing in."

  /** `phrase` occurs somewhere in `message`. */
  ghost predicate Mentions(message: string, phrase: string) {
    exists i :: OccursAt(message, phrase, i)
  }

  /** The alert for a failed sign-in: the first case-sensitive phrase that occurs in the message
      decides, rate limiting before bad credentials before an unconfirmed address, and an
      unrecognised message is shown as it is. */
  function SignInAlert(message: string): (r: string)
    ensures Mentions(message, "rate limit") || Mentions(message, "too many requests") ==> r == WaitMessage
    ensures (!Mentions(message, "rate limit") && !Mentions(message, "too many requests")
      && Mentions(message, "Invalid login credentials")) ==> r == BadCredentials
    ensures (!Mentions(message, "rate limit") && !Mentions(message, "too many requests")
      && !Mentions(message, "Invalid login credentials") && Mentions(message, "Email not confirmed")) ==> r == Unconfirmed
    ensures (!Mentions(message, "rate limit") && !Mentions(message, "too many requests")
      && !Mentions(message, "Invalid login credentials") && !Mentions(message, "Email not confirmed")) ==> r == message
  {
    IncludesIff(message, "rate limit");
    IncludesIff(message, "too many requests");
    IncludesIff(message, "Invalid login credentials");
    IncludesIff(message, "Email not confirmed");
    if Includes(message, "rate limit") || Includes(message, "too many requests") then WaitMessage
    else if Includes(message, "Invalid login credentials") then BadCredentials
    else if Includes(message, "Email not confirmed") then Unconfirmed
    else message
  }

  /** The outcome of the account request: an error, no user, or a new user id. */
  datatype SignUpResponse = AuthError(message: string) | NoUser | UserCreated(userId: string)

  const CreatedAlert := "Account created successfully! Please check your email and click the confirmation link to complete your registration."
  const SavedLocallyAlert := "Account created! Profile data saved locally. Please check your email and click the confirmation link to complete your registration."

  /** The `users` table, keyed by id; `upsert` replaces the row with the same id. */
  class UsersTable {
    var rows: map<string, Profile>

    constructor ()
      ensures rows == map[]
    {
      rows := map[];
    }

    method Upsert(p: Profile, fails: bool) returns (ok: bool)
      modifies this
      ensures ok == !fails
      ensures rows == if fails then old(rows) else old(rows)[p.id := p]
    {
      if fails {
        return false;
      }
      rows := rows[p.id := p];
      ok := true;
    }
  }

  class AuthForm {
    const users: UsersTable
    var view: View
    var email: string
    var password: string
    var fullName: string
    var age: string
    var phoneNumber: string
    var location: string
    var role: Role
    var skills: string
    var experienceYears: string
    var bio: string
    /** The `pendingUserProfile` entry kept in local storage when the profile write fails. */
    var pendingProfile: Option<Profile>

    constructor (users: UsersTable)
      ensures this.users == users && view == SignInView && Form() == ClearedForm(Worker) && pendingProfile == None
    {
      this.users := users;
      view := SignInView;
      email, password, fullName, age, phoneNumber, location := "", "", "", "", "", "";
      role := Worker;
      skills, experienceYears, bio := "", "", "";
      pendingProfile := None;
    }

    function Form(): SignUpForm
      reads this
    {
      SignUpForm(email, password, fullName, age, phoneNumber, location, role, skills, experienceYears, bio)
    }

    /** `handleSignIn`: nothing on the form changes; a failure is reported with `SignInAlert`. */
    method SignIn(error: Option<string>) returns (alert: Option<string>)
      ensures error.None? ==> alert == None
      ensures error.Some? ==> alert == Some(SignInAlert(error.value))
    {
      if error.Some? {
        alert := Some(SignInAlert(error.value));
      } else {
        alert := None;
      }
    }

    /** `handleSignUp`: a form that fails the checks, an account error or a response without a
        user leaves everything as it was; a new user gets a profile row (or, when that write
        fails, a locally kept copy), and the form is cleared and switched to sign-in. */
    method SignUp(response: SignUpResponse, profileFails: bool) returns (alert: Option<string>)
      modifies this, users
      ensures SignUpError(old(Form())).Some? ==> alert == SignUpError(old(Form())) && unchanged(this, users)
      ensures SignUpError(old(Form())).None? && response.AuthError? ==> alert == Some(response.message) && unchanged(this, users)
      ensures SignUpError(old(Form())).None? && response.NoUser? ==> alert == None && unchanged(this, users)
      ensures SignUpError(old(Form())).None? && response.UserCreated? ==>
        var p := ProfileOf(old(Form()), response.userId);
        && users.rows == (if profileFails then old(users.rows) else old(users.rows)[p.id := p])
        && pendingProfile == (if profileFails then Some(p) else old(pendingProfile))
        && alert == Some(if profileFails then SavedLocallyAlert else CreatedAlert)
        && Form() == ClearedForm(old(role)) && view == SignInView
    {
      var error := SignUpError(Form());
      if error.Some? {
        return error;
      }
      match response
      case AuthError(message) =>
        alert := Some(message);
      case NoUser =>
        alert := None;
      case UserCreated(userId) =>
        alert := CreateAccount(ProfileOf(Form(), userId), profileFails);
    }

    /** The part of `handleSignUp` after the account exists. */
    method CreateAccount(p: Profile, profileFails: bool) returns (alert: Option<string>)
      modifies this, users
      ensures users.rows == (if profileFails then old(users.rows) else old(users.rows)[p.id := p])
      ensures pendingProfile == (if profileFails then Some(p) else old(pendingProfile))
      ensures alert == Some(if profileFails then SavedLocallyAlert else CreatedAlert)
      ensures Form() == ClearedForm(old(role)) && view == SignInView
    {
      alert := SaveProfile(p, profileFails);
      ClearForm();
    }

    /** The profile write, falling back to the locally kept copy when it fails. */
    method SaveProfile(p: Profile, profileFails: bool) returns (alert: Option<string>)
      modifies users, this`pendingProfile
      ensures users.rows == (if profileFails then old(users.rows) else old(users.rows)[p.id := p])
      ensures pendingProfile == (if profileFails then Some(p) else old(pendingProfile))
      ensures alert == Some(if profileFails then SavedLocallyAlert else CreatedAlert)
    {
      var ok := users.Upsert(p, profileFails);
      if ok {
        alert := Some(CreatedAlert);
      } else {
        pendingProfile := Some(p);
        alert := Some(SavedLocallyAlert);
      }
    }

    /** Blanks every text field, keeps the role and switches to the sign-in view. */
    method ClearForm()
      modifies this`email, this`password, this`fullName, this`age, this`phoneNumber, this`location
      modifies this`skills, this`experienceYears, this`bio, this`view
      ensures email == "" && password == "" && fullName == "" && age == "" && phoneNumber == "" && location == ""
      ensures skills == "" && experienceYears == "" && bio == ""
      ensures view == SignInView
    {
      email := "";
      password := "";
      fullName := "";
      age := "";
      phoneNumber := "";
      location := "";
      skills := "";
      experienceYears := "";
      bio := "";
      view := SignInView;
    }
  }
}
