/** The sign-in and sign-up page: the password checks and the stored user record. */
module Auth {
  import opened Options
  import opened Storage

  datatype SignInData = SignInData(email: string, password: string)

  datatype SignUpData = SignUpData(
    name: string,
    email: string,
    phone: string,
    password: string,
    confirmPassword: string)

  /** The JSON object stored under the user key; neither kind has a password field. */
  datatype UserRecord =
    | SignedIn(email: string, signedInAt: string)
    | SignedUp(name: string, email: string, phone: string, signedUpAt: string)

  const UserKey := "kkj-user"
  const MinPasswordLength := 6
  const PasswordMismatch := "Passwords don't match"
  const PasswordTooShort := "Password must be at least 6 characters"

  /** The sign-up checks, in order: the two passwords agree, then the password is long enough. */
  datatype PasswordCheck = PasswordOk | PasswordRejected(message: string)

  function CheckSignUp(d: SignUpData): PasswordCheck
  {
    if d.password != d.confirmPassword then PasswordRejected(PasswordMismatch)
    else if |d.password| < MinPasswordLength then PasswordRejected(PasswordTooShort)
    else PasswordOk
  }

  /** Sign-up passes exactly when the passwords agree and have at least six characters. */
  lemma SignUpAcceptedIff(d: SignUpData)
    ensures CheckSignUp(d) == PasswordOk <==> d.password == d.confirmPassword && |d.password| >= 6
    ensures CheckSignUp(d) != PasswordOk ==> CheckSignUp(d).message in {PasswordMismatch, PasswordTooShort}
  {
  }

  /** Mismatch is checked first: mismatched passwords report the mismatch whatever their length. */
  lemma MismatchReportedFirst(d: SignUpData)
    requires d.password != d.confirmPassword
    ensures CheckSignUp(d) == PasswordRejected(PasswordMismatch)
  {
  }

  /** Matching passwords under six characters report the length. */
  lemma ShortPasswordRejected(d: SignUpData)
    requires d.password == d.confirmPassword && |d.password| < 6
    ensures CheckSignUp(d) == PasswordRejected(PasswordTooShort)
  {
  }

  /** The boundary: five matching characters fail, six pass, and a short mismatch reports the mismatch. */
  lemma PasswordBoundary()
    ensures CheckSignUp(SignUpData("Asha", "a@b.in", "9876543210", "abcde", "abcde")) == PasswordRejected(PasswordTooShort)
    ensures CheckSignUp(SignUpData("Asha", "a@b.in", "9876543210", "abcdef", "abcdef")) == PasswordOk
    ensures CheckSignUp(SignUpData("Asha", "a@b.in", "9876543210", "abc", "abd")) == PasswordRejected(PasswordMismatch)
  {
    assert "abc" != "abd" by { assert "abc"[2] != "abd"[2]; }
  }

  /** The record a sign-in stores: the email and the time. */
  function SignInRecord(d: SignInData, now: string): UserRecord
  {
    SignedIn(d.email, now)
  }

  /** The record a sign-up stores: name, email, phone and the time. */
  function SignUpRecord(d: SignUpData, now: string): UserRecord
  {
    SignedUp(d.name, d.email, d.phone, now)
  }

  /** No stored record depends on a password: changing the passwords changes nothing stored. */
  lemma RecordsIgnorePasswords(i: SignInData, u: SignUpData, p: string, q: string, now: string)
    ensures SignInRecord(i.(password := p), now) == SignInRecord(i, now)
    ensures SignUpRecord(u.(password := p, confirmPassword := q), now) == SignUpRecord(u, now)
  {
  }

  /** The browser's `required` checks on each form. */
  predicate SignInFilled(d: SignInData)
  {
    d.email != "" && d.password != ""
  }

  predicate SignUpFilled(d: SignUpData)
  {
    d.name != "" && d.email != "" && d.phone != "" && d.password != "" && d.confirmPassword != ""
  }

  /** A submission waiting for its timer, with the form values its closure captured. */
  datatype PendingAuth = PendingSignIn(signIn: SignInData) | PendingSignUp(signUp: SignUpData)

  /** What pressing "Create Account" leads to. */
  datatype SignUpOutcome = Blocked | Rejected(toast: string) | Started

  class AuthPage {
    var signInData: SignInData
    var signUpData: SignUpData
    var isLoading: bool
    var pending: Option<PendingAuth>
    const users: KeyValueStore<UserRecord>

    /** The loading flag is set exactly while a submission waits; it disables both buttons. */
    ghost predicate Valid()
      reads this
    {
      isLoading <==> pending.Some?
    }

    constructor(users: KeyValueStore<UserRecord>)
      ensures Valid() && !isLoading
      ensures signInData == SignInData("", "")
      ensures signUpData == SignUpData("", "", "", "", "")
      ensures this.users == users
    {
      signInData := SignInData("", "");
      signUpData := SignUpData("", "", "", "", "");
      isLoading := false;
      pending := None;
      this.users := users;
    }

    /**
     * An input's `onChange` on the sign-in form. The handler stores the spread copy it
     * builds; the copy is taken here as the new record, whichever fields it differs in.
     */
    method EditSignIn(d: SignInData)
      modifies this
      ensures signInData == d && signUpData == old(signUpData)
      ensures isLoading == old(isLoading) && pending == old(pending)
    {
      signInData := d;
    }

    /** The same for the sign-up form. */
    method EditSignUp(d: SignUpData)
      modifies this
      ensures signUpData == d && signInData == old(signInData)
      ensures isLoading == old(isLoading) && pending == old(pending)
    {
      signUpData := d;
    }

    /** `handleSignIn` up to its timer: no credential check, only the flag and the captured form. */
    method SubmitSignIn() returns (started: bool)
      requires Valid()
      modifies this
      ensures Valid()
      ensures started <==> !old(isLoading) && SignInFilled(old(signInData))
      ensures started ==> isLoading && pending == Some(PendingSignIn(old(signInData)))
      ensures !started ==> isLoading == old(isLoading) && pending == old(pending)
      ensures signInData == old(signInData) && signUpData == old(signUpData)
    {
      started := !isLoading && SignInFilled(signInData);
      if started {
        isLoading := true;
        pending := Some(PendingSignIn(signInData));
      }
    }

    /**
     * `handleSignUp` up to its timer. The checks run before the flag is set,
     * so a rejected sign-up leaves the flag alone, and this step stores nothing.
     */
    method SubmitSignUp() returns (outcome: SignUpOutcome)
      requires Valid()
      modifies this
      ensures Valid()
      ensures old(isLoading) || !SignUpFilled(old(signUpData)) ==> outcome == Blocked
      ensures !old(isLoading) && SignUpFilled(old(signUpData)) ==>
        outcome == (if CheckSignUp(old(signUpData)).PasswordOk? then Started
                    else Rejected(CheckSignUp(old(signUpData)).message))
      ensures outcome == Started ==> isLoading && pending == Some(PendingSignUp(old(signUpData)))
      ensures outcome != Started ==> isLoading == old(isLoading) && pending == old(pending)
      ensures signInData == old(signInData) && signUpData == old(signUpData)
    {
      if isLoading || !SignUpFilled(signUpData) {
        return Blocked;
      }
      match CheckSignUp(signUpData)
      case PasswordRejected(message) =>
        outcome := Rejected(message);
      case PasswordOk =>
        isLoading := true;
        pending := Some(PendingSignUp(signUpData));
        outcome := Started;
    }

    /** The timer fires: the record built from the captured form replaces the stored user; the flag drops. */
    method CompleteSubmission(now: string)
      requires Valid() && pending.Some?
      modifies this, users
      ensures Valid() && !isLoading
      ensures users.entries == old(users.entries)[UserKey :=
        match old(pending).value
        case PendingSignIn(d) => SignInRecord(d, now)
        case PendingSignUp(d) => SignUpRecord(d, now)]
      ensures signInData == old(signInData) && signUpData == old(signUpData)
    {
      var record := match pending.value
        case PendingSignIn(d) => SignInRecord(d, now)
        case PendingSignUp(d) => SignUpRecord(d, now);
      users.SetItem(UserKey, record);
      isLoading := false;
      pending := None;
    }
  }

  /** A whole sign-up from an idle page: a user is stored exactly when the form is filled and the checks pass. */
  method SignUp(page: AuthPage, now: string) returns (outcome: SignUpOutcome)
    requires page.Valid() && !page.isLoading
    modifies page, page.users
    ensures page.Valid() && !page.isLoading
    ensures outcome == Started <==> SignUpFilled(old(page.signUpData)) && CheckSignUp(old(page.signUpData)) == PasswordOk
    ensures outcome == Started ==>
      page.users.GetItem(UserKey) == Some(SignedUp(old(page.signUpData).name, old(page.signUpData).email, old(page.signUpData).phone, now))
    ensures outcome != Started ==> page.users.entries == old(page.users.entries)
  {
    outcome := page.SubmitSignUp();
    if outcome == Started {
      page.CompleteSubmission(now);
    }
  }
}
