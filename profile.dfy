/** The profile page (frontend/src/components/pages/Profile.tsx): the name and email
    validators, its own copy of the password strength score, the conditions that enable
    the two submit buttons, and the guards of the two handlers.  The user comes from the
    session and is a constructor argument; the e-mail availability request is a
    parameter; logout, account deletion and the tabs are not modelled. */
module Profile {
  import opened Wrappers
  import opened JsStrings
  import Register

  // ---------------------------------------------------------------------------
  // Validators
  // ---------------------------------------------------------------------------

  /** A character of the class `[^\s@]`. */
  predicate Plain(c: char) {
    !IsWhite(c) && c != '@'
  }

  predicate PlainSpan(e: string, lo: nat, hi: nat)
    requires lo <= hi <= |e|
  {
    forall k :: lo <= k < hi ==> Plain(e[k])
  }

  /** `/^[^\s@]+@[^\s@]+\.[^\s@]+$/.test(email)`: the string splits as a non-empty run of
      plain characters, `@`, a non-empty run, a dot, and a non-empty run. */
  predicate IsValidEmail(email: string) {
    exists at, dot ::
      && 0 < at && at + 1 < dot && dot + 1 < |email|
      && email[at] == '@' && email[dot] == '.'
      && PlainSpan(email, 0, at) && PlainSpan(email, at + 1, dot) && PlainSpan(email, dot + 1, |email|)
  }

  /** The same set described by what it contains: no white space, exactly one `@` with
      something before it, and after the `@` a dot that is neither its first nor its last
      character. */
  predicate EmailShape(email: string) {
    && (forall k :: 0 <= k < |email| ==> !IsWhite(email[k]))
    && exists at ::
      && 0 < at < |email| && email[at] == '@'
      && (forall k :: 0 <= k < |email| && k != at ==> email[k] != '@')
      && (exists dot :: at + 1 < dot < |email| - 1 && email[dot] == '.')
  }

  lemma EmailCharacterised(email: string)
    ensures IsValidEmail(email) <==> EmailShape(email)
  {
    if IsValidEmail(email) {
      var at, dot :|
        && 0 < at && at + 1 < dot && dot + 1 < |email|
        && email[at] == '@' && email[dot] == '.'
        && PlainSpan(email, 0, at) && PlainSpan(email, at + 1, dot) && PlainSpan(email, dot + 1, |email|);
      assert forall k :: 0 <= k < |email| && k != at && k != dot ==> Plain(email[k]);
    }
    if EmailShape(email) {
      var at :|
        && 0 < at < |email| && email[at] == '@'
        && (forall k :: 0 <= k < |email| && k != at ==> email[k] != '@')
        && (exists dot :: at + 1 < dot < |email| - 1 && email[dot] == '.');
      var dot :| at + 1 < dot < |email| - 1 && email[dot] == '.';
      assert PlainSpan(email, 0, at) && PlainSpan(email, at + 1, dot) && PlainSpan(email, dot + 1, |email|);
    }
  }

  /** `isValidName`: at least two characters once trimmed. */
  predicate IsValidName(name: string) {
    |Trim(name)| >= 2
  }

  /** A name is valid exactly when it has two characters that are not white space. */
  lemma ValidNameHasTwoVisible(name: string)
    ensures IsValidName(name) <==>
      exists i, j :: 0 <= i < j < |name| && !IsWhite(name[i]) && !IsWhite(name[j])
  {
    var lo, hi := TrimBounds(name);
    var t := Trim(name);
    if IsValidName(name) {
      assert t[0] == name[lo] && t[|t| - 1] == name[hi - 1];
    }
    if exists i, j :: 0 <= i < j < |name| && !IsWhite(name[i]) && !IsWhite(name[j]) {
      var i, j :| 0 <= i < j < |name| && !IsWhite(name[i]) && !IsWhite(name[j]);
      assert lo <= i && j < hi;
    }
  }

  /** White space around a name does not change whether it is valid. */
  lemma NameValidityIgnoresPadding(before: string, name: string, after: string)
    requires AllWhite(before) && AllWhite(after)
    ensures IsValidName(before + name + after) == IsValidName(name)
  {
    TrimPadded(before, name, after);
  }

  /** The page's own copy of `getPasswordStrength`. */
  method GetPasswordStrength(pwd: string) returns (score: nat)
    ensures score == Register.Strength(pwd)
  {
    score := 0;
    if |pwd| >= 8 {
      score := score + 1;
    }
    if Register.HasUpper(pwd) {
      score := score + 1;
    }
    if Register.HasDigit(pwd) {
      score := score + 1;
    }
    if Register.HasSymbol(pwd) {
      score := score + 1;
    }
    Register.StrengthAsSum(pwd);
  }

  /** The two copies of the score agree on every password. */
  method StrengthCopiesAgree(pwd: string) returns (onRegister: nat, onProfile: nat)
    ensures onRegister == onProfile
  {
    onRegister := Register.GetPasswordStrength(pwd);
    onProfile := GetPasswordStrength(pwd);
  }

  // ---------------------------------------------------------------------------
  // Button gates
  // ---------------------------------------------------------------------------

  /** `isProfileChanged`: the name or the email differs from the session user's. */
  predicate IsProfileChanged(name: string, email: string, userName: string, userEmail: string) {
    name != userName || email != userEmail
  }

  /** `canUpdateProfile` */
  predicate CanUpdateProfile(name: string, email: string, userName: string, userEmail: string, isUpdating: bool) {
    IsProfileChanged(name, email, userName, userEmail) && IsValidName(name) && IsValidEmail(email) && !isUpdating
  }

  /** `canChangePassword` */
  predicate CanChangePassword(current: string, newPassword: string, confirm: string, isChanging: bool) {
    && |current| >= 6
    && |newPassword| >= 8
    && Register.Strength(newPassword) >= 3
    && newPassword == confirm
    && !isChanging
  }

  // ---------------------------------------------------------------------------
  // Handlers
  // ---------------------------------------------------------------------------

  /** How `handleChangePassword` ends: the four checks in the order they are made, or a
      change. */
  datatype PasswordOutcome = CurrentTooShort | NewTooShort | TooWeak | Mismatch | Changed

  /** The guard sequence of `handleChangePassword`: each check is reached only when all
      earlier ones passed. */
  function PasswordCheck(current: string, newPassword: string, confirm: string): (r: PasswordOutcome)
    ensures r == CurrentTooShort <==> |current| < 6
    ensures r == NewTooShort <==> |current| >= 6 && |newPassword| < 8
    ensures r == TooWeak <==> |current| >= 6 && |newPassword| >= 8 && Register.Strength(newPassword) < 3
    ensures r == Mismatch <==>
      |current| >= 6 && |newPassword| >= 8 && Register.Strength(newPassword) >= 3 && newPassword != confirm
    ensures r == Changed <==> CanChangePassword(current, newPassword, confirm, false)
  {
    if |current| < 6 then CurrentTooShort
    else if |newPassword| < 8 then NewTooShort
    else if Register.Strength(newPassword) < 3 then TooWeak
    else if newPassword != confirm then Mismatch
    else Changed
  }

  /** The enabled button and the handler agree: the button is enabled exactly when no
      change is running and the handler's checks all pass. */
  lemma ChangeButtonMatchesHandler(current: string, newPassword: string, confirm: string, isChanging: bool)
    ensures CanChangePassword(current, newPassword, confirm, isChanging) <==>
      !isChanging && PasswordCheck(current, newPassword, confirm) == Changed
  {
  }

  /** How `handleUpdateInfo` ends. */
  datatype UpdateOutcome = InvalidName | InvalidEmail | NoChanges | EmailTaken | UpdateFailed | Updated

  class ProfileForm {
    const userName: string
    const userEmail: string
    var name: string
    var email: string
    var currentPassword: string
    var newPassword: string
    var confirmPassword: string

    /** The fields start from the session user; the password fields start empty. */
    constructor (userName: string, userEmail: string)
      ensures this.userName == userName && this.userEmail == userEmail
      ensures name == userName && email == userEmail
      ensures currentPassword == "" && newPassword == "" && confirmPassword == ""
    {
      this.userName := userName;
      this.userEmail := userEmail;
      name := userName;
      email := userEmail;
      currentPassword := "";
      newPassword := "";
      confirmPassword := "";
    }

    /** `handleUpdateInfo`: the name check, then the email check, then the no-change
        check.  When the email was changed and a token is present, the trimmed,
        lower-cased email is sent to the availability check, whose answer is
        `checkStatus` (`None` when the request fails): 409 reports the address as taken,
        a failed request reports a failure, and any other answer counts as success.  The
        update itself is not sent anywhere. */
    method HandleUpdateInfo(hasToken: bool, checkStatus: Option<int>) returns (outcome: UpdateOutcome, checked: Option<string>)
      ensures outcome == InvalidName <==> !IsValidName(name)
      ensures outcome == InvalidEmail <==> IsValidName(name) && !IsValidEmail(email)
      ensures outcome == NoChanges <==>
        IsValidName(name) && IsValidEmail(email) && !IsProfileChanged(name, email, userName, userEmail)
      ensures checked.Some? <==>
        IsValidName(name) && IsValidEmail(email) && email != userEmail && hasToken
      ensures checked.Some? ==> checked.value == Lower(Trim(email))
      ensures outcome == EmailTaken <==> checked.Some? && checkStatus == Some(409)
      ensures outcome == UpdateFailed <==> checked.Some? && checkStatus.None?
      ensures outcome == Updated <==>
        && IsValidName(name) && IsValidEmail(email) && IsProfileChanged(name, email, userName, userEmail)
        && !(checked.Some? && (checkStatus == Some(409) || checkStatus.None?))
      ensures CanUpdateProfile(name, email, userName, userEmail, false) <==>
        outcome !in {InvalidName, InvalidEmail, NoChanges}
    {
      checked := None;
      if !IsValidName(name) {
        return InvalidName, None;
      }
      if !IsValidEmail(email) {
        return InvalidEmail, None;
      }
      if !IsProfileChanged(name, email, userName, userEmail) {
        return NoChanges, None;
      }
      if email != userEmail && hasToken {
        checked := Some(Lower(Trim(email)));
        if checkStatus.None? {
          return UpdateFailed, checked;
        }
        if checkStatus.value == 409 {
          return EmailTaken, checked;
        }
      }
      outcome := Updated;
    }

    /** `handleChangePassword`: a refused change leaves every field as it was; an
        accepted one clears the three password fields. */
    method HandleChangePassword() returns (outcome: PasswordOutcome)
      modifies this
      ensures outcome == PasswordCheck(old(currentPassword), old(newPassword), old(confirmPassword))
      ensures name == old(name) && email == old(email)
      ensures outcome != Changed ==>
        currentPassword == old(currentPassword) && newPassword == old(newPassword)
        && confirmPassword == old(confirmPassword)
      ensures outcome == Changed ==> currentPassword == "" && newPassword == "" && confirmPassword == ""
    {
      var strength := GetPasswordStrength(newPassword);
      if |currentPassword| < 6 {
        return CurrentTooShort;
      }
      if |newPassword| < 8 {
        return NewTooShort;
      }
      if strength < 3 {
        return TooWeak;
      }
      if newPassword != confirmPassword {
        return Mismatch;
      }
      currentPassword := "";
      newPassword := "";
      confirmPassword := "";
      outcome := Changed;
    }
  }
}
