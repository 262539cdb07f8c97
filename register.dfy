/** The sign-up form (frontend/src/components/auth/Register.tsx): the password strength
    score, the label and colour shown for it, and the checks `handleSubmit` makes before
    calling `register`.  The call itself (and the navigation after it) is not modelled. */
module Register {

  /** `/[A-Z]/.test(pwd)` */
  predicate HasUpper(pwd: string) {
    exists i :: 0 <= i < |pwd| && 'A' <= pwd[i] <= 'Z'
  }

  /** `/[0-9]/.test(pwd)` */
  predicate HasDigit(pwd: string) {
    exists i :: 0 <= i < |pwd| && '0' <= pwd[i] <= '9'
  }

  predicate IsAlnum(c: char) {
    ('A' <= c <= 'Z') || ('a' <= c <= 'z') || ('0' <= c <= '9')
  }

  /** `/[^A-Za-z0-9]/.test(pwd)` */
  predicate HasSymbol(pwd: string) {
    exists i :: 0 <= i < |pwd| && !IsAlnum(pwd[i])
  }

  /** The four conditions the score counts, in the order they are tested. */
  function Criteria(pwd: string): (c: seq<bool>)
    ensures |c| == 4
  {
    [|pwd| >= 8, HasUpper(pwd), HasDigit(pwd), HasSymbol(pwd)]
  }

  function CountTrue(bs: seq<bool>): (n: nat)
    ensures n <= |bs|
    ensures n == |bs| <==> forall i :: 0 <= i < |bs| ==> bs[i]
    ensures n == 0 <==> forall i :: 0 <= i < |bs| ==> !bs[i]
  {
    if bs == [] then 0
    else
      assert forall i :: 1 <= i < |bs| ==> bs[i] == bs[1..][i - 1];
      (if bs[0] then 1 else 0) + CountTrue(bs[1..])
  }

  /** The strength of a password: how many of the four conditions it meets. */
  function Strength(pwd: string): (n: nat)
    ensures n <= 4
  {
    CountTrue(Criteria(pwd))
  }

  function Bit(b: bool): nat {
    if b then 1 else 0
  }

  /** The score written out as a sum of the four verdicts. */
  lemma StrengthAsSum(pwd: string)
    ensures Strength(pwd) ==
      Bit(|pwd| >= 8) + Bit(HasUpper(pwd)) + Bit(HasDigit(pwd)) + Bit(HasSymbol(pwd))
  {
    var t3: seq<bool> := [HasSymbol(pwd)];
    var t2 := [HasDigit(pwd)] + t3;
    var t1 := [HasUpper(pwd)] + t2;
    var c := [|pwd| >= 8] + t1;
    assert c == Criteria(pwd);
    assert c[1..] == t1 && t1[1..] == t2 && t2[1..] == t3 && t3[1..] == [];
    assert CountTrue(t3) == Bit(HasSymbol(pwd));
    assert CountTrue(t2) == Bit(HasDigit(pwd)) + CountTrue(t3);
    assert CountTrue(t1) == Bit(HasUpper(pwd)) + CountTrue(t2);
    assert CountTrue(c) == Bit(|pwd| >= 8) + CountTrue(t1);
  }

  /** `getPasswordStrength`: the score counter, incremented once per condition met. */
  method GetPasswordStrength(pwd: string) returns (score: nat)
    ensures score == Strength(pwd)
    ensures score <= 4
  {
    score := 0;
    if |pwd| >= 8 {
      score := score + 1;
    }
    if HasUpper(pwd) {
      score := score + 1;
    }
    if HasDigit(pwd) {
      score := score + 1;
    }
    if HasSymbol(pwd) {
      score := score + 1;
    }
    StrengthAsSum(pwd);
  }

  /** Each condition is kept when a character is appended. */
  lemma AppendKeepsCriteria(pwd: string, c: char)
    ensures HasUpper(pwd) ==> HasUpper(pwd + [c])
    ensures HasDigit(pwd) ==> HasDigit(pwd + [c])
    ensures HasSymbol(pwd) ==> HasSymbol(pwd + [c])
  {
    var w := pwd + [c];
    assert forall i :: 0 <= i < |pwd| ==> w[i] == pwd[i];
  }

  /** Typing one more character never lowers the score. */
  lemma StrengthMonotone(pwd: string, c: char)
    ensures Strength(pwd + [c]) >= Strength(pwd)
  {
    AppendKeepsCriteria(pwd, c);
    StrengthAsSum(pwd);
    StrengthAsSum(pwd + [c]);
  }

  /** The top score is reached exactly when all four conditions hold, and a score of zero
      exactly when none does. */
  lemma StrengthExtremes(pwd: string)
    ensures Strength(pwd) == 4 <==> |pwd| >= 8 && HasUpper(pwd) && HasDigit(pwd) && HasSymbol(pwd)
    ensures Strength(pwd) == 0 <==> |pwd| < 8 && !HasUpper(pwd) && !HasDigit(pwd) && !HasSymbol(pwd)
  {
    StrengthAsSum(pwd);
  }

  /** The labels indexed by the score. */
  const STRENGTH_LABELS: seq<string> := ["Very weak", "Weak", "Okay", "Strong", "Very strong"]

  /** The label index is the score, which always lies inside the label list. */
  function StrengthLabel(pwd: string): (shown: string)
    ensures shown in STRENGTH_LABELS
    ensures shown == "Very strong" <==> Strength(pwd) == 4
  {
    STRENGTH_LABELS[Strength(pwd)]
  }

  /** The class of the label: red for "Very weak" and "Weak", yellow for "Okay", green
      for "Strong" and "Very strong". */
  function StrengthColor(score: nat): (cls: string)
    ensures cls == "text-red-500" <==> score <= 1
    ensures cls == "text-yellow-500" <==> score == 2
    ensures cls == "text-green-600" <==> score >= 3
  {
    if score <= 1 then "text-red-500"
    else if score == 2 then "text-yellow-500"
    else "text-green-600"
  }

  /** The label and its colour agree: a green label is one of the two strongest, a red
      one one of the two weakest. */
  lemma ColorMatchesLabel(pwd: string)
    ensures StrengthColor(Strength(pwd)) == "text-green-600" <==>
      StrengthLabel(pwd) in ["Strong", "Very strong"]
    ensures StrengthColor(Strength(pwd)) == "text-red-500" <==>
      StrengthLabel(pwd) in ["Very weak", "Weak"]
  {
    var s := Strength(pwd);
    assert StrengthLabel(pwd) == STRENGTH_LABELS[s];
  }

  /** What `register` is called with. */
  datatype RegisterRequest = RegisterRequest(name: string, email: string, password: string)

  /** How `handleSubmit` ends: a weak password is refused first, then a mismatched
      confirmation, and otherwise the request is sent. */
  datatype RegisterOutcome = TooWeak | Mismatch | Submit(request: RegisterRequest)

  /** `isStrongEnough`: a score of at least three. */
  predicate IsStrongEnough(pwd: string) {
    Strength(pwd) >= 3
  }

  function HandleSubmit(name: string, email: string, password: string, confirmPassword: string): (r: RegisterOutcome)
    ensures r == TooWeak <==> !IsStrongEnough(password)
    ensures r == Mismatch <==> IsStrongEnough(password) && password != confirmPassword
    ensures r.Submit? <==> IsStrongEnough(password) && password == confirmPassword
    ensures r.Submit? ==> r.request == RegisterRequest(name, email, password)
  {
    if !IsStrongEnough(password) then TooWeak
    else if password != confirmPassword then Mismatch
    else Submit(RegisterRequest(name, email, password))
  }

  /** A weak password is reported even when the confirmation does not match either. */
  lemma WeaknessReportedFirst(name: string, email: string, password: string, confirmPassword: string)
    requires Strength(password) < 3 && password != confirmPassword
    ensures HandleSubmit(name, email, password, confirmPassword) == TooWeak
  {
  }
}
