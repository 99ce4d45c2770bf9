/**
  The password checker: an ordered validation cascade, then a score of 0
  to 4 from four criteria, rated Weak, Medium or Strong.
*/
module PasswordChecker {
  import opened Ascii

  const MinPasswordLength: nat := 4

  /** The argument as Python sees it: `None`, a value that is not a `str`, or a string. */
  datatype Input = NoneValue | NotString | Text(s: string)

  /** `(is_valid, error_message)`. */
  datatype Validation = Valid | Invalid(message: string)

  const NoneMessage: string := "Password cannot be None. Please enter a password."
  const NotStringMessage: string := "Password must be a string."
  const EmptyMessage: string := "Password cannot be empty. Please enter a password."
  const WhitespaceMessage: string := "Password cannot be only whitespace. Please enter a valid password."

  function TooShortMessage(n: nat): string {
    "Password is too short (" + NatToString(n) + " characters). Please use at least "
      + NatToString(MinPasswordLength) + " characters."
  }

  /** `validate_password_input`: the first failing check decides the message. */
  function ValidatePasswordInput(p: Input): Validation {
    match p
    case NoneValue => Invalid(NoneMessage)
    case NotString => Invalid(NotStringMessage)
    case Text(s) =>
      if |s| == 0 then Invalid(EmptyMessage)
      else if IsSpaceStr(s) then Invalid(WhitespaceMessage)
      else if |s| < MinPasswordLength then Invalid(TooShortMessage(|s|))
      else Valid
  }

  /** A string is valid exactly when it has at least 4 characters and is not all whitespace. */
  lemma ValidExactly(s: string)
    ensures ValidatePasswordInput(Text(s)) == Valid <==> |s| >= MinPasswordLength && !AllSpace(s)
    ensures !AllSpace(s) && |s| < MinPasswordLength ==>
      ValidatePasswordInput(Text(s)) == Invalid(TooShortMessage(|s|))
  {
  }

  /** Whitespace is reported before length: a short blank string is not called too short. */
  lemma WhitespaceBeforeLength(s: string)
    requires s != [] && AllSpace(s)
    ensures ValidatePasswordInput(Text(s)) == Invalid(WhitespaceMessage)
  {
  }

  predicate HasUpper(s: string) { exists i :: 0 <= i < |s| && IsUpper(s[i]) }
  predicate HasLower(s: string) { exists i :: 0 <= i < |s| && IsLower(s[i]) }
  predicate HasDigit(s: string) { exists i :: 0 <= i < |s| && IsDigit(s[i]) }

  /** The four criteria of the score. */
  datatype Criteria = Criteria(long: bool, upper: bool, lower: bool, digit: bool)

  function CriteriaOf(s: string): Criteria {
    Criteria(|s| >= 8, HasUpper(s), HasLower(s), HasDigit(s))
  }

  function One(b: bool): nat { if b then 1 else 0 }

  /** `sum([length_score, has_upper, has_lower, has_digit])`. */
  function Score(c: Criteria): (n: nat)
    ensures n <= 4
    ensures n == 4 <==> c.long && c.upper && c.lower && c.digit
    ensures n == 0 <==> !c.long && !c.upper && !c.lower && !c.digit
  {
    One(c.long) + One(c.upper) + One(c.lower) + One(c.digit)
  }

  datatype Rating = Weak | Medium | Strong

  function Rate(score: nat): Rating {
    if score <= 2 then Weak else if score == 3 then Medium else Strong
  }

  function Rank(r: Rating): nat {
    match r
    case Weak => 0
    case Medium => 1
    case Strong => 2
  }

  /** `check_password_strength`: the validation message for invalid input, otherwise the rating. */
  datatype Strength = Rated(rating: Rating) | Rejected(message: string)

  function CheckPasswordStrength(p: Input): Strength {
    match ValidatePasswordInput(p)
    case Invalid(message) => Rejected(message)
    case Valid => Rated(Rate(Score(CriteriaOf(p.s))))
  }

  /** Invalid input gets the validation message in place of a rating. */
  lemma InvalidGetsMessage(p: Input)
    ensures CheckPasswordStrength(p).Rejected? <==> ValidatePasswordInput(p).Invalid?
    ensures ValidatePasswordInput(p).Invalid? ==>
      CheckPasswordStrength(p).message == ValidatePasswordInput(p).message
  {
  }

  /** Strong exactly when all four criteria hold; Medium exactly when three do. */
  lemma RatingBands(c: Criteria)
    ensures Rate(Score(c)) == Strong <==> c.long && c.upper && c.lower && c.digit
    ensures Rate(Score(c)) == Medium <==> Score(c) == 3
    ensures Rate(Score(c)) == Weak <==> Score(c) <= 2
  {
  }

  /** Meeting more of the criteria never lowers the rating. */
  lemma RatingMonotone(a: Criteria, b: Criteria)
    requires a.long ==> b.long
    requires a.upper ==> b.upper
    requires a.lower ==> b.lower
    requires a.digit ==> b.digit
    ensures Score(a) <= Score(b)
    ensures Rank(Rate(Score(a))) <= Rank(Rate(Score(b)))
  {
  }

  // ----- The cases the tests pin down -----

  lemma ValidExamples()
    ensures ValidatePasswordInput(Text("password123")) == Valid
    ensures ValidatePasswordInput(Text("aaaa")) == Valid
  {
    assert !IsSpace("password123"[0]) && !IsSpace("aaaa"[0]);
  }

  lemma InvalidExamples()
    ensures ValidatePasswordInput(NoneValue) == Invalid(NoneMessage)
    ensures ValidatePasswordInput(NotString) == Invalid(NotStringMessage)
    ensures ValidatePasswordInput(Text("")) == Invalid(EmptyMessage)
    ensures ValidatePasswordInput(Text("   ")) == Invalid(WhitespaceMessage)
  {
  }

  lemma TooShortExample()
    ensures ValidatePasswordInput(Text("ab")) == Invalid(TooShortMessage(2))
    ensures NatToString(2) == "2" && NatToString(MinPasswordLength) == "4"
  {
    assert !IsSpace("ab"[0]);
  }

  lemma WeakExamples()
    ensures CheckPasswordStrength(Text("password")) == Rated(Weak)
    ensures CheckPasswordStrength(Text("pass")) == Rated(Weak)
  {
    var lower := "password";
    assert !IsSpace(lower[0]);
    assert !HasUpper(lower) && !HasDigit(lower);
    var short := "pass";
    assert !IsSpace(short[0]);
    assert !HasUpper(short) && !HasDigit(short);
  }

  lemma MediumExample()
    ensures CheckPasswordStrength(Text("Password")) == Rated(Medium)
  {
    var mixed := "Password";
    assert !IsSpace(mixed[0]) && IsUpper(mixed[0]) && IsLower(mixed[1]);
    assert !HasDigit(mixed);
  }

  lemma StrongExample()
    ensures CheckPasswordStrength(Text("Password1")) == Rated(Strong)
  {
    var strong := "Password1";
    assert !IsSpace(strong[0]) && IsUpper(strong[0]) && IsLower(strong[1]) && IsDigit(strong[8]);
  }

  lemma RejectedExample()
    ensures CheckPasswordStrength(Text("    ")) == Rejected(WhitespaceMessage)
  {
  }
}
