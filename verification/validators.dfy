/** The zod form schemas of lib/validators.ts as predicates over the form
    fields. A schema reports one issue per failing field rule, in field
    order; the form is accepted when it reports none. Email syntax is zod's
    own check and enters as the predicate `isEmail`. */
module Validators {

  datatype LoginForm = LoginForm(email: string, password: string)

  datatype RegisterForm = RegisterForm(
    name: string, email: string, password: string, role: string, number: string)

  datatype Issue = ShortName | InvalidEmail | ShortPassword | InvalidRole | InvalidNumber

  const MinNameLength := 2
  const MinPasswordLength := 6
  const PhoneLength := 10

  /** The message each field rule reports. The role rule reports zod's
      built-in enum message, which the schema does not spell out and whose
      wording depends on the zod version; "Invalid enum value" stands in
      for it here. */
  function Message(i: Issue): string
  {
    match i
    case ShortName => "Name must be at least 2 characters"
    case InvalidEmail => "Invalid email address"
    case ShortPassword => "Password must be at least 6 characters"
    case InvalidRole => "Invalid enum value"
    case InvalidNumber => "Phone number must be exactly 10 digits"
  }

  /** Every rule reports its own text, so the form can tell them apart. */
  lemma MessagesDistinct(i: Issue, j: Issue)
    ensures Message(i) == Message(j) <==> i == j
  {
  }

  predicate IsDigit(c: char)
  {
    '0' <= c <= '9'
  }

  /** `/^\d{10}$/`: exactly ten characters, each a decimal digit. */
  predicate IsPhoneNumber(s: string)
  {
    |s| == PhoneLength && forall k :: 0 <= k < |s| ==> IsDigit(s[k])
  }

  /** `z.enum(["customer", "owner"])` */
  predicate IsSignupRole(role: string)
  {
    role == "customer" || role == "owner"
  }

  function Check(ok: bool, issue: Issue): seq<Issue>
  {
    if ok then [] else [issue]
  }

  /** `loginSchema`. */
  function CheckLogin(f: LoginForm, isEmail: string -> bool): (issues: seq<Issue>)
    ensures InvalidEmail in issues <==> !isEmail(f.email)
    ensures ShortPassword in issues <==> |f.password| < 6
    ensures forall i :: i in issues ==> i == InvalidEmail || i == ShortPassword
    ensures issues == [] <==> isEmail(f.email) && |f.password| >= 6
  {
    Check(isEmail(f.email), InvalidEmail)
      + Check(|f.password| >= MinPasswordLength, ShortPassword)
  }

  /** `registerSchema`. */
  function CheckRegister(f: RegisterForm, isEmail: string -> bool): (issues: seq<Issue>)
    ensures ShortName in issues <==> |f.name| < 2
    ensures InvalidEmail in issues <==> !isEmail(f.email)
    ensures ShortPassword in issues <==> |f.password| < 6
    ensures InvalidRole in issues <==> f.role != "customer" && f.role != "owner"
    ensures InvalidNumber in issues <==>
      |f.number| != 10 || exists k :: 0 <= k < |f.number| && !('0' <= f.number[k] <= '9')
    ensures issues == [] <==>
      && |f.name| >= 2 && isEmail(f.email) && |f.password| >= 6
      && (f.role == "customer" || f.role == "owner")
      && |f.number| == 10 && forall k :: 0 <= k < |f.number| ==> '0' <= f.number[k] <= '9'
  {
    Check(|f.name| >= MinNameLength, ShortName)
      + Check(isEmail(f.email), InvalidEmail)
      + Check(|f.password| >= MinPasswordLength, ShortPassword)
      + Check(IsSignupRole(f.role), InvalidRole)
      + Check(IsPhoneNumber(f.number), InvalidNumber)
  }

  /** The phone-number pattern test as a left-to-right scan. */
  method MatchPhoneNumber(s: string) returns (ok: bool)
    ensures ok == IsPhoneNumber(s)
  {
    if |s| != PhoneLength {
      return false;
    }
    var k := 0;
    while k < |s|
      invariant 0 <= k <= |s|
      invariant forall j :: 0 <= j < k ==> IsDigit(s[j])
    {
      if !IsDigit(s[k]) {
        return false;
      }
      k := k + 1;
    }
    return true;
  }
}
