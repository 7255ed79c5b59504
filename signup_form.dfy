/**
 * The client-side sign-up schema: both names at least 2 characters, a valid
 * email, a password of at least 8, terms accepted, the confirmation equal to
 * the password (reported on `confirmPassword`), and the newsletter flag
 * coerced to a boolean. Accepted values are posted as JSON to the
 * registration endpoint.
 */
module SignUpForm {
  import opened Wrappers
  import opened JsValues
  import RegisterRoute

  /** The fields a failed parse can report. */
  datatype FormField = FirstName | LastName | Email | Password | ConfirmPassword | AgreeToTerms

  /**
   * What the form holds. Text inputs always give strings; the checkboxes give
   * whatever value their change handler last stored (usually a boolean).
   */
  datatype SignUpInput = SignUpInput(
    firstName: string,
    lastName: string,
    email: string,
    password: string,
    confirmPassword: string,
    agreeToTerms: Json,
    subscribeToNewsletter: Option<Json>)

  /** The parsed values the submit handler receives. */
  datatype SignUpValues = SignUpValues(
    firstName: string,
    lastName: string,
    email: string,
    password: string,
    confirmPassword: string,
    agreeToTerms: bool,
    subscribeToNewsletter: bool)

  const MinNameLength: nat := 2
  const MinPasswordLength: nat := 8

  /** `z.boolean().default(false).catch(false)`. */
  function NewsletterChoice(v: Option<Json>): (b: bool)
    ensures b <==> v == Some(JBool(true))
  {
    match v
    case Some(JBool(x)) => x
    case _ => false
  }

  /**
   * The fields in error. A non-boolean `agreeToTerms` is a type error, which
   * aborts the object parse, so the password refinement does not run then.
   */
  function FormErrors(input: SignUpInput, isEmail: string -> bool): (r: set<FormField>)
    ensures FirstName in r <==> JsLength(input.firstName) < MinNameLength
    ensures LastName in r <==> JsLength(input.lastName) < MinNameLength
    ensures Email in r <==> !isEmail(input.email)
    ensures Password in r <==> JsLength(input.password) < MinPasswordLength
    ensures AgreeToTerms in r <==> input.agreeToTerms != JBool(true)
    ensures ConfirmPassword in r <==> input.agreeToTerms.JBool? && input.password != input.confirmPassword
  {
    (if JsLength(input.firstName) >= MinNameLength then {} else {FirstName})
    + (if JsLength(input.lastName) >= MinNameLength then {} else {LastName})
    + (if isEmail(input.email) then {} else {Email})
    + (if JsLength(input.password) >= MinPasswordLength then {} else {Password})
    + (if input.agreeToTerms == JBool(true) then {} else {AgreeToTerms})
    + (if input.agreeToTerms.JBool? && input.password != input.confirmPassword then {ConfirmPassword} else {})
  }

  /** `formSchema.safeParse(input)` as the resolver runs it. */
  function ValidateSignUp(input: SignUpInput, isEmail: string -> bool): (r: Result<SignUpValues, set<FormField>>)
    ensures r.Success? <==>
      JsLength(input.firstName) >= 2 && JsLength(input.lastName) >= 2 && isEmail(input.email)
      && JsLength(input.password) >= 8 && input.agreeToTerms == JBool(true)
      && input.password == input.confirmPassword
    ensures r.Failure? ==> r.error != {}
    ensures r.Failure? && input.agreeToTerms.JBool? ==>
      (ConfirmPassword in r.error <==> input.password != input.confirmPassword)
    ensures r.Failure? && !input.agreeToTerms.JBool? ==> ConfirmPassword !in r.error
    ensures r.Failure? ==> (FirstName in r.error <==> JsLength(input.firstName) < 2)
    ensures r.Failure? ==> (LastName in r.error <==> JsLength(input.lastName) < 2)
    ensures r.Failure? ==> (Email in r.error <==> !isEmail(input.email))
    ensures r.Failure? ==> (Password in r.error <==> JsLength(input.password) < 8)
    ensures r.Failure? ==> (AgreeToTerms in r.error <==> input.agreeToTerms != JBool(true))
    ensures r.Success? ==>
      r.value == SignUpValues(input.firstName, input.lastName, input.email, input.password,
                              input.confirmPassword, true, input.subscribeToNewsletter == Some(JBool(true)))
  {
    var errors := FormErrors(input, isEmail);
    if errors != {} then Failure(errors)
    else Success(SignUpValues(input.firstName, input.lastName, input.email, input.password,
                              input.confirmPassword, true, NewsletterChoice(input.subscribeToNewsletter)))
  }

  /** The body `JSON.stringify(values)` that the submit handler posts. */
  function SubmittedBody(v: SignUpValues): (r: Json)
    ensures r.JObj?
    ensures r.fields.Keys == {"firstName", "lastName", "email", "password", "confirmPassword",
                              "agreeToTerms", "subscribeToNewsletter"}
    ensures Property(r, "firstName") == Some(JStr(v.firstName))
    ensures Property(r, "lastName") == Some(JStr(v.lastName))
    ensures Property(r, "email") == Some(JStr(v.email))
    ensures Property(r, "password") == Some(JStr(v.password))
    ensures Property(r, "confirmPassword") == Some(JStr(v.confirmPassword))
    ensures Property(r, "agreeToTerms") == Some(JBool(v.agreeToTerms))
    ensures Property(r, "subscribeToNewsletter") == Some(JBool(v.subscribeToNewsletter))
  {
    JObj(map[
      "firstName" := JStr(v.firstName),
      "lastName" := JStr(v.lastName),
      "email" := JStr(v.email),
      "password" := JStr(v.password),
      "confirmPassword" := JStr(v.confirmPassword),
      "agreeToTerms" := JBool(v.agreeToTerms),
      "subscribeToNewsletter" := JBool(v.subscribeToNewsletter)])
  }

  /**
   * The client rules are at least as strict as the server's: whatever the
   * form accepts, the registration schema accepts too, with the same values.
   */
  lemma FormAcceptedImpliesServerAccepts(input: SignUpInput, isEmail: string -> bool)
    requires ValidateSignUp(input, isEmail).Success?
    ensures var v := ValidateSignUp(input, isEmail).value;
      RegisterRoute.ParseRegistration(SubmittedBody(v), isEmail)
        == Success(RegisterRoute.Registration(v.firstName, v.lastName, v.email, v.password, v.subscribeToNewsletter))
  {
  }
}
