/**
 * `POST /api/auth/register`: the request schema and the handler that
 * validates the body, rejects a taken email with 409 and otherwise creates a
 * BUYER with a hashed password, answering 201 with the row minus its password.
 */
module RegisterRoute {
  import opened Wrappers
  import opened JsValues
  import opened Crypto
  import opened Store

  /** The fields of the registration schema; a failed parse reports the set of fields in error. */
  datatype Field = FirstName | LastName | Email | Password | SubscribeToNewsletter

  /** The parsed body. Keys the schema does not name are dropped. */
  datatype Registration = Registration(
    firstName: string,
    lastName: string,
    email: string,
    password: string,
    subscribeToNewsletter: bool)

  const InvalidInputMessage: string := "Invalid input"
  const DuplicateEmailMessage: string := "User with this email already exists"
  const RegisteredMessage: string := "User registered successfully"
  const ServerErrorMessage: string := "An unexpected error occurred on the server."

  datatype ReplyBody =
    | Message(message: string)
    | InvalidInput(message: string, errors: set<Field>)
    | Registered(message: string, user: PublicUser)

  datatype Reply = Reply(status: int, body: ReplyBody)

  /** `z.string().min(n)`: a string of at least `n` UTF-16 code units. */
  predicate IsStringOfLength(v: Option<Json>, n: nat)
  {
    v.Some? && v.value.JStr? && JsLength(v.value.s) >= n
  }

  /** `z.string().email()`, with the format check itself left opaque as `isEmail`. */
  predicate IsEmailString(v: Option<Json>, isEmail: string -> bool)
  {
    v.Some? && v.value.JStr? && isEmail(v.value.s)
  }

  /** `z.boolean().optional()`: absent, or a boolean (null is refused). */
  predicate IsOptionalBool(v: Option<Json>)
  {
    v.None? || v.value.JBool?
  }

  /** The fields of an object body that fail their rule. */
  function FieldErrors(body: Json, isEmail: string -> bool): (r: set<Field>)
    ensures FirstName in r <==> !IsStringOfLength(Property(body, "firstName"), 1)
    ensures LastName in r <==> !IsStringOfLength(Property(body, "lastName"), 1)
    ensures Email in r <==> !IsEmailString(Property(body, "email"), isEmail)
    ensures Password in r <==> !IsStringOfLength(Property(body, "password"), 8)
    ensures SubscribeToNewsletter in r <==> !IsOptionalBool(Property(body, "subscribeToNewsletter"))
  {
    (if IsStringOfLength(Property(body, "firstName"), 1) then {} else {FirstName})
    + (if IsStringOfLength(Property(body, "lastName"), 1) then {} else {LastName})
    + (if IsEmailString(Property(body, "email"), isEmail) then {} else {Email})
    + (if IsStringOfLength(Property(body, "password"), 8) then {} else {Password})
    + (if IsOptionalBool(Property(body, "subscribeToNewsletter")) then {} else {SubscribeToNewsletter})
  }

  /**
   * `userRegistrationSchema.safeParse(body)`. A body that is not an object fails
   * as a whole with no field errors; an object fails with exactly the fields that
   * break their rule, and otherwise yields the values with the newsletter flag
   * defaulting to false.
   */
  function ParseRegistration(body: Json, isEmail: string -> bool): (r: Result<Registration, set<Field>>)
    ensures !body.JObj? ==> r == Failure({})
    ensures body.JObj? && r.Failure? ==> r.error != {}
    ensures body.JObj? && r.Failure? ==>
      (FirstName in r.error <==> !IsStringOfLength(Property(body, "firstName"), 1))
      && (LastName in r.error <==> !IsStringOfLength(Property(body, "lastName"), 1))
      && (Email in r.error <==> !IsEmailString(Property(body, "email"), isEmail))
      && (Password in r.error <==> !IsStringOfLength(Property(body, "password"), 8))
      && (SubscribeToNewsletter in r.error <==> !IsOptionalBool(Property(body, "subscribeToNewsletter")))
    ensures r.Success? ==>
      Property(body, "firstName") == Some(JStr(r.value.firstName)) && JsLength(r.value.firstName) >= 1
      && Property(body, "lastName") == Some(JStr(r.value.lastName)) && JsLength(r.value.lastName) >= 1
      && Property(body, "email") == Some(JStr(r.value.email)) && isEmail(r.value.email)
      && Property(body, "password") == Some(JStr(r.value.password)) && JsLength(r.value.password) >= 8
      && r.value.subscribeToNewsletter == (Property(body, "subscribeToNewsletter") == Some(JBool(true)))
  {
    if !body.JObj? then Failure({})
    else
      var errors := FieldErrors(body, isEmail);
      if errors != {} then Failure(errors)
      else
        var newsletter := Property(body, "subscribeToNewsletter");
        Success(Registration(
          Property(body, "firstName").value.s,
          Property(body, "lastName").value.s,
          Property(body, "email").value.s,
          Property(body, "password").value.s,
          if newsletter.None? then false else newsletter.value.b))
  }

  /** The schema accepts an object exactly when every field keeps its rule. */
  lemma ParseSucceedsIff(body: Json, isEmail: string -> bool)
    ensures ParseRegistration(body, isEmail).Success? <==>
      body.JObj?
      && IsStringOfLength(Property(body, "firstName"), 1)
      && IsStringOfLength(Property(body, "lastName"), 1)
      && IsEmailString(Property(body, "email"), isEmail)
      && IsStringOfLength(Property(body, "password"), 8)
      && IsOptionalBool(Property(body, "subscribeToNewsletter"))
  {
  }

  /**
   * The handler. `isEmail` is Zod's email format check and `bcryptHash` is
   * `bcrypt.hash` for this call (its salt may differ from call to call).
   */
  method Register(db: Database, req: RequestBody, isEmail: string -> bool, bcryptHash: (string, nat) -> Digest)
    returns (reply: Reply)
    requires db.Valid()
    modifies db
    ensures db.Valid()
    ensures db.resetTokens == old(db.resetTokens)
    ensures req.Unparseable? ==> reply == Reply(500, Message(ServerErrorMessage))
    ensures req.Parsed? && ParseRegistration(req.value, isEmail).Failure? ==>
      reply == Reply(400, InvalidInput(InvalidInputMessage, ParseRegistration(req.value, isEmail).error))
    ensures req.Parsed? && ParseRegistration(req.value, isEmail).Success?
            && EmailTaken(old(db.users), ParseRegistration(req.value, isEmail).value.email) ==>
      reply == Reply(409, Message(DuplicateEmailMessage))
    ensures reply.status == 201 <==>
      req.Parsed? && ParseRegistration(req.value, isEmail).Success?
      && !EmailTaken(old(db.users), ParseRegistration(req.value, isEmail).value.email)
    ensures reply.status != 201 ==> db.users == old(db.users) && db.nextUserId == old(db.nextUserId)
    ensures reply.status == 201 ==>
      var d := ParseRegistration(req.value, isEmail).value;
      var u := User(old(db.nextUserId), d.firstName, d.lastName, d.firstName + " " + d.lastName,
                    d.email, Some(bcryptHash(d.password, HashSaltRounds)), Buyer);
      db.users == old(db.users) + [u]
      && db.nextUserId == old(db.nextUserId) + 1
      && reply.body == Registered(RegisteredMessage, WithoutPassword(u))
  {
    if req.Unparseable? {
      return Reply(500, Message(ServerErrorMessage));
    }
    var validation := ParseRegistration(req.value, isEmail);
    if validation.Failure? {
      return Reply(400, InvalidInput(InvalidInputMessage, validation.error));
    }
    var data := validation.value;
    var existing := FindByEmail(db.users, data.email);
    if existing.Some? {
      return Reply(409, Message(DuplicateEmailMessage));
    }
    var hashedPassword := bcryptHash(data.password, HashSaltRounds);
    var user := db.CreateUser(data.firstName, data.lastName, data.firstName + " " + data.lastName,
                              data.email, Some(hashedPassword), Buyer);
    reply := Reply(201, Registered(RegisteredMessage, WithoutPassword(user)));
  }

  /** Posting the same valid body twice: the first call creates the user, the second gets 409 and adds nothing. */
  method RegisterTwice(db: Database, req: RequestBody, isEmail: string -> bool, bcryptHash: (string, nat) -> Digest)
    returns (first: Reply, second: Reply)
    requires db.Valid()
    requires req.Parsed? && ParseRegistration(req.value, isEmail).Success?
    requires !EmailTaken(db.users, ParseRegistration(req.value, isEmail).value.email)
    modifies db
    ensures first.status == 201 && second == Reply(409, Message(DuplicateEmailMessage))
    ensures |db.users| == old(|db.users|) + 1
  {
    first := Register(db, req, isEmail, bcryptHash);
    ghost var created := db.users[|db.users| - 1];
    assert created in db.users;
    second := Register(db, req, isEmail, bcryptHash);
  }
}
