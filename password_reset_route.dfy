/**
 * `POST /api/auth/request-password-reset`: a request naming the email of an
 * existing user replaces every reset token of that user by one new token,
 * stored as the bcrypt digest of a raw token of 32 random bytes in hex and
 * expiring one hour later. The reply does not depend on whether the user exists.
 */
module PasswordResetRoute {
  import opened Wrappers
  import opened JsValues
  import opened Crypto
  import opened Store

  const EmailRequiredMessage: string := "Email is required."
  const GenericNotice: string := "If your email is registered, you will receive a password reset link."
  const ServerErrorMessage: string := "An error occurred. Please try again later."

  /** A token is valid for one hour after it is issued, in milliseconds. */
  const TokenLifetimeMs: int := 3600000

  datatype Reply = Reply(status: int, message: string)

  /** How the handler reads a request before it looks anything up. */
  datatype ResetRequest =
    | Malformed             // `req.json()` rejects, or the body is `null` and destructuring throws
    | MissingEmail          // `!email || typeof email !== "string"`
    | ForEmail(email: string)

  /** The guard `!email || typeof email !== "string"` lets through exactly the non-empty strings. */
  function EmailGuard(email: Option<Json>): (r: Option<string>)
    ensures r.Some? <==> email.Some? && email.value.JStr? && email.value.s != ""
    ensures r.Some? ==> email == Some(JStr(r.value))
  {
    if !Truthy(email) || TypeOf(email) != "string" then None else Some(email.value.s)
  }

  /** `const { email } = await req.json()` followed by the guard. */
  function ClassifyRequest(req: RequestBody): (r: ResetRequest)
    ensures r.Malformed? <==> req == Unparseable || req == Parsed(JNull)
    ensures r.ForEmail? ==> r.email != "" && req.Parsed? && Property(req.value, "email") == Some(JStr(r.email))
    ensures r.MissingEmail? <==>
      req.Parsed? && req.value != JNull && EmailGuard(Property(req.value, "email")).None?
  {
    if req.Unparseable? || req.value.JNull? then Malformed
    else
      match EmailGuard(Property(req.value, "email"))
      case None => MissingEmail
      case Some(e) => ForEmail(e)
  }

  /**
   * The reply is a function of the request alone: the store is not an input,
   * so an existing and an unknown email get the same status and message.
   */
  function ReplyFor(r: ResetRequest): (reply: Reply)
    ensures reply.status == 200 <==> r.ForEmail?
    ensures r.ForEmail? ==> reply == Reply(200, GenericNotice)
    ensures r.MissingEmail? ==> reply == Reply(400, EmailRequiredMessage)
    ensures r.Malformed? ==> reply == Reply(500, ServerErrorMessage)
  {
    match r
    case Malformed => Reply(500, ServerErrorMessage)
    case MissingEmail => Reply(400, EmailRequiredMessage)
    case ForEmail(_) => Reply(200, GenericNotice)
  }

  /** Two requests that both pass the guard get identical replies, whatever the emails. */
  lemma NoEnumeration(a: RequestBody, b: RequestBody)
    requires ClassifyRequest(a).ForEmail? && ClassifyRequest(b).ForEmail?
    ensures ReplyFor(ClassifyRequest(a)) == ReplyFor(ClassifyRequest(b))
  {
  }

  /** The row a request for `userId` at time `now` inserts. */
  function NewToken(userId: nat, now: int, random: Bytes32, bcryptHash: (string, nat) -> Digest): (t: ResetToken)
    ensures t.userId == userId
    ensures t.expires == now + TokenLifetimeMs
    ensures t.token == bcryptHash(ToHex(random), HashSaltRounds) && |ToHex(random)| == 64
  {
    ResetToken(userId, bcryptHash(ToHex(random), HashSaltRounds), now + TokenLifetimeMs)
  }

  /**
   * The handler. `now` is `Date.now()`, `random` is `crypto.randomBytes(32)`
   * and `bcryptHash` is `bcrypt.hash` for this call.
   */
  method RequestPasswordReset(db: Database, req: RequestBody, now: int, random: Bytes32,
                              bcryptHash: (string, nat) -> Digest)
    returns (reply: Reply)
    requires db.Valid()
    modifies db
    ensures db.Valid()
    ensures db.users == old(db.users) && db.nextUserId == old(db.nextUserId)
    ensures reply == ReplyFor(ClassifyRequest(req))
    ensures !ClassifyRequest(req).ForEmail? ==> db.resetTokens == old(db.resetTokens)
    ensures ClassifyRequest(req).ForEmail? && FindByEmail(old(db.users), ClassifyRequest(req).email).None? ==>
      db.resetTokens == old(db.resetTokens)
    ensures ClassifyRequest(req).ForEmail? && FindByEmail(old(db.users), ClassifyRequest(req).email).Some? ==>
      var u := FindByEmail(old(db.users), ClassifyRequest(req).email).value;
      var t := NewToken(u.id, now, random, bcryptHash);
      db.resetTokens == IssueToken(old(db.resetTokens), t)
      && TokensOf(db.resetTokens, u.id) == [t]
      && forall other :: other != u.id ==> TokensOf(db.resetTokens, other) == TokensOf(old(db.resetTokens), other)
  {
    var request := ClassifyRequest(req);
    reply := ReplyFor(request);
    if !request.ForEmail? {
      return;
    }
    var user := FindByEmail(db.users, request.email);
    if user.Some? {
      var u := user.value;
      ghost var before := db.resetTokens;
      db.DeleteResetTokensOf(u.id);
      var rawToken := ToHex(random);
      var hashedToken := bcryptHash(rawToken, HashSaltRounds);
      var tokenExpiry := now + TokenLifetimeMs;
      assert u.id in UserIds(db.users);
      db.CreateResetToken(ResetToken(u.id, hashedToken, tokenExpiry));
      IssueLeavesExactlyOne(before, ResetToken(u.id, hashedToken, tokenExpiry));
      forall other | other != u.id
        ensures TokensOf(db.resetTokens, other) == TokensOf(before, other)
      {
        IssueKeepsOthers(before, ResetToken(u.id, hashedToken, tokenExpiry), other);
      }
    }
  }

  /**
   * Two requests for the same existing user, each with its own clock reading,
   * random bytes and `bcrypt.hash` call, leave exactly one token row for that user.
   */
  method RequestTwice(db: Database, req: RequestBody, now1: int, now2: int, random1: Bytes32, random2: Bytes32,
                      bcryptHash1: (string, nat) -> Digest, bcryptHash2: (string, nat) -> Digest)
    returns (first: Reply, second: Reply)
    requires db.Valid()
    requires ClassifyRequest(req).ForEmail? && FindByEmail(db.users, ClassifyRequest(req).email).Some?
    modifies db
    ensures first == second == Reply(200, GenericNotice)
    ensures db.users == old(db.users)
    ensures FindByEmail(db.users, ClassifyRequest(req).email).Some?
    ensures var u := FindByEmail(db.users, ClassifyRequest(req).email).value;
      TokensOf(db.resetTokens, u.id) == [NewToken(u.id, now2, random2, bcryptHash2)]
  {
    first := RequestPasswordReset(db, req, now1, random1, bcryptHash1);
    second := RequestPasswordReset(db, req, now2, random2, bcryptHash2);
  }
}
