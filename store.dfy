/**
 * The two database tables the auth handlers touch, `user` and
 * `passwordResetToken`, held in memory by a `Database` object, together with
 * the queries the handlers run on them (`findUnique` by email, `deleteMany`
 * by user id, `create`). Each handler is one atomic step on this object.
 */
module Store {
  import opened Wrappers
  import opened Crypto

  /** The role tag of a user. */
  datatype Role = Buyer | Seller | Admin

  /** A row of the user table. `password` is absent for accounts without a password credential. */
  datatype User = User(
    id: nat,
    firstName: string,
    lastName: string,
    name: string,
    email: string,
    password: Option<Digest>,
    role: Role)

  /** A user row as the registration handler returns it: the same columns without `password`. */
  datatype PublicUser = PublicUser(
    id: nat,
    firstName: string,
    lastName: string,
    name: string,
    email: string,
    role: Role)

  /** A row of the password-reset token table. `token` is the digest of the raw token. */
  datatype ResetToken = ResetToken(userId: nat, token: Digest, expires: int)

  /** The destructuring `const { password: _, ...rest } = user`. */
  function WithoutPassword(u: User): (p: PublicUser)
    ensures p.id == u.id && p.email == u.email && p.name == u.name && p.role == u.role
    ensures p.firstName == u.firstName && p.lastName == u.lastName
  {
    PublicUser(u.id, u.firstName, u.lastName, u.name, u.email, u.role)
  }

  /** `findUnique({ where: { email } })`: the row with that email, if there is one. */
  function FindByEmail(users: seq<User>, email: string): (r: Option<User>)
    ensures r.Some? ==> r.value in users && r.value.email == email
    ensures r.None? <==> forall u :: u in users ==> u.email != email
  {
    if users == [] then None
    else if users[0].email == email then Some(users[0])
    else FindByEmail(users[1..], email)
  }

  function UserIds(users: seq<User>): set<nat>
  {
    set u | u in users :: u.id
  }

  predicate EmailTaken(users: seq<User>, email: string)
  {
    exists u :: u in users && u.email == email
  }

  /** The token rows of one user, in table order. */
  function TokensOf(tokens: seq<ResetToken>, userId: nat): (r: seq<ResetToken>)
    ensures forall t :: t in r <==> t in tokens && t.userId == userId
  {
    if tokens == [] then []
    else (if tokens[0].userId == userId then [tokens[0]] else []) + TokensOf(tokens[1..], userId)
  }

  /** `deleteMany({ where: { userId } })`: the table without that user's rows. */
  function WithoutTokensOf(tokens: seq<ResetToken>, userId: nat): (r: seq<ResetToken>)
    ensures forall t :: t in r <==> t in tokens && t.userId != userId
    ensures |r| <= |tokens|
  {
    if tokens == [] then []
    else (if tokens[0].userId != userId then [tokens[0]] else []) + WithoutTokensOf(tokens[1..], userId)
  }

  /** The token table after a reset request for `t.userId`: that user's old rows deleted, `t` appended. */
  function IssueToken(tokens: seq<ResetToken>, t: ResetToken): (r: seq<ResetToken>)
    ensures |r| >= 1 && r[|r| - 1] == t
    ensures forall x :: x in r <==> x == t || (x in tokens && x.userId != t.userId)
  {
    WithoutTokensOf(tokens, t.userId) + [t]
  }

  lemma {:induction false} TokensOfAppend(a: seq<ResetToken>, b: seq<ResetToken>, userId: nat)
    ensures TokensOf(a + b, userId) == TokensOf(a, userId) + TokensOf(b, userId)
  {
    if a != [] {
      assert (a + b)[1..] == a[1..] + b;
      TokensOfAppend(a[1..], b, userId);
    } else {
      assert a + b == b;
    }
  }

  /** After `deleteMany` for a user, no row of that user is left. */
  lemma {:induction false} DeleteLeavesNoneOf(tokens: seq<ResetToken>, userId: nat)
    ensures TokensOf(WithoutTokensOf(tokens, userId), userId) == []
  {
    if tokens != [] {
      var head := if tokens[0].userId != userId then [tokens[0]] else [];
      TokensOfAppend(head, WithoutTokensOf(tokens[1..], userId), userId);
      DeleteLeavesNoneOf(tokens[1..], userId);
    }
  }

  /** `deleteMany` filtered by one user id leaves every other user's rows as they were, in order. */
  lemma {:induction false} DeleteKeepsOthers(tokens: seq<ResetToken>, userId: nat, other: nat)
    requires other != userId
    ensures TokensOf(WithoutTokensOf(tokens, userId), other) == TokensOf(tokens, other)
  {
    if tokens != [] {
      var head := if tokens[0].userId != userId then [tokens[0]] else [];
      TokensOfAppend(head, WithoutTokensOf(tokens[1..], userId), other);
      DeleteKeepsOthers(tokens[1..], userId, other);
    }
  }

  /** After a token is issued, exactly one row belongs to its user: the new one. */
  lemma IssueLeavesExactlyOne(tokens: seq<ResetToken>, t: ResetToken)
    ensures TokensOf(IssueToken(tokens, t), t.userId) == [t]
  {
    TokensOfAppend(WithoutTokensOf(tokens, t.userId), [t], t.userId);
    DeleteLeavesNoneOf(tokens, t.userId);
  }

  /** Issuing a token leaves the rows of every other user untouched. */
  lemma IssueKeepsOthers(tokens: seq<ResetToken>, t: ResetToken, other: nat)
    requires other != t.userId
    ensures TokensOf(IssueToken(tokens, t), other) == TokensOf(tokens, other)
  {
    TokensOfAppend(WithoutTokensOf(tokens, t.userId), [t], other);
    DeleteKeepsOthers(tokens, t.userId, other);
  }

  /** Two requests for the same user still leave a single row for that user, the later one. */
  lemma IssueTwiceLeavesLatest(tokens: seq<ResetToken>, first: ResetToken, second: ResetToken)
    requires first.userId == second.userId
    ensures TokensOf(IssueToken(IssueToken(tokens, first), second), second.userId) == [second]
  {
    IssueLeavesExactlyOne(IssueToken(tokens, first), second);
  }

  /** The two tables, as the handlers see them through the database client. */
  class Database {
    var users: seq<User>
    var resetTokens: seq<ResetToken>
    /** The id the next created user receives. */
    var nextUserId: nat

    /** Emails and ids are unique, ids are below the next one, and every token row refers to a user. */
    ghost predicate Valid()
      reads this
    {
      (forall i, j :: 0 <= i < j < |users| ==> users[i].email != users[j].email && users[i].id != users[j].id)
      && (forall i :: 0 <= i < |users| ==> users[i].id < nextUserId)
      && (forall t :: t in resetTokens ==> t.userId in UserIds(users))
    }

    constructor ()
      ensures Valid()
      ensures users == [] && resetTokens == [] && nextUserId == 0
    {
      users, resetTokens, nextUserId := [], [], 0;
    }

    /** `prisma.user.create`: appends a row with a fresh id. The email column is unique. */
    method CreateUser(firstName: string, lastName: string, name: string, email: string,
                      password: Option<Digest>, role: Role) returns (u: User)
      requires Valid()
      requires !EmailTaken(users, email)
      modifies this
      ensures Valid()
      ensures u == User(old(nextUserId), firstName, lastName, name, email, password, role)
      ensures users == old(users) + [u]
      ensures resetTokens == old(resetTokens)
      ensures nextUserId == old(nextUserId) + 1
    {
      u := User(nextUserId, firstName, lastName, name, email, password, role);
      assert forall i :: 0 <= i < |users| ==> users[i] in users;
      users := users + [u];
      nextUserId := nextUserId + 1;
    }

    /** `prisma.passwordResetToken.deleteMany({ where: { userId } })`. */
    method DeleteResetTokensOf(userId: nat)
      requires Valid()
      modifies this
      ensures Valid()
      ensures resetTokens == WithoutTokensOf(old(resetTokens), userId)
      ensures users == old(users) && nextUserId == old(nextUserId)
    {
      resetTokens := WithoutTokensOf(resetTokens, userId);
    }

    /** `prisma.passwordResetToken.create`: appends a row for an existing user. */
    method CreateResetToken(t: ResetToken)
      requires Valid()
      requires t.userId in UserIds(users)
      modifies this
      ensures Valid()
      ensures resetTokens == old(resetTokens) + [t]
      ensures users == old(users) && nextUserId == old(nextUserId)
    {
      resetTokens := resetTokens + [t];
    }
  }
}
