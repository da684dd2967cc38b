/**
 The credential flow: the credential collection, `get_user`, signup, login
 and the resolution of a bearer token to the principal of a request.
 The password digest is a parameter: any function from text to text,
 not assumed to be injective.
 */
module Auth {
  import opened Wrappers
  import opened Http

  /** A stored credential: the username and the digest of the password. */
  datatype Credential = Credential(username: string, password: string)

  /** A bearer token, reduced to the subject claim it carries. */
  datatype Token = Token(sub: string)

  /** Signup's effect: the credential collection afterwards and the reply. */
  datatype SignupOutcome = SignupOutcome(users: seq<Credential>, reply: Result<string, HttpError>)

  /** No two credentials share a username. */
  ghost predicate UniqueUsernames(users: seq<Credential>)
  {
    forall i, j :: 0 <= i < |users| && 0 <= j < |users| && users[i].username == users[j].username ==> i == j
  }

  /** Some credential carries this username. */
  ghost predicate Registered(users: seq<Credential>, username: string)
  {
    exists i :: 0 <= i < |users| && users[i].username == username
  }

  /** Position of the first credential with this username, or |users| when there is none. */
  function FirstMatch(users: seq<Credential>, username: string): (i: nat)
    ensures i <= |users|
    ensures i < |users| ==> users[i].username == username
    ensures forall j :: 0 <= j < i ==> users[j].username != username
  {
    if |users| == 0 then 0
    else if users[0].username == username then 0
    else 1 + FirstMatch(users[1..], username)
  }

  /** `get_user`: the first credential the username query returns, or nothing. */
  function GetUser(users: seq<Credential>, username: string): (r: Option<Credential>)
    ensures r.Some? <==> Registered(users, username)
    ensures r.Some? ==> r.value in users && r.value.username == username
    ensures r.Some? ==> exists i :: 0 <= i < |users| && users[i] == r.value &&
                                   forall j :: 0 <= j < i ==> users[j].username != username
  {
    var i := FirstMatch(users, username);
    if i < |users| then Some(users[i]) else None
  }

  /** `signup`: refuse a taken username, otherwise store the username with the password's digest. */
  function Signup(digest: string -> string, users: seq<Credential>, username: string, password: string): (o: SignupOutcome)
    ensures Registered(users, username) ==> o == SignupOutcome(users, Failure(UserAlreadyExist))
    ensures !Registered(users, username) ==>
              o == SignupOutcome(users + [Credential(username, digest(password))], Success(username + " saved"))
    ensures UniqueUsernames(users) ==> UniqueUsernames(o.users)
  {
    if GetUser(users, username).Some? then SignupOutcome(users, Failure(UserAlreadyExist))
    else SignupOutcome(users + [Credential(username, digest(password))], Success(username + " saved"))
  }

  /** `login`: a token for the username when the first credential for it holds the password's digest. */
  function Login(digest: string -> string, users: seq<Credential>, username: string, password: string): (r: Result<Token, HttpError>)
    ensures r.Success? <==> exists i :: 0 <= i < |users| && users[i] == Credential(username, digest(password)) &&
                                         forall j :: 0 <= j < i ==> users[j].username != username
    ensures r.Success? ==> r.value.sub == username
    ensures r.Failure? ==> r.error == InvalidCredentials
  {
    var user := GetUser(users, username);
    if user.None? then Failure(InvalidCredentials)
    else if digest(password) != user.value.password then Failure(InvalidCredentials)
    else Success(Token(username))
  }

  /** The principal of a request: the credential named by the bearer token's subject. */
  function Resolve(users: seq<Credential>, token: Option<Token>): (r: Result<Credential, HttpError>)
    ensures r.Success? <==> token.Some? && Registered(users, token.value.sub)
    ensures r.Success? ==> r.value in users && r.value.username == token.value.sub
    ensures r.Failure? ==> r.error == InvalidCredentials
  {
    if token.None? then Failure(InvalidCredentials)
    else
      var user := GetUser(users, token.value.sub);
      if user.None? then Failure(InvalidCredentials) else Success(user.value)
  }

  /** With unique usernames the lookup finds a credential exactly when it is stored. */
  lemma GetUserUnique(users: seq<Credential>, c: Credential)
    requires UniqueUsernames(users)
    ensures GetUser(users, c.username) == Some(c) <==> c in users
  {
    if c in users {
      var k :| 0 <= k < |users| && users[k] == c;
      var i := FirstMatch(users, c.username);
      assert i == k;
    }
  }

  /** With unique usernames, login succeeds exactly when the username is stored with this password's digest. */
  lemma LoginUnique(digest: string -> string, users: seq<Credential>, username: string, password: string)
    requires UniqueUsernames(users)
    ensures Login(digest, users, username, password).Success? <==> Credential(username, digest(password)) in users
  {
    GetUserUnique(users, Credential(username, digest(password)));
  }

  /** A second signup with a registered username fails whatever the password, and stores nothing. */
  lemma SignupRejectsRegistered(digest: string -> string, users: seq<Credential>, username: string, p: string, q: string)
    requires Signup(digest, users, username, p).reply.Success?
    ensures var after := Signup(digest, users, username, p).users;
            Signup(digest, after, username, q) == SignupOutcome(after, Failure(UserAlreadyExist))
  {
    var after := Signup(digest, users, username, p).users;
    assert after[|users|].username == username;
  }

  /**
   Login round trip: after a successful signup the same password logs in, the
   token resolves to the new credential, and a password with a different
   digest is refused.
   */
  lemma SignupThenLogin(digest: string -> string, users: seq<Credential>, username: string, password: string, other: string)
    requires UniqueUsernames(users)
    requires Signup(digest, users, username, password).reply.Success?
    ensures var after := Signup(digest, users, username, password).users;
            && Login(digest, after, username, password) == Success(Token(username))
            && Resolve(after, Some(Token(username))) == Success(Credential(username, digest(password)))
            && (digest(other) != digest(password) ==> Login(digest, after, username, other) == Failure(InvalidCredentials))
  {
    var after := Signup(digest, users, username, password).users;
    var c := Credential(username, digest(password));
    assert after[|users|] == c;
    GetUserUnique(after, c);
  }
}
