/**
 The whole API as a state machine: the credential collection and the three
 resource collections, with every endpoint a transition from a state to a
 new state and a response. Protected endpoints first resolve the bearer
 token to a principal, then run the resource handler as that principal.
 */
module Portfolio {
  import opened Wrappers
  import opened Http
  import opened Auth
  import opened Records
  import opened Resource

  /** A request to one resource service, carrying that resource's parameters `P`. */
  datatype Op<P> =
    | Fetch(username: string)
    | Add(token: Option<Token>, params: P)
    | Change(token: Option<Token>, key: Key, params: P)
    | Remove(token: Option<Token>, key: Key)

  datatype State = State(
    users: seq<Credential>,
    contacts: Store<ContactFields>,
    projects: Store<ProjectFields>,
    timelines: Store<TimelineFields>)

  datatype Request =
    | SignupReq(username: string, password: string)
    | LoginReq(username: string, password: string)
    | ContactReq(contactOp: Op<ContactFields>)
    | ProjectReq(projectOp: Op<ProjectParams>)
    | TimelineReq(timelineOp: Op<TimelineFields>)

  datatype Response =
    | Signed(signup: Result<string, HttpError>)
    | LoggedIn(login: Result<Token, HttpError>)
    | Contacts(contactReply: Reply<ContactFields>)
    | Projects(projectReply: Reply<ProjectFields>)
    | Timelines(timelineReply: Reply<TimelineFields>)

  datatype Outcome = Outcome(state: State, response: Response)

  /** The username a resource request acts as: its token's subject, when the token resolves. */
  function Actor<P>(users: seq<Credential>, op: Op<P>): (a: Option<string>)
    ensures a.Some? <==> !op.Fetch? && op.token.Some? && Registered(users, op.token.value.sub)
    ensures a.Some? ==> a.value == op.token.value.sub
  {
    if op.Fetch? then None
    else
      match Resolve(users, op.token)
      case Success(user) => Some(user.username)
      case Failure(_) => None
  }

  /**
   One resource endpoint: listing is open to everyone; add, change and
   remove first resolve the principal (a failure is raised as is) and then
   run the handler with the principal's username as the owner.
   */
  function Serve<P, F>(kind: Kind, users: seq<Credential>, store: Store<F>, op: Op<P>, build: P -> F, newKey: Key): (t: Transition<F>)
    requires newKey !in store
    ensures Confined(store, t.store, Actor(users, op))
    ensures !op.Fetch? && Resolve(users, op.token).Failure? ==>
              t == Transition(store, Raised(InvalidCredentials))
  {
    match op
    case Fetch(u) => Transition(store, Body(List(kind, store, u)))
    case Add(token, p) =>
      (match Resolve(users, token)
       case Failure(e) => Transition(store, Raised(e))
       case Success(user) => Create(kind, store, user.username, newKey, build(p)))
    case Change(token, key, p) =>
      (match Resolve(users, token)
       case Failure(e) => Transition(store, Raised(e))
       case Success(user) => Update(kind, store, user.username, key, build(p)))
    case Remove(token, key) =>
      (match Resolve(users, token)
       case Failure(e) => Transition(store, Raised(e))
       case Success(user) => Delete(kind, store, user.username, key))
  }

  /** The username a request acts as on the resource collections, if any. */
  function Acting(users: seq<Credential>, req: Request): Option<string>
  {
    match req
    case ContactReq(op) => Actor(users, op)
    case ProjectReq(op) => Actor(users, op)
    case TimelineReq(op) => Actor(users, op)
    case _ => None
  }

  /** A key the store may assign to the next new document. */
  predicate FreshKey(s: State, key: Key)
  {
    key !in s.contacts && key !in s.projects && key !in s.timelines
  }

  function Identity<T>(x: T): T { x }

  /**
   One request against the state. Only signup touches the credentials, and
   it keeps usernames unique; each resource request touches only its own
   collection and, there, only what its authenticated caller owns.
   */
  function Step(digest: string -> string, s: State, req: Request, newKey: Key): (o: Outcome)
    requires FreshKey(s, newKey)
    ensures req.LoginReq? ==> o.state == s
    ensures !req.SignupReq? ==> o.state.users == s.users
    ensures UniqueUsernames(s.users) ==> UniqueUsernames(o.state.users)
    ensures !req.ContactReq? ==> o.state.contacts == s.contacts
    ensures !req.ProjectReq? ==> o.state.projects == s.projects
    ensures !req.TimelineReq? ==> o.state.timelines == s.timelines
    ensures Confined(s.contacts, o.state.contacts, Acting(s.users, req))
    ensures Confined(s.projects, o.state.projects, Acting(s.users, req))
    ensures Confined(s.timelines, o.state.timelines, Acting(s.users, req))
  {
    match req
    case SignupReq(u, p) =>
      var so := Signup(digest, s.users, u, p);
      Outcome(s.(users := so.users), Signed(so.reply))
    case LoginReq(u, p) =>
      Outcome(s, LoggedIn(Login(digest, s.users, u, p)))
    case ContactReq(op) =>
      var t := Serve(ContactKind, s.users, s.contacts, op, Identity, newKey);
      Outcome(s.(contacts := t.store), Contacts(t.reply))
    case ProjectReq(op) =>
      var t := Serve(ProjectKind, s.users, s.projects, op, MakeProject, newKey);
      Outcome(s.(projects := t.store), Projects(t.reply))
    case TimelineReq(op) =>
      var t := Serve(TimelineKind, s.users, s.timelines, op, Identity, newKey);
      Outcome(s.(timelines := t.store), Timelines(t.reply))
  }

  /**
   Ownership guard at the endpoint: an authenticated caller who does not own
   the document at `key` gets the 401 envelope from change and from remove,
   and the collection is unchanged.
   */
  lemma NonOwnerRejected<P, F>(kind: Kind, users: seq<Credential>, store: Store<F>, op: Op<P>, build: P -> F, newKey: Key)
    requires newKey !in store
    requires op.Change? || op.Remove?
    requires Resolve(users, op.token).Success?
    requires op.key in store && store[op.key].username != op.token.value.sub
    ensures var t := Serve(kind, users, store, op, build, newKey);
            && t.store == store
            && t.reply == Body(Envelope(Unauthorized, false,
                                        "Cannot " + (if op.Change? then "change" else "delete") + " another person's " + kind.Noun(),
                                        Nothing))
  {
  }

  /** Owner forcing: whatever the request holds, a created document belongs to the token's subject. */
  lemma CreateOwnedByCaller<P, F>(kind: Kind, users: seq<Credential>, store: Store<F>, token: Token, p: P, build: P -> F, newKey: Key)
    requires newKey !in store
    requires Registered(users, token.sub)
    ensures var t := Serve(kind, users, store, Add(Some(token), p), build, newKey);
            && t.store.Keys == store.Keys + {newKey}
            && t.store[newKey] == Doc(token.sub, build(p))
            && (forall k :: k in store ==> t.store[k] == store[k])
  {
  }

  const Empty: State := State([], map[], map[], map[])

  /** The state after alice signed up with password "pw1". */
  function AliceSignedUp(digest: string -> string): State
  {
    State([Credential("alice", digest("pw1"))], map[], map[], map[])
  }

  /** The project request of the scenario, with its stack still one delimited text. */
  const GoRust: ProjectParams := ProjectParams("X", "2024", "", "go, rust", "", "", None)

  /** The project alice stores in the scenario, its stack already split. */
  function GoRustStored(): map<Key, Doc<ProjectFields>>
  {
    map["k1" := Doc("alice", ProjectFields("X", "2024", "", ["go", "rust"], "", "", None))]
  }

  /** Scenario, step 2: alice logs in with her password and receives a token for "alice". */
  lemma AliceLogsIn(digest: string -> string)
    ensures Step(digest, AliceSignedUp(digest), LoginReq("alice", "pw1"), "k0") ==
              Outcome(AliceSignedUp(digest), LoggedIn(Success(Token("alice"))))
  {
  }

  /** Scenario, step 3: with that token she creates a project whose stack is "go, rust"; it is stored split, owned by alice. */
  lemma AliceCreatesGoRust(digest: string -> string)
    ensures Step(digest, AliceSignedUp(digest), ProjectReq(Add(Some(Token("alice")), GoRust)), "k1").state ==
              AliceSignedUp(digest).(projects := GoRustStored())
  {
    AliceCreatesProject(digest, GoRust);
    GoRustFields();
  }

  /** Scenario, step 1: alice signs up with password "pw1". */
  lemma AliceSignup(digest: string -> string)
    ensures Step(digest, Empty, SignupReq("alice", "pw1"), "k0") == Outcome(AliceSignedUp(digest), Signed(Success("alice saved")))
  {
    assert [] + [Credential("alice", digest("pw1"))] == [Credential("alice", digest("pw1"))];
    assert "alice" + " saved" == "alice saved";
  }

  lemma AliceCreatesProject(digest: string -> string, p: ProjectParams)
    ensures Step(digest, AliceSignedUp(digest), ProjectReq(Add(Some(Token("alice")), p)), "k1").state ==
              AliceSignedUp(digest).(projects := map["k1" := Doc("alice", MakeProject(p))])
  {
  }

  lemma GoRustFields()
    ensures MakeProject(GoRust) == ProjectFields("X", "2024", "", ["go", "rust"], "", "", None)
  {
    Stack.NormalizeTwoItems();
  }

  /** Scenario, step 4: alice's project listing is exactly that one project. */
  lemma AliceListsHerProject(digest: string -> string)
    ensures Step(digest, AliceSignedUp(digest).(projects := GoRustStored()), ProjectReq(Fetch("alice")), "k2").response ==
              Projects(Body(Envelope(OK, true, "Fetch project success", Listing(GoRustStored()))))
  {
    assert OwnedBy(GoRustStored(), "alice") == GoRustStored();
    assert "Fetch " + "project" + " success" == "Fetch project success";
  }

  /** The state after alice and bob signed up and alice created contact "c1". */
  function AliceHasContact(digest: string -> string): State
  {
    State([Credential("alice", digest("pw1")), Credential("bob", digest("pw2"))],
          map["c1" := Doc("alice", ContactFields("Alice", "email", "mailto:alice@example.org"))], map[], map[])
  }

  /**
   Alice creates a contact; bob, holding a valid token of his own, tries to
   delete it: he gets the 401 envelope, and alice's listing still holds it.
   */
  lemma ForeignDeleteScenario(digest: string -> string)
    ensures var s := AliceHasContact(digest);
            Step(digest, s, ContactReq(Remove(Some(Token("bob")), "c1")), "c2") ==
              Outcome(s, Contacts(Body(Envelope(Unauthorized, false, "Cannot delete another person's contact", Nothing))))
    ensures var s := AliceHasContact(digest);
            Step(digest, s, ContactReq(Fetch("alice")), "c2").response ==
              Contacts(Body(Envelope(OK, true, "Fetch contact success", Listing(s.contacts))))
  {
    BobResolves(digest);
    ContactRejectionText();
    AliceListsHerContact(digest);
  }

  lemma BobResolves(digest: string -> string)
    ensures Resolve(AliceHasContact(digest).users, Some(Token("bob"))) == Success(Credential("bob", digest("pw2")))
  {
    assert AliceHasContact(digest).users[1].username == "bob";
  }

  lemma ContactRejectionText()
    ensures Rejection<ContactFields>(ContactKind, "delete") ==
              Envelope(Unauthorized, false, "Cannot delete another person's contact", Nothing)
  {
    assert ContactKind.Noun() == "contact";
    assert "Cannot " + "delete" == "Cannot delete";
    assert "Cannot delete" + " another person's " == "Cannot delete another person's ";
    assert "Cannot delete another person's " + "contact" == "Cannot delete another person's contact";
  }

  lemma AliceListsHerContact(digest: string -> string)
    ensures var s := AliceHasContact(digest);
            List(ContactKind, s.contacts, "alice") == Envelope(OK, true, "Fetch contact success", Listing(s.contacts))
  {
    var s := AliceHasContact(digest);
    assert OwnedBy(s.contacts, "alice") == s.contacts;
  }

  /** How the scenario's state arises: two signups, then alice's create. */
  lemma ForeignDeleteSetup(digest: string -> string)
    ensures var s1 := Step(digest, Empty, SignupReq("alice", "pw1"), "c0").state;
            var s2 := Step(digest, s1, SignupReq("bob", "pw2"), "c0").state;
            Step(digest, s2, ContactReq(Add(Some(Token("alice")), ContactFields("Alice", "email", "mailto:alice@example.org"))), "c1").state ==
              AliceHasContact(digest)
  {
  }
}
