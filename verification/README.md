# Portfolio API — a verified model of its credential flow and ownership guard

The Portfolio API stores contacts, projects and timeline entries per user
account. Anyone may list a user's records; creating, changing and deleting
records needs a bearer token issued by login. This project models the API as
a state machine: the state is the credential collection and the three
resource collections, and every endpoint is a pure transition from a state to
a new state and a response.

- `Auth` — credentials (username and password digest), `get_user`, signup,
  login, and the resolution of a bearer token to the principal of a request.
  The credential collection is a sequence in the store's fetch order, so "the
  first credential the query returns" is meaningful; uniqueness of usernames
  is an invariant that signup keeps, not a property of the type.
- `Resource` — the one service pattern the three resources share: listing by
  owner, create with the owner forced to the principal, and update and delete
  behind the ownership guard. A collection is a map from the store's opaque
  keys to documents, each carrying its owner's username and the
  type-specific fields.
- `Records` — the fields of contacts, projects and timeline entries, the
  `edu | work` activity type, and the construction of a project record from
  its request parameters.
- `Stack` — the normalisation `stack.replace(' ', '').split(',')`.
- `Portfolio` — the state, the requests and responses of all fourteen
  endpoints, the dispatcher `Step`, and the security properties stated over
  every request: only signup touches credentials and keeps usernames unique;
  a resource request changes only what its authenticated caller owns, never
  changes an owner, and gives every new document to the caller.
- `Wrappers`, `Http` — `Option`/`Result`, and the HTTP errors the endpoints
  raise outside the response envelope.

The password digest is a parameter of every function that needs it: any
function from text to text, not assumed to be injective. A bearer token is
reduced to its subject claim; a request whose token is missing, malformed or
expired carries no token at all.

Three behaviours of the code that a reader might expect to be otherwise, and
that the model keeps as written:
- The stack text is not trimmed item by item: every space is removed,
  interior ones included, and empty items are kept (`"a,,b"` gives
  `["a", "", "b"]`, `""` gives `[""]`).
- A change or delete of a key that is not stored is not a distinct
  "not found" outcome: the handler indexes the missing record and fails, which
  the model gives as an internal server error with the state unchanged.
- The success message of creating a contact is "Fetch contact success", the
  listing message, as main.py:146 writes it.

## Model

| member | source | states |
|---|---|---|
| Stack.RemoveSpaces | main.py:218 | no space remains after `replace(' ', '')` |
| Stack.RemoveSpacesCount | main.py:218 | every character other than a space occurs as often as before |
| Stack.RemoveSpacesAppend | main.py:218 | removing spaces distributes over concatenation, so the kept characters keep their order |
| Stack.RemoveSpacesKeeps | main.py:218 | a text without spaces is returned as it is |
| Stack.RemoveSpacesIdempotent | main.py:218 | removing spaces twice equals removing them once |
| Stack.RemoveSpaceBetween | main.py:218 | a single space between two space-free texts vanishes |
| Stack.Split | main.py:218 | `split(',')` yields one more segment than there are separators, none containing the separator |
| Stack.SplitAvoids | main.py:218 | a character absent from the text is absent from every segment |
| Stack.JoinSplit | main.py:218 | joining the segments with the separator reproduces the split text |
| Stack.SplitJoin | main.py:218 | splitting a join of separator-free parts gives back the parts |
| Stack.Normalize | main.py:274 | the stored stack has one item more than the parameter has commas, no item holds a space or a comma, and joining the items with `,` gives the parameter with its spaces removed |
| Stack.NormalizeKeepsEmptySegments | main.py:218 | `""` becomes `[""]` and `"a,,b"` becomes `["a", "", "b"]` |
| Stack.NormalizeDropsSpaces | main.py:218 | `"a, b ,c"` becomes `["a", "b", "c"]` |
| Stack.NormalizeTwoItems | main.py:218 | `"go, rust"` becomes `["go", "rust"]` |
| Records.ParseActType | main.py:21-23 | an activity type is accepted exactly for `edu` and `work`, and names the value it parsed |
| Records.ParseActTypeName | main.py:21-23 | parsing each enumeration value's wire name returns that value |
| Records.MakeProject | main.py:213-222 | a project record keeps every request parameter and holds the stack normalised |
| Auth.FirstMatch | main.py:79-81 | the position found holds the username and no earlier credential does |
| Auth.GetUser | main.py:77-83 | a credential is returned exactly when one carries the username; it is the first such in fetch order |
| Auth.GetUserUnique | main.py:77-83 | with unique usernames, the lookup returns a credential exactly when it is stored |
| Auth.Signup | main.py:89-101 | a taken username fails with 400 "User Already Exist" and changes nothing; otherwise exactly one credential with the password's digest is appended and "{username} saved" is returned; unique usernames stay unique |
| Auth.SignupRejectsRegistered | main.py:91-98 | after a successful signup, another signup with that username fails whatever the password, storing nothing |
| Auth.Login | main.py:104-121 | login succeeds exactly when the first credential for the username holds the password's digest; the token's subject is the username; otherwise 401 |
| Auth.LoginUnique | main.py:109-115 | with unique usernames, login succeeds exactly when the username is stored with this password's digest |
| Auth.SignupThenLogin | main.py:89-121 | after a successful signup the same password logs in, its token resolves to the new credential, and a password with another digest is refused |
| Auth.Resolve | main.py:77-83 | a bearer token yields a principal exactly when its subject is a stored username; the principal is that user's credential |
| Resource.List | main.py:124-132 | the listing holds exactly the stored documents whose owner is the path username, unchanged, with status 200 |
| Resource.ListingPartition | main.py:194-202 | each document is listed under its owner and under nobody else |
| Resource.Create | main.py:134-148 | one new key is added holding the fields with the principal as owner; every existing document is unchanged; the reply echoes the new record |
| Resource.CreateThenList | main.py:204-229 | creating adds the new document to the creator's listing only |
| Resource.Delete | main.py:150-167 | a missing key fails with state unchanged; a non-owner gets the 401 envelope with empty data and state unchanged; the owner removes exactly that key, keeps every other, and gets the prior record with its key and status 200 |
| Resource.DeleteThenList | main.py:231-248 | an owner's delete removes exactly that key from every listing |
| Resource.DeleteTwice | main.py:325-343 | deleting the same key again finds nothing and changes nothing |
| Resource.Update | main.py:169-192 | a missing key fails with state unchanged; a non-owner gets the 401 envelope and state unchanged; the owner's update keeps the keys and the owner, replaces the fields at that key only, and echoes the new record |
| Resource.UpdateThenList | main.py:250-285 | an owner's update moves no document between listings |
| Resource.UpdateIdempotent | main.py:346-381 | repeating an owner's update with the same fields changes nothing further |
| Portfolio.Actor | main.py:135 | a resource request acts as someone exactly when it is not a listing and its token's subject is registered, and then as that subject |
| Portfolio.Serve | main.py:134-192 | a resource request changes only documents its caller owns, changes no owner, gives new documents to the caller, and with a token that does not resolve raises 401 and changes nothing |
| Portfolio.Step | main.py:89-381 | login changes nothing; only signup changes the credentials and keeps usernames unique; each request touches only its own collection, and there only what its authenticated caller owns |
| Portfolio.NonOwnerRejected | main.py:150-178 | an authenticated caller who does not own the key gets `{status 401, success false, data {}}` from change and delete, with the collection unchanged |
| Portfolio.CreateOwnedByCaller | main.py:134-142 | whatever the request holds, the created document belongs to the token's subject, under one new key, with every other document unchanged |
| Portfolio.AliceSignup | main.py:89-101 | signing up alice from the empty state stores one credential and answers "alice saved" |
| Portfolio.AliceLogsIn | main.py:104-121 | alice's login with her password issues a token for "alice" and changes nothing |
| Portfolio.AliceCreatesProject | main.py:204-223 | alice's create stores the project under the new key with alice as owner |
| Portfolio.AliceCreatesGoRust | main.py:213-223 | a project created with stack "go, rust" is stored with stack `["go", "rust"]` |
| Portfolio.AliceListsHerProject | main.py:194-202 | alice's project listing is exactly her one project |
| Portfolio.ForeignDeleteSetup | main.py:89-148 | two signups and alice's create give the state with alice's contact "c1" |
| Portfolio.ForeignDeleteScenario | main.py:150-167 | bob, with a valid token, deleting alice's contact gets the 401 envelope, the state is unchanged, and alice's listing still shows the contact |

## Left out

- FastAPI routing, dependency injection, the `/` redirect, response-model
  serialisation and pydantic `AnyUrl` validation: framework boundary
  behaviour. Validation of `acttype` is modelled only as `ParseActType`;
  requests in the model carry an already valid activity type.
- The document store's internals: each collection is a map (resources) or a
  sequence in fetch order (credentials); the store's choice of a new key is
  the `newKey` parameter of `Step`, required to be unused. The store's key of
  a credential is not modelled.
- The store's update merges the given fields into the stored document; every
  update handler passes every field, so the model replaces the fields.
- MD5: the digest is an uninterpreted function parameter. Salting and slow
  hashing are not implemented by the code and not modelled.
- Token signing, expiry and decoding: a token is its subject claim, and a
  missing, malformed or expired token is the absent token. The token library's
  reaction to a subject that resolves to no user is not part of this model;
  the model raises 401 "Invalid credentials" for it.
- `get_user` swallowing every lookup failure, store outages included: store
  failures are not modelled, so a miss is only a miss.
- `jsonable_encoder`: the project record is stored as built.
- Concurrency between requests and last-write-wins races: requests are
  applied one at a time.
- Auth.SignupThenLogin: a wrong password is proved refused only when its
  digest differs from the stored one, because the digest is not assumed
  injective.
