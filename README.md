# Assignment service: request-decision layer

A model of the request handlers of a small HTTP service (`app.js`) that
stores "assignments" owned by users. The model covers four pieces:

- **Health prober** (`GET /healthz`). A query with at least one parameter
  gives 400. Otherwise a parsed body with at least one key gives 400. So
  `/healthz?`, a body `{}` or `[]`, or no parsed body at all, reach the probe
  of the database, which decides: 200 or 503.
  Every branch sends `Cache-Control: no-cache, no-store, must-revalidate`,
  `Pragma: no-cache` and an empty body.
- **Credential extraction**. This part repeats in the POST, PUT and DELETE
  handlers. It takes the second space-separated token of the
  `Authorization` header, or `""`. It base64-decodes that token and splits
  the result on `:` into `[email, password]`.
- **Ownership links**. Creating an assignment also records a link keyed
  `${user.id}_${assignment.id}`. PUT and DELETE run a fixed cascade: unknown
  user gives 404, then unknown assignment gives 404, then a missing link
  gives 403. Only then does the mutation go ahead.
- **PATCH** on an assignment always answers 405.

Modules. `Health` is the health prober, `Credentials` the credential
extraction, and `Ownership`, `Assignments` and `AssignmentStore` together
the ownership links, the handlers and PATCH. `Wrappers` is a utility.
In detail:

- `Wrappers` is an `Option` type.
- `Credentials` holds JavaScript's `split`, its inverse `join` and the
  header parsing.
- `Health` holds the `/healthz` decision.
- `Ownership` holds the link key and its injectivity.
- `Assignments` is the pure specification. It has the store as a value
  (`StoreState`) and one function per mutating handler (POST, PUT, DELETE)
  from the old store to the new store and the response. It also holds the store invariant `Consistent`
  and the lemmas.
- `AssignmentStore.Store` is a class with the three collections as fields:
  users by email, assignments by id, link keys as a set. Its methods do the
  handlers' steps in place. The `ensures` of `Create`, `Update` and
  `Delete` tie the new state and the response to the specification
  function, and these three keep `Valid()`. `GetAll`, `GetById` and `Patch`
  change nothing and state their response directly.

Abstracted inputs:

- The database probe of `/healthz` is the boolean `storeReachable`.
- The base64 decoder is a function parameter `decode`. The one fact built
  in is that the empty token decodes to the empty string.
- The id the database generates for a new assignment is the parameter
  `freshId`. It must not already be in use.

No handler contract mentions the password: those of `Create`, `Update` and
`Delete` use only `Extract(…).email`. The password is never checked against the stored hash in these
handlers.

The split on `:` departs from section 2 of RFC 7617. The RFC makes the
password everything after the first colon. `split(':')` keeps only the text
between the first and second colons (`PasswordCutAtSecondColon`). The model
follows the code. The password is never used, so this has no effect on any
response.

Two facts about the code's parsing:

- `split(':')` is a plain split, not a split at the first colon.
- A token that is not valid base64 is not mapped to empty credentials on
  purpose. The handler uses whatever the decoder returns, possibly empty,
  up to its first colon.

The link key is injective when user ids contain no `_`
(`LinkKeyInjective`); `LinkKeyCollidesWithUnderscores` shows a collision
otherwise. User ids are version-4 UUIDs (`models/user.js:13`), so they never
contain `_`. The store invariant records this.

## Model

| member | source | states |
|---|---|---|
| `Credentials.Split` | Akshit_Kallepalli_002771603_03/app.js:64-66 | `split` with a one-character separator gives at least one field, no field contains the separator, and there is one field more than separators |
| `Credentials.JoinSplit` | Akshit_Kallepalli_002771603_03/app.js:64-66 | joining the fields of a split with the separator gives back the original string |
| `Credentials.SplitJoin` | Akshit_Kallepalli_002771603_03/app.js:64-66 | splitting the join of separator-free fields gives back exactly those fields |
| `Credentials.Extract` | Akshit_Kallepalli_002771603_03/app.js:63-66 | the extracted email, and the password when there is one, contain no colon; the empty token decodes to `""`, so any header whose token is empty gives the empty email (`MissingTokenGivesEmptyEmail`, `EmptyTokenGivesEmptyEmail`) |
| `Credentials.SchemeToken` | Akshit_Kallepalli_002771603_03/app.js:63-64 | the token taken from the header never contains a space; `SchemeTokenOfBasicHeader` shows it is exactly the second field of `scheme token`, and `MissingTokenGivesEmptyEmail` that it is `""` when there is no second field |
| `Credentials.EmailIsPrefixBeforeColon` | Akshit_Kallepalli_002771603_03/app.js:63-66 | the email is the decoded token up to its first colon: a colon-free prefix that is either all of the decoded text or followed by `:` |
| `Credentials.MissingTokenGivesEmptyEmail` | Akshit_Kallepalli_002771603_03/app.js:63-64 | a missing header, an empty header or a header with no space gives the empty token and the empty email with no password, not an error |
| `Credentials.EmptyTokenGivesEmptyEmail` | Akshit_Kallepalli_002771603_03/app.js:63-66 | any header whose second space-separated field is missing or empty, such as `Basic ` or `Basic  abc`, gives the empty email with no password, not an error |
| `Credentials.SchemeAloneGivesEmptyToken` | Akshit_Kallepalli_002771603_03/app.js:63-64 | a scheme followed by one space and nothing else, such as `Basic `, leaves the token empty |
| `Credentials.SchemeTokenOfBasicHeader` | Akshit_Kallepalli_002771603_03/app.js:63-64 | for a header `scheme token` with no spaces inside either part, the token extracted is exactly `token` |
| `Credentials.ExtractOfEncodedPair` | Akshit_Kallepalli_002771603_03/app.js:63-66 | round trip: a header whose token decodes to `email:password` (both colon-free) yields exactly that email and password |
| `Credentials.PasswordCutAtSecondColon` | Akshit_Kallepalli_002771603_03/app.js:66 | a decoded `email:p1:p2` yields password `p1`, not `p1:p2` as RFC 7617 would |
| `Health.Healthz` | Akshit_Kallepalli_002771603_03/app.js:16-43 | every branch, including the 503 one, sets both cache-prevention headers and an empty body, and the status is 200, 400 or 503 |
| `Health.QueryRejectedFirst` | Akshit_Kallepalli_002771603_03/app.js:18-22 | a non-empty query gives 400, and the response does not depend on the body or on whether the store is reachable |
| `Health.BodyRejectedSecond` | Akshit_Kallepalli_002771603_03/app.js:23-27 | with no query, a non-empty body gives 400 whether or not the store is reachable |
| `Health.ProbeDecidesWellShaped` | Akshit_Kallepalli_002771603_03/app.js:28-41 | with no query and no body, the status is 200 when the store is reachable and 503 when it is not |
| `Health.OkExactly` | Akshit_Kallepalli_002771603_03/app.js:18-35 | 200 is answered if and only if query and body are empty and the store is reachable |
| `Ownership.LinkKey` | Akshit_Kallepalli_002771603_03/app.js:83 | the key reads back as the user id, then `_`, then the assignment id, at fixed positions; the same key is built at app.js:145 and app.js:194 |
| `Ownership.LinkKeyInjective` | Akshit_Kallepalli_002771603_03/app.js:83 | when user ids contain no `_`, equal link keys have equal user ids and equal assignment ids |
| `Ownership.LinkKeyCollidesWithUnderscores` | Akshit_Kallepalli_002771603_03/app.js:83 | without that condition two different (user, assignment) pairs share a key |
| `Assignments.Authorize` | Akshit_Kallepalli_002771603_03/app.js:132-152 | the gate shared by PUT and DELETE (also app.js:182-200): UserNotFound exactly when the email is unknown, AssignmentNotFound exactly when the user is known and the id is not, Allowed exactly when both are found and their link key is stored, and then it returns those records and that key |
| `Assignments.CreateOutcome` | Akshit_Kallepalli_002771603_03/app.js:60-94 | POST answers 201 exactly when the email is known and 404 "User not found" with the store unchanged otherwise; users never change, assignments and links only grow, and on 201 the new assignment and the returned key are stored |
| `Assignments.UpdateOutcome` | Akshit_Kallepalli_002771603_03/app.js:122-164 | PUT answers 200 exactly when the gate allows it, otherwise 403 or 404; users, links and the set of assignment ids never change |
| `Assignments.DeleteOutcome` | Akshit_Kallepalli_002771603_03/app.js:172-207 | DELETE answers 200 exactly when the gate allows it, otherwise 403 or 404; users never change, links and assignments only shrink, and on 200 the id is gone |
| `Assignments.Consistent` | Akshit_Kallepalli_002771603_03/app.js:76-87 | the store invariant; it implies every stored assignment has an owner and its owner's link is stored |
| `Assignments.LinksOnePerAssignment` | Akshit_Kallepalli_002771603_03/app.js:83-87 | a consistent store holds exactly as many links as assignments: one per assignment |
| `Assignments.LinkOfConsistent` | Akshit_Kallepalli_002771603_03/app.js:83-87 | in a consistent store the link for a user and an assignment exists exactly when that user created the assignment |
| `Assignments.AuthorizeAllowsExactlyOwner` | Akshit_Kallepalli_002771603_03/app.js:132-152 | for a known user and an existing assignment, the gate allows exactly the owner and answers NotOwner to everyone else |
| `Assignments.CreateUnknownUser` | Akshit_Kallepalli_002771603_03/app.js:68-72 | creation with an unknown email answers 404 "User not found" and leaves the store unchanged |
| `Assignments.CreateAddsOneAssignmentAndOneLink` | Akshit_Kallepalli_002771603_03/app.js:74-94 | creation with a known email answers 201, adds exactly one assignment under the fresh id and exactly one new link `userId_freshId`, returns that key as `concatenatedId`, and leaves users unchanged |
| `Assignments.CreatePreservesConsistency` | Akshit_Kallepalli_002771603_03/app.js:76-87 | creation keeps the store invariant, with the creator recorded as owner of the new assignment |
| `Assignments.OwnershipRoundTrip` | Akshit_Kallepalli_002771603_03/app.js:83-199 | right after user U creates assignment A, U passes the gate, and U's PUT and DELETE of A answer 200; any known user with a different id gets NotOwner and 403 from both |
| `Assignments.UpdateCheckOrder` | Akshit_Kallepalli_002771603_03/app.js:132-152 | PUT answers 404 "User not found" before any assignment lookup, then 404 "Assignment not found" before any link lookup, then 403; every non-200 answer leaves the store unchanged |
| `Assignments.DeleteCheckOrder` | Akshit_Kallepalli_002771603_03/app.js:182-200 | DELETE runs the same cascade with its own 403 message; every rejection leaves the store unchanged |
| `Assignments.UpdateChangesOnlyTarget` | Akshit_Kallepalli_002771603_03/app.js:154-164 | an allowed PUT answers 200 with the updated assignment; only the four fields of the targeted assignment change, while other assignments, all links and all users stay the same |
| `Assignments.UpdatePreservesConsistency` | Akshit_Kallepalli_002771603_03/app.js:154-162 | PUT keeps the store invariant with the owners unchanged |
| `Assignments.DeleteRemovesExactlyTarget` | Akshit_Kallepalli_002771603_03/app.js:203-207 | an allowed DELETE answers 200 and removes exactly the targeted assignment and exactly its link; users stay the same |
| `Assignments.DeletePreservesConsistency` | Akshit_Kallepalli_002771603_03/app.js:203-205 | DELETE keeps the store invariant and forgets the owner of the removed assignment |
| `AssignmentStore.Store.constructor` | models/user.js:10-14 | a store starts from loaded users whose ids contain no `_` (version-4 UUIDs), with no assignments and no links, and is consistent |
| `AssignmentStore.Store.Create` | Akshit_Kallepalli_002771603_03/app.js:60-94 | the in-place POST handler: the new state and response are those of `CreateOutcome` for the extracted email, the invariant holds, and the creator becomes owner on 201 |
| `AssignmentStore.Store.Update` | Akshit_Kallepalli_002771603_03/app.js:122-164 | the in-place PUT handler: the new state and response are those of `UpdateOutcome` for the extracted email, and the invariant and owners are kept |
| `AssignmentStore.Store.Delete` | Akshit_Kallepalli_002771603_03/app.js:172-207 | the in-place DELETE handler: the new state and response are those of `DeleteOutcome` for the extracted email, the invariant holds, and the owner record goes with the assignment on 200 |
| `AssignmentStore.Store.GetAll` | Akshit_Kallepalli_002771603_03/app.js:46-51 | answers 200 with exactly the stored assignments |
| `AssignmentStore.Store.GetById` | Akshit_Kallepalli_002771603_03/app.js:103-114 | answers 200 with the stored assignment when the id exists and 404 "Assignment not found" otherwise, with no ownership check |
| `AssignmentStore.Store.Patch` | Akshit_Kallepalli_002771603_03/app.js:214-216 | answers 405 with its fixed message whatever the credentials, id, body or store contents |

## Left out

- Express wiring, the `PORT` setting, dotenv and `app.listen` (`app.js:1-13`, `app.js:223-229`): framework plumbing.
- The `basicAuth` middleware: `./auth` is not part of this model. Every handler is modelled from the point where the middleware has let the request through.
- `./db` and `./models/assignment` are not part of this model. The database is the three collections of `Store`. Generating an assignment id is the `freshId` parameter.
- Base64 and UTF-8 decoding: the `decode` parameter. The only fact built in is that `""` decodes to `""`.
- The database probe `sequelize.authenticate()`: the `storeReachable` boolean. Timeouts are part of "not reachable".
- The catch-all branches: 500 from GET, PUT and DELETE, and 400 from POST. They fire when the database throws an exception, which the model does not represent.
- PATCH's 500 branch (`app.js:217-219`): its `try` makes no database call, only the 405 reply, so the branch is reached only if sending the reply throws. The model does not represent that.
- Email and id lookups (`app.js:68`, `app.js:132`, `app.js:139`, `app.js:182`, `app.js:188`) are exact string equality on map keys. In the program, the database collation and the id column type decide, for example case-insensitive emails or ids cast to numbers. `./db` and `./models/assignment` are not part of this model.
- The POST body (`app.js:74-81`) is modelled as four well-typed fields, like PUT's. A missing or ill-typed field goes to `Assignment.create` as it is, and the model does not represent that.
- The crash window between the two writes of POST (`app.js:76-87`) and of DELETE (`app.js:203-205`). Each handler is modelled as finishing both writes.
- Concurrency between requests: each handler runs to completion, one at a time.
- Sequelize's handling of `undefined` fields in `assignment.update`: library behaviour. The body is modelled as supplying all four fields, which replace the old ones.
- `AssignmentStore.Store.GetAll`: returns the set of assignments. The order of the JSON array is the database's and is not modelled.
- Logging with `console.log` and `console.error` (`app.js:37`, `app.js:53`, `app.js:96`, `app.js:146`, `app.js:166`, `app.js:209`, `app.js:218`): output only, with no effect on any response or on the store.
- User and assignment timestamps (`account_created`, `account_updated`) and the JSON encoding of bodies: not modelled.
- `models/user.js`: the ORM schema, `sync()`, and the CSV bulk load with bcrypt hashing and UUID generation. These are I/O and foreign calls. The store starts from a given map of users.
