# TrainNGain wager server, modelled in Dafny

TrainNGain lets two users bet points on a fitness challenge. The Node
server keeps three SQLite tables:

- `balances`: one row per account, holding its point balance, email,
  username, bio and password hash;
- `wagers`: one row per wager, with creator, receiver, description, amount,
  expiration, save time and status;
- `Friends`: pairs of user ids.

Each HTTP handler reads and writes these tables in a single step. This
project models the tables as a value `State` (`Tables`). The class `Db`
holds the same three tables as fields that its handler methods update in
place.

The modules are:

- `WagerRoutes`: the wager routes.
  - create inserts an 'incoming' wager;
  - the `/api/wagers` listing first sweeps the whole table for overdue wagers;
  - the pending listing expires lapsed 'pending' rows and filters what it returns;
  - the incoming listing;
  - respond: accept or reject;
  - resolve.

  Each route is a pure step function that states its guards and exact
  effects, plus a method on `Db`. The method's postcondition ties the new
  state to the step function. The listings are loops over the table and
  are proved to return exactly the selected rows, with distinct ids,
  ordered newest first by `save_time`.
- `Server`: the rest of the main server.
  - the balance read;
  - the unguarded update-balance delta;
  - the non-friends query;
  - add-friend;
  - the start-up seeding of an empty `balances` table.
- `AuthRoutes`:
  - the `verifyToken` middleware's parsing of the `Authorization` header,
    with JavaScript's `split(' ')`;
  - registration, with the duplicate-email check and a starting balance of 1000;
  - login.
- `SignUp`: the sign-up screen's checks.
  - `validateEmail`: the regular expression, modelled as a predicate and
    proved equal to a plain description;
  - the ordered guard chain of `handleSignUp`.
- `Lifecycle`: all table-changing handlers as one state machine on `State`.
  It proves the following over any sequence of requests:
  - no wager disappears, and none changes anything but its status;
  - statuses only move along the edges the handlers write;
  - no handler writes 'active', so resolve can never succeed;
  - 'expired' and 'completed' are final, but 'rejected' is not;
  - the escrow debits are commented out, so reject mints the wager's amount
    and resolve mints twice the amount.

The model follows the code as written. The intended design is an escrow,
where create and accept debit the stake. The code instead leaves both
debits commented out (`TrainNGain/server/wagerRoutes.js` 115-121 and
431-441) while still crediting on reject and resolve. The model keeps that
behaviour and proves its consequences.

Modelling conventions:

- A falsy JavaScript request field is "" for a string and 0 for a number.
- Timestamps are integers.
- Generated ids (`'wager_' + Date.now()`, `'user_' + Date.now()`) and the
  save time are parameters.
- The replies are result datatypes, not HTTP status codes.

## Model

| member | source | states |
|---|---|---|
| Tables.Credit | TrainNGain/server/wagerRoutes.js:462-463 | `balance = balance + ?` changes only the named account, by exactly the delta; an unknown id changes nothing |
| Tables.TotalCredit | TrainNGain/server/wagerRoutes.js:572-574 | a credit to an existing account raises the sum of all balances by exactly the delta, and one to an unknown id leaves the sum unchanged |
| WagerRoutes.CreateWager | TrainNGain/server/wagerRoutes.js:43-86 | a falsy receiver, description, amount or expiration is Validation; otherwise an unknown creator is NotFound and balance < amount is Insufficient; success inserts exactly one 'incoming' wager with the given fields; no outcome changes a balance, and a failure changes nothing |
| WagerRoutes.Create | TrainNGain/server/wagerRoutes.js:43-123 | the in-place create performs exactly the state change and reply of CreateWager |
| WagerRoutes.SelectNewestFirst | TrainNGain/server/wagerRoutes.js:162-164 | the loop returns exactly the table's rows the query picks, each once with its stored wager, ordered by save time descending |
| WagerRoutes.SweepExpired | TrainNGain/server/wagerRoutes.js:148-150 | over the whole table, only statuses change; every wager past its expiration that is not 'completed' ends 'expired', 'rejected' and 'pending' included; wagers not yet expired and 'completed' wagers are untouched |
| WagerRoutes.ListWagers | TrainNGain/server/wagerRoutes.js:141-177 | the sweep is applied to the whole table and nothing else changes; the reply is exactly the caller's wagers in either role, newest first |
| WagerRoutes.ExpireLapsed | TrainNGain/server/wagerRoutes.js:198-265 | only statuses change; a wager changes only if the JOIN selected it (caller a party, both parties in `balances`, 'pending' or 'approved') and it lapsed ('pending' with a set expiration before now), and then it goes from 'pending' to 'expired'; no selected row is left lapsed |
| WagerRoutes.PendingAnswer | TrainNGain/server/wagerRoutes.js:228-272 | the store updates queued by the loop over the selected rows are exactly ExpireLapsed; the kept rows are exactly the caller's wagers that are still 'pending' with both parties in `balances`, newest first |
| WagerRoutes.ListPending | TrainNGain/server/wagerRoutes.js:198-279 | the loop writes exactly ExpireLapsed and leaves balances and friends unchanged; it returns the caller's remaining 'pending' wagers whose parties both exist, newest first, and none of them has lapsed; 'approved' rows are selected but never returned |
| WagerRoutes.ListIncoming | TrainNGain/server/wagerRoutes.js:305-321 | exactly the 'incoming' wagers addressed to the caller whose parties both exist, newest first |
| WagerRoutes.Respond | TrainNGain/server/wagerRoutes.js:361-481 | the outcome is Validation iff the parameters are bad; NotFound iff no 'incoming' wager is addressed to the caller; accept is Crash when the caller has no balance row, and Insufficient when balance < amount; a successful accept only sets 'pending'; a successful reject sets 'rejected' and credits the creator the amount; a failure changes nothing |
| WagerRoutes.RespondTo | TrainNGain/server/wagerRoutes.js:361-481 | the in-place respond performs exactly the state change and reply of Respond |
| WagerRoutes.Resolve | TrainNGain/server/wagerRoutes.js:515-574 | success iff the ids are present, the caller created the wager, it is 'active', and the winner is one of its parties; success sets 'completed' and credits the winner twice the amount; a failure changes nothing |
| WagerRoutes.ResolveWager | TrainNGain/server/wagerRoutes.js:515-574 | the in-place resolve performs exactly the state change and reply of Resolve |
| Server.GetBalance | TrainNGain/server/server.js:102-113 | the stored balance for an existing account, and UserNotFound exactly when there is none |
| Server.UpdateBalance | TrainNGain/server/server.js:159-176 | a non-number is InvalidAmount and an unknown user NoSuchUser, both with no change; a number is added to the caller's balance, and nothing else in that row or any other row changes; the reply echoes the amount |
| Server.UpdateBalanceIn | TrainNGain/server/server.js:159-176 | the in-place update performs exactly the state change and reply of UpdateBalance |
| Server.UpdateThenRead | TrainNGain/server/server.js:159-167 | after a successful update, the balance read returns the old balance plus the amount |
| Server.UpdateCanGoNegative | TrainNGain/server/server.js:159-160 | nothing bounds the result: 10 minus 30 reads back as -20 |
| Server.NonFriends | TrainNGain/server/server.js:195-207 | v is returned iff v is an account, v is not the caller, and neither (caller, v) nor (v, caller) is in Friends |
| Server.NonFriendsSymmetric | TrainNGain/server/server.js:202-206 | for two accounts, u is a non-friend of v iff v is a non-friend of u |
| Server.AddFriend | TrainNGain/server/server.js:240-254 | a present friendId appends exactly (caller, friendId), with no self or duplicate check; a missing one is InvalidFriend with no change |
| Server.AddFriendIn | TrainNGain/server/server.js:240-254 | the in-place add-friend performs exactly the state change and reply of AddFriend |
| Server.AddFriendLinks | TrainNGain/server/server.js:241 | after adding, the two users leave each other's non-friends and every other user's non-friends are unchanged |
| Server.Seed | TrainNGain/server/server.js:36-72 | an empty `balances` table gets exactly user1 with 100 points and user2 with 200; a non-empty one is left alone |
| Server.SeedIfEmpty | TrainNGain/server/server.js:36-72 | the in-place seeding performs exactly Seed |
| Server.SeedIdempotent | TrainNGain/server/server.js:39 | seeding a second time changes nothing |
| AuthRoutes.Split | TrainNGain/server/authRoutes.js:200 | `split` on one character gives at least one part, and no part contains the separator |
| AuthRoutes.JoinSplit | TrainNGain/server/authRoutes.js:200 | joining the parts with the separator gives back the header |
| AuthRoutes.ParseAuthorizationToken | TrainNGain/server/authRoutes.js:194-206 | the header yields token t iff it is exactly "Bearer " followed by t, and t contains no space |
| AuthRoutes.ParseAuthorizationRejects | TrainNGain/server/authRoutes.js:200-204 | "Bearer  x" and "bearer x" are 'Invalid token format' |
| AuthRoutes.ParseAuthorizationEmptyToken | TrainNGain/server/authRoutes.js:206 | "Bearer " passes the format check with the empty token |
| AuthRoutes.ParseAuthorization | TrainNGain/server/authRoutes.js:194-206 | a missing or empty header is NoToken, and only such a header is |
| AuthRoutes.VerifyToken | TrainNGain/server/authRoutes.js:189-217 | `next` runs iff the header is "Bearer " plus a space-free token that the verifier accepts, and it runs as the user the token decodes to; a missing or empty header is denied with 'Access denied. No token provided.', any other header not of that form with 'Invalid token format', and a token the verifier refuses with 'Invalid token' |
| AuthRoutes.Register | TrainNGain/server/authRoutes.js:44-74 | a missing email, password or username is rejected; a taken email conflicts; a success inserts exactly one account under the fresh id, with 1000 points, an empty bio and the hash; no failure changes anything, and no outcome touches wagers or friends |
| AuthRoutes.RegisterIn | TrainNGain/server/authRoutes.js:44-74 | the in-place register performs exactly the state change and reply of Register |
| AuthRoutes.RegisterKeepsEmailsUnique | TrainNGain/server/authRoutes.js:50-74 | registration keeps emails unique and adds exactly one account when it succeeds |
| AuthRoutes.Login | TrainNGain/server/authRoutes.js:127-152 | missing credentials are rejected; an unknown email and a password mismatch give the same InvalidCredentials; login succeeds exactly for the account with that email when the password matches its hash |
| SignUp.TrimEmpty | TrainNGain/app/signup.tsx:25 | `!s.trim()` holds exactly when s consists of white space only |
| SignUp.ValidateEmail | TrainNGain/app/signup.tsx:18-21 | the regular expression as three runs of `[^\s@]` joined by an '@' and a '.'; an accepted address has at least five characters and contains '@' and '.' |
| SignUp.ValidateEmailRules | TrainNGain/app/signup.tsx:18-21 | the regular expression accepts s iff s has no white space, exactly one '@', something before it, and a '.' after it that is neither the first nor the last character of the domain |
| SignUp.ValidEmailNotBlank | TrainNGain/app/signup.tsx:30 | an address the regular expression accepts is never blank after trimming |
| SignUp.HandleSignUp | TrainNGain/app/signup.tsx:25-57 | the username, email, password-length and confirmation checks run in that order and the first failure picks the alert; `register` is called, with the untrimmed values, iff all checks pass |
| Lifecycle.ApplyEvolves | TrainNGain/server/wagerRoutes.js:29-583 | any request keeps every wager and its terms; it moves statuses only along the written edges, and every wager it adds is 'incoming' |
| Lifecycle.RunEvolves | TrainNGain/server/wagerRoutes.js:29-583 | over any sequence of requests every wager keeps its terms and moves only along the written edges, and every new wager has a status reachable from 'incoming' |
| Lifecycle.FinalStatusesAbsorb | TrainNGain/server/wagerRoutes.js:149 | an 'expired' or 'completed' wager is never changed again |
| Lifecycle.RejectedNotFinal | TrainNGain/server/wagerRoutes.js:148-150 | the sweep moves a 'rejected' wager past its expiration to 'expired' |
| Lifecycle.RunKeepsNoActive | TrainNGain/server/wagerRoutes.js:413 | if no wager starts out 'active', none is ever 'active' |
| Lifecycle.ResolveNeverSucceeds | TrainNGain/server/wagerRoutes.js:524-526 | from tables without an 'active' wager, resolve never succeeds after any sequence of requests |
| Lifecycle.CreateAcceptResolve | TrainNGain/server/wagerRoutes.js:524-543 | in the flow create, accept, resolve, the accepted wager is 'pending' and the creator's resolve is NotFound |
| Lifecycle.CreateAcceptConserve | TrainNGain/server/wagerRoutes.js:115-121 | create and accept leave every balance unchanged: no stake is taken |
| Lifecycle.RejectMints | TrainNGain/server/wagerRoutes.js:460-463 | a successful reject raises the total of all balances by the wager amount when the creator still has an account |
| Lifecycle.ResolveMints | TrainNGain/server/wagerRoutes.js:568-574 | a successful resolve raises the total of all balances by twice the amount when the winner has an account |
| Lifecycle.CreateRejectPays | TrainNGain/server/wagerRoutes.js:446-463 | after create and the receiver's reject, the creator is `amount` points richer than before, and so is the total |
| Lifecycle.NegativeAmountCreates | TrainNGain/server/wagerRoutes.js:43-76 | a negative amount passes create's checks |
| Lifecycle.RegisterThenBalance | TrainNGain/server/authRoutes.js:72-74 | a newly registered account reads back a balance of 1000 |
| Lifecycle.RegisterThenLogin | TrainNGain/server/authRoutes.js:133-152 | a newly registered user logs in as the new id with a password that matches the stored hash |

## Left out

- HTTP plumbing is not modelled: listener chaining, CORS headers, body
  streaming, `JSON.parse` failures and the `headersSent` guards. Replies are
  result datatypes rather than status codes and messages.
- Database errors (the 500 replies) are not modelled: every statement
  succeeds, except an INSERT whose generated key already exists (see below). Reject and resolve write the status before the balance, so a
  failure between the two writes would leave a status change without its
  credit.
- Timestamps become integers. This replaces SQLite's comparison of the TEXT
  `expiration_time` with a number in the sweep, and `new Date(...)` parsing
  in the pending listing.
- The `save_time` string and the `Date.now()` ids are parameters. A clash
  of a generated id with an existing key is modelled as an outcome that
  changes nothing (InsertFailed, IdTaken). Lifecycle.CreateAcceptResolve and
  Lifecycle.CreateRejectPays assume the generated wager id is non-empty, as
  `'wager_' + Date.now()` always is.
- bcrypt and JWT are abstract. The hash is a parameter, `bcrypt.compare` is
  a function parameter of Login, and `jwt.verify` is a function parameter
  of VerifyToken. The token that register and login sign is not part of the
  reply.
- Concurrency is not modelled. Each handler is one atomic step, so the gap
  between a balance check and the write that follows it is not captured.
- Amounts and balances are integers. `typeof amount === 'number'` also
  admits fractions and NaN, and the REAL balance column of the stand-alone
  schema script is not modelled.
- Columns that only feed the display are not returned: the usernames the
  pending and incoming listings JOIN in, and the non-friends usernames.
  The JOINs' effect on which rows are selected is modelled.
- WagerRoutes.ListPending merges the in-memory relabel with the filter. The
  route renames a lapsed row's copy to 'approval' and then filters on
  'pending'. The model drops that row directly, and returns the same rows.
- The commented-out escrow debits are not modelled.
- AuthRoutes.Login assumes the `email TEXT UNIQUE` constraint. With it, the
  row the lookup finds is the only one with that email.
  RegisterKeepsEmailsUnique shows that registration keeps the constraint.
- The `/api/user/profile` read at TrainNGain/server/server.js:121-145 is not
  modelled. It is a lookup outside the wager and ledger logic.
- The `useState` setters, the loading flag and navigation after
  `register` in the sign-up screen are user-interface state and are not
  modelled.
- Incoming listing, non-friends query and balance read are not requests of
  Lifecycle.Apply, since they change no table.
- The NOT IN subquery's treatment of NULL ids is not modelled. A friend id
  that reaches the table is always non-empty.
- Not modelled: the schema and seed scripts (`combinationAttempt.js`,
  `createTable.js`), the hello-world server (`index.js`), the logging HTTP
  script `test-wagers.js` (its create, accept, resolve flow is
  Lifecycle.CreateAcceptResolve), and the login, auth-context and
  friend-picker screens.
