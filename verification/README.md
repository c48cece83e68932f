# Ace Freelancing: session and ledger state machine

This project models the in-memory session and ledger logic of the Ace Freelancing browser demo (`app.js`). The demo is a marketplace where users register, sign in, receive awarded writing tasks, get paid for completing them, and pay through a simulated M-Pesa STK push.

The source keeps one global mutable `state` object. Here it is one immutable `AppState.State` value, and every handler is a pure function from one state to the next:

- `AppState` (state.dfy): the records (`User`, `Task`, `AwardedTask`, `Transaction`) and the state. It also defines the `Consistent` invariant: user ids, emails and transaction ids are unique, and a signed-in user is one of the users.
- `Ledger` (ledger.dfy): the dashboard totals. Each total filters the transactions by user, filters by kind, then takes a left-fold sum. The balance is money in plus earnings minus expenses. A single-pass signed sum, `Net`, gives an independent reference for the balance.
- `Awards` (awards.dfy): task completion. It removes every award with the completed id and appends one `earning` transaction.
- `Payment` (payment.dfy): the phone-number check of the STK push form and the bookkeeping after a successful payment. The bookkeeping appends an `expense` transaction and, for an activation payment, sets the `active` flag.
- `Identity` (identity.dfy): the login and registration form handlers. Each returns the next state plus an optional rejection, which stands for the error notification.

Inputs replace time and randomness. A fresh id comes from `generateId`, which uses `Date.now` and `Math.random`. A timestamp comes from `new Date().toISOString()`. The M-Pesa reference comes from the simulated push. Each of these is a parameter. Freshness of an id is a precondition only of the lemmas that prove the invariant is kept, not of the operations.

Ids are one type (`string`). The source compares award ids with loose `!=` (a number from the catalogue against a string from a `data-` attribute) and compares user ids with `===`. Both become equality here.

The model follows the code where a reader might expect otherwise:

- Completion does not check that the award exists, and it appends an earning on every call. Submitting the same id twice pays twice (`Awards.CompleteTaskTwice`). No `NotFound` error is raised.
- Completion removes awards with the id from every user, not just the signed-in one.
- No amount is validated: non-positive amounts are recorded as given.
- `processSuccessfulPayment` does not clear `paymentType`; whether its truncated caller does is not visible.
- Login looks for the first user whose email and password both match. It does not look up a user by email and then check the password.

## Model

| member | source | states |
|---|---|---|
| Ledger.TotalConcat | app.js:142-153 | each per-user, per-kind total of a concatenated ledger is the sum of the totals of its parts |
| Ledger.TotalAppend | app.js:142-153 | appending one transaction raises a user's total of a kind by its amount exactly when it has that user and kind, and leaves it unchanged otherwise |
| Ledger.OtherUserAppend | app.js:142-155 | appending another user's transaction leaves this user's earnings, deposits, expenses and balance unchanged |
| Ledger.BalanceAppend | app.js:155 | appending a transaction moves the balance by its signed amount: plus for deposit or earning, minus for expense, zero for another user |
| Ledger.BalanceIsNet | app.js:142-155 | the dashboard balance (deposits + earnings − expenses over the user's transactions) equals the single-pass signed sum over the whole ledger |
| Awards.RemoveAwards | app.js:276 | no remaining award carries the completed id, and the list never grows |
| Awards.RemoveAwardsCounts | app.js:276 | awards with the id are dropped entirely, and every other award keeps its number of occurrences |
| Awards.RemoveAwardsConcat | app.js:276 | removal distributes over concatenation: each part of the list is filtered in place |
| Awards.KeptAt | app.js:276 | a kept award appears in the result at the position given by the number of kept awards before it |
| Awards.RemoveAwardsKeepsOrder | app.js:276 | two kept awards keep their relative order in the result |
| Awards.RemoveAwardsIdempotent | app.js:276 | removing the same id a second time changes nothing |
| Awards.CompleteTask | app.js:274-290 | awards with the id are removed; exactly one transaction is appended and earlier ones are unchanged; it is an `earning` for the current user with the given amount, id and timestamp, description `Task completion payment`, method `system`, and no phone or M-Pesa reference; users, session, catalogue and payment type are unchanged |
| Awards.CompleteTaskCredits | app.js:279-289 | the current user's earnings and balance rise by exactly the amount, their deposits and expenses stay the same, and every other user's balance is unchanged |
| Awards.CompleteTaskConsistent | app.js:279-289 | with a fresh transaction id, completion keeps ids and emails unique and the session user among the users |
| Awards.CompleteTaskTwice | app.js:274-290 | a second completion with the same id leaves the awards unchanged but appends a second earning, so earnings rise by twice the amount |
| Payment.Utf16Length | app.js:531 | JavaScript's `length`: at least the number of characters and at most twice it, and equal to it when every character is in the Basic Multilingual Plane |
| Payment.IsValidPhone | app.js:531 | a number is accepted iff it starts with `0` then `7` and is exactly 10 UTF-16 code units long |
| Payment.PhoneExamples | app.js:531 | `0712345678` is accepted; `0799999` (wrong length) and `0899999999` (wrong prefix) are refused; with one astral character, nine characters (ten code units) are accepted and ten characters (eleven code units) are refused |
| Payment.ActivateUsers | app.js:333 | the list keeps its length and ids; a user becomes active iff it was already active or has the given id; no other field changes |
| Payment.ActivateUsersIdempotent | app.js:333 | activating the same id twice gives the same list as activating it once |
| Payment.ProcessSuccessfulPayment | app.js:314-336 | exactly one `expense` transaction is appended for the current user with method `mpesa` and the given amount, description, phone, M-Pesa reference and timestamp. For an activation payment, the current user becomes active with nothing else changed, users with that id become active and all other users are unchanged. For any other payment type, users and session are unchanged. Awards, catalogue and payment type are unchanged |
| Payment.PaymentDebits | app.js:316-328 | the current user's expenses rise and balance falls by exactly the amount, their earnings and deposits stay the same, and every other user's balance is unchanged |
| Payment.PaymentConsistent | app.js:331-334 | with a fresh transaction id, a payment keeps the state consistent; the activated current user is still one of the users |
| Identity.FindCredentials | app.js:445 | returns the index of the first user from `from` on whose email and password both match, or none if no user there matches |
| Identity.Login | app.js:439-458 | login succeeds iff some user matches both credentials. On success, only the current user changes, to the first matching user. On failure, the state is unchanged and the rejection is invalid credentials |
| Identity.Register | app.js:461-494 | a password mismatch is refused iff the passwords differ, a duplicate email iff they agree and the email is taken, and registration succeeds iff neither holds; a refusal leaves the state unchanged. Otherwise exactly one inactive user with the given fields is appended and becomes current, and the ledger, awards, catalogue and payment type are unchanged |
| Identity.RegisterConsistent | app.js:475-493 | with a fresh user id, registration keeps user ids and emails unique and the session user among the users |
| Identity.LoginConsistent | app.js:445-448 | login keeps the state consistent: the new session user is one of the users |
| Identity.RegisterThenLogin | app.js:445-493 | after a successful registration, logging in with the same email and password succeeds and signs in the user just created |
| Identity.WrongPasswordRefused | app.js:445-456 | in a consistent state, a wrong password for an existing email is refused and the state is unchanged |

## Left out

- DOM rendering, modals, notifications, templating and `formatDate` (app.js:96-136, 157-254, 350-424): user-interface effects with no state logic. A rejection value stands for each error notification.
- Browser storage and JSON (app.js:4-7, 30-32, 85-93): foreign I/O. `saveData` is a no-op, and the initial state is a parameter. Restoring a stored `currentUser` on load can break `Consistent`, because that copy is not checked against the users list.
- `simulateSTKPush` (app.js:298-311) and `generateId` (app.js:346-348): a timer, `Math.random` and `Date.now`. The payment outcome, the M-Pesa reference and fresh ids are inputs.
- The STK push submit handler after the phone check (from app.js:542): the file is truncated there, so it is not visible. Only the phone predicate is modelled. Where `paymentType` is set and how tasks are awarded are not in the visible source either.
- The file-upload guard, email verification and forgot-password handlers (app.js:257-270, 505-523): they change no modelled state. The award lookup at app.js:229 that supplies the completion amount is left out too. `CompleteTask` takes the amount as a parameter, just as `simulateTaskCompletion` does.
- Sample catalogue seeding (app.js:37-81): constant data only.
- Logout: the visible source has no logout handler.
- Amounts are JavaScript numbers (floating point) in the source and unbounded integers here. Rounding and non-numeric amounts (the string concatenation that `reduce` would perform) are not modelled.
- Aliasing between `state.currentUser` and an entry of `state.users` is not modelled. The model sets `active` on both explicitly, which gives the same result as the source.
- Payment.IsValidPhone: a JavaScript string can hold a lone surrogate code unit, which a Dafny `char` cannot represent, so such input is outside the model. Strings made of whole characters have their UTF-16 length counted exactly.
