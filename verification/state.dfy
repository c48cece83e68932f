/** The in-memory application state of the freelancing demo (app.js:2-9) and the
    records held in its collections. Persistence to browser storage is not part
    of this model: the state is an immutable value and every operation returns
    the next one. */
module AppState {

  /** Every identifier (user, task, award and transaction ids) is one type, so
      the source's strict and loose id comparisons both become equality. */
  type Id = string

  datatype Option<+T> = None | Some(value: T)

  /** A registered account; `active` flips on an activation payment. */
  datatype User = User(
    id: Id,
    name: string,
    email: string,
    phone: string,
    password: string,
    active: bool,
    createdAt: string)

  /** A catalogue entry; the catalogue is never edited by the modelled core. */
  datatype Task = Task(
    id: Id,
    title: string,
    description: string,
    price: int,
    category: string,
    complexity: string,
    deadline: string,
    words: int)

  /** A task awarded to one user; it carries the catalogue task's id. */
  datatype AwardedTask = AwardedTask(
    id: Id,
    userId: Id,
    title: string,
    description: string,
    price: int,
    deadline: string)

  /** The `type` field of a transaction. */
  datatype TxKind = Deposit | Earning | Expense

  /** One ledger entry; `channel` is the source's `method` field ("system" or
      "mpesa"). `phone` and `providerRef` are only present on M-Pesa
      payments. */
  datatype Transaction = Transaction(
    id: Id,
    userId: Id,
    kind: TxKind,
    amount: int,
    description: string,
    channel: string,
    phone: Option<string>,
    providerRef: Option<string>,
    createdAt: string)

  /** The pending payment's purpose: 'activation' or 'training'; `None` is null. */
  datatype PaymentKind = Activation | Training

  datatype State = State(
    currentUser: Option<User>,
    users: seq<User>,
    tasks: seq<Task>,
    transactions: seq<Transaction>,
    awardedTasks: seq<AwardedTask>,
    paymentType: Option<PaymentKind>)

  /** Why a form submission was refused (each shows an error notification). */
  datatype Rejection = PasswordMismatch | DuplicateEmail | InvalidCredentials

  /** The state after a form submission, and the rejection if there was one. */
  datatype Outcome = Outcome(state: State, rejected: Option<Rejection>)

  predicate UniqueUserIds(users: seq<User>)
  {
    forall i, j :: 0 <= i < j < |users| ==> users[i].id != users[j].id
  }

  predicate UniqueEmails(users: seq<User>)
  {
    forall i, j :: 0 <= i < j < |users| ==> users[i].email != users[j].email
  }

  predicate UniqueTxIds(txs: seq<Transaction>)
  {
    forall i, j :: 0 <= i < j < |txs| ==> txs[i].id != txs[j].id
  }

  predicate FreshUserId(users: seq<User>, id: Id)
  {
    forall i :: 0 <= i < |users| ==> users[i].id != id
  }

  predicate FreshTxId(txs: seq<Transaction>, id: Id)
  {
    forall i :: 0 <= i < |txs| ==> txs[i].id != id
  }

  /** What the operations keep true of a state built from the empty one: ids
      and emails are unique and a signed-in user is one of the users. */
  predicate Consistent(s: State)
  {
    && UniqueUserIds(s.users)
    && UniqueEmails(s.users)
    && UniqueTxIds(s.transactions)
    && (s.currentUser.Some? ==> s.currentUser.value in s.users)
  }
}
