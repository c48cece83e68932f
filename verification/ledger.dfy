/** The dashboard totals of app.js:142-155: a user's earnings, deposits and
    expenses, each the sum of the amounts of that user's transactions of one
    kind, and the balance derived from them. Nothing here is stored; every
    figure is recomputed from the transaction list. */
module Ledger {
  import opened AppState

  /** The user's transactions, in ledger order (the first filter, app.js:142). */
  function ForUser(txs: seq<Transaction>, u: Id): (r: seq<Transaction>)
    ensures |r| <= |txs|
    ensures forall i :: 0 <= i < |r| ==> r[i].userId == u
  {
    if |txs| == 0 then []
    else
      var last := txs[|txs| - 1];
      ForUser(txs[..|txs| - 1], u) + (if last.userId == u then [last] else [])
  }

  /** The transactions of one kind, in ledger order (app.js:144, 148, 152). */
  function OfKind(txs: seq<Transaction>, k: TxKind): (r: seq<Transaction>)
    ensures |r| <= |txs|
    ensures forall i :: 0 <= i < |r| ==> r[i].kind == k
  {
    if |txs| == 0 then []
    else
      var last := txs[|txs| - 1];
      OfKind(txs[..|txs| - 1], k) + (if last.kind == k then [last] else [])
  }

  /** The left fold `reduce((sum, t) => sum + t.amount, 0)`. */
  function SumAmounts(txs: seq<Transaction>): (r: int)
  {
    if |txs| == 0 then 0 else SumAmounts(txs[..|txs| - 1]) + txs[|txs| - 1].amount
  }

  /** The total of one kind for one user, computed as the source does:
      filter by user, filter by kind, then sum. */
  function Total(txs: seq<Transaction>, u: Id, k: TxKind): (r: int)
  {
    SumAmounts(OfKind(ForUser(txs, u), k))
  }

  function Earnings(txs: seq<Transaction>, u: Id): (r: int) { Total(txs, u, Earning) }

  function Deposits(txs: seq<Transaction>, u: Id): (r: int) { Total(txs, u, Deposit) }

  function Expenses(txs: seq<Transaction>, u: Id): (r: int) { Total(txs, u, Expense) }

  /** Money in plus earnings minus expenses (app.js:155). */
  function Balance(txs: seq<Transaction>, u: Id): (r: int)
  {
    Deposits(txs, u) + Earnings(txs, u) - Expenses(txs, u)
  }

  /** What one transaction adds to the user's total of one kind. */
  function Contribution(t: Transaction, u: Id, k: TxKind): (r: int)
  {
    if t.userId == u && t.kind == k then t.amount else 0
  }

  /** What one transaction does to the user's balance: deposits and earnings
      raise it, expenses lower it, other users' entries leave it alone. */
  function Signed(t: Transaction, u: Id): (r: int)
  {
    if t.userId != u then 0
    else match t.kind
      case Deposit => t.amount
      case Earning => t.amount
      case Expense => -t.amount
  }

  /** The balance as a single pass over the whole ledger, with no filtering:
      an independent reference for `Balance`. */
  function Net(txs: seq<Transaction>, u: Id): (r: int)
  {
    if |txs| == 0 then 0 else Net(txs[..|txs| - 1], u) + Signed(txs[|txs| - 1], u)
  }

  lemma {:induction false} ForUserConcat(a: seq<Transaction>, b: seq<Transaction>, u: Id)
    ensures ForUser(a + b, u) == ForUser(a, u) + ForUser(b, u)
    decreases |b|
  {
    if |b| == 0 {
      assert a + b == a;
    } else {
      var b' := b[..|b| - 1];
      assert (a + b)[..|a + b| - 1] == a + b';
      ForUserConcat(a, b', u);
    }
  }

  lemma {:induction false} OfKindConcat(a: seq<Transaction>, b: seq<Transaction>, k: TxKind)
    ensures OfKind(a + b, k) == OfKind(a, k) + OfKind(b, k)
    decreases |b|
  {
    if |b| == 0 {
      assert a + b == a;
    } else {
      var b' := b[..|b| - 1];
      assert (a + b)[..|a + b| - 1] == a + b';
      OfKindConcat(a, b', k);
    }
  }

  lemma {:induction false} SumAmountsConcat(a: seq<Transaction>, b: seq<Transaction>)
    ensures SumAmounts(a + b) == SumAmounts(a) + SumAmounts(b)
    decreases |b|
  {
    if |b| == 0 {
      assert a + b == a;
    } else {
      var b' := b[..|b| - 1];
      assert (a + b)[..|a + b| - 1] == a + b';
      SumAmountsConcat(a, b');
    }
  }

  /** Each total is additive over a split of the ledger. */
  lemma {:induction false} TotalConcat(a: seq<Transaction>, b: seq<Transaction>, u: Id, k: TxKind)
    ensures Total(a + b, u, k) == Total(a, u, k) + Total(b, u, k)
  {
    ForUserConcat(a, b, u);
    OfKindConcat(ForUser(a, u), ForUser(b, u), k);
    SumAmountsConcat(OfKind(ForUser(a, u), k), OfKind(ForUser(b, u), k));
  }

  /** Appending one transaction changes the user's total of one kind by
      exactly what that transaction contributes. */
  lemma {:induction false} TotalAppend(txs: seq<Transaction>, t: Transaction, u: Id, k: TxKind)
    ensures Total(txs + [t], u, k) == Total(txs, u, k) + Contribution(t, u, k)
  {
    TotalConcat(txs, [t], u, k);
    TotalOne(t, u, k);
  }

  /** A one-entry ledger totals to that entry's contribution. */
  lemma TotalOne(t: Transaction, u: Id, k: TxKind)
    ensures Total([t], u, k) == Contribution(t, u, k)
  {
    ForUserOne(t, u);
    if t.userId == u {
      OfKindOne(t, k);
      if t.kind == k {
        SumAmountsOne(t);
      }
    }
  }

  lemma ForUserOne(t: Transaction, u: Id)
    ensures ForUser([t], u) == if t.userId == u then [t] else []
  {
    assert [t][..0] == [];
  }

  lemma OfKindOne(t: Transaction, k: TxKind)
    ensures OfKind([t], k) == if t.kind == k then [t] else []
  {
    assert [t][..0] == [];
  }

  lemma SumAmountsOne(t: Transaction)
    ensures SumAmounts([t]) == t.amount
  {
    assert [t][..0] == [];
  }

  /** Appending a transaction of another user leaves every figure of this
      user unchanged. */
  lemma {:induction false} OtherUserAppend(txs: seq<Transaction>, t: Transaction, u: Id)
    requires t.userId != u
    ensures Earnings(txs + [t], u) == Earnings(txs, u)
    ensures Deposits(txs + [t], u) == Deposits(txs, u)
    ensures Expenses(txs + [t], u) == Expenses(txs, u)
    ensures Balance(txs + [t], u) == Balance(txs, u)
  {
    TotalAppend(txs, t, u, Earning);
    TotalAppend(txs, t, u, Deposit);
    TotalAppend(txs, t, u, Expense);
  }

  /** Appending one transaction moves the balance by its signed amount. */
  lemma {:induction false} BalanceAppend(txs: seq<Transaction>, t: Transaction, u: Id)
    ensures Balance(txs + [t], u) == Balance(txs, u) + Signed(t, u)
  {
    TotalAppend(txs, t, u, Earning);
    TotalAppend(txs, t, u, Deposit);
    TotalAppend(txs, t, u, Expense);
  }

  /** The balance the dashboard shows equals the single-pass signed sum over
      the user's transactions. */
  lemma {:induction false} BalanceIsNet(txs: seq<Transaction>, u: Id)
    ensures Balance(txs, u) == Net(txs, u)
    decreases |txs|
  {
    if |txs| == 0 {
      assert ForUser(txs, u) == [];
    } else {
      var init := txs[..|txs| - 1];
      var last := txs[|txs| - 1];
      assert txs == init + [last];
      BalanceIsNet(init, u);
      BalanceAppend(init, last, u);
    }
  }
}
