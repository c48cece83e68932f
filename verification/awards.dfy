/** Task completion (app.js:274-290): every awarded task carrying the completed
    task id is dropped, whichever user holds it, and one `earning` transaction
    for the signed-in user is appended. The earning is recorded whether or not
    an award with that id existed. */
module Awards {
  import opened AppState
  import opened Ledger

  /** `awardedTasks.filter(task => task.id != taskId)` (app.js:276). */
  function RemoveAwards(awards: seq<AwardedTask>, taskId: Id): (r: seq<AwardedTask>)
    ensures |r| <= |awards|
    ensures forall i :: 0 <= i < |r| ==> r[i].id != taskId
  {
    if |awards| == 0 then []
    else
      var init := awards[..|awards| - 1];
      var last := awards[|awards| - 1];
      RemoveAwards(init, taskId) + (if last.id != taskId then [last] else [])
  }

  /** Exactly the awards with the completed id are dropped: every other
      award keeps its number of occurrences. */
  lemma {:induction false} RemoveAwardsCounts(awards: seq<AwardedTask>, taskId: Id, a: AwardedTask)
    ensures multiset(RemoveAwards(awards, taskId))[a] == if a.id == taskId then 0 else multiset(awards)[a]
    decreases |awards|
  {
    if |awards| > 0 {
      var init := awards[..|awards| - 1];
      var last := awards[|awards| - 1];
      assert awards == init + [last];
      RemoveAwardsCounts(init, taskId, a);
    }
  }

  /** Removal distributes over concatenation: each part of the list is
      filtered in place, so the kept awards stay in their original order. */
  lemma {:induction false} RemoveAwardsConcat(a: seq<AwardedTask>, b: seq<AwardedTask>, taskId: Id)
    ensures RemoveAwards(a + b, taskId) == RemoveAwards(a, taskId) + RemoveAwards(b, taskId)
    decreases |b|
  {
    if |b| == 0 {
      assert a + b == a;
    } else {
      var b' := b[..|b| - 1];
      assert (a + b)[..|a + b| - 1] == a + b';
      RemoveAwardsConcat(a, b', taskId);
    }
  }

  /** Where a kept award lands: the number of kept awards before it. */
  function KeptPosition(awards: seq<AwardedTask>, taskId: Id, i: nat): (r: nat)
    requires i <= |awards|
  {
    |RemoveAwards(awards[..i], taskId)|
  }

  /** Every award with another id is found in the result at its kept
      position, and kept positions strictly increase with the original index:
      relative order is preserved. */
  lemma {:induction false} RemoveAwardsKeepsOrder(awards: seq<AwardedTask>, taskId: Id, i: nat, j: nat)
    requires i < j < |awards|
    requires awards[i].id != taskId && awards[j].id != taskId
    ensures KeptPosition(awards, taskId, i) < KeptPosition(awards, taskId, j)
    ensures KeptPosition(awards, taskId, j) < |RemoveAwards(awards, taskId)|
    ensures RemoveAwards(awards, taskId)[KeptPosition(awards, taskId, i)] == awards[i]
    ensures RemoveAwards(awards, taskId)[KeptPosition(awards, taskId, j)] == awards[j]
  {
    KeptAt(awards, taskId, i);
    KeptAt(awards, taskId, j);
    var upto := awards[..i + 1];
    assert awards[..j] == upto + awards[i + 1..j];
    RemoveAwardsConcat(upto, awards[i + 1..j], taskId);
    assert upto == awards[..i] + [awards[i]];
    KeepOne(awards[..i], awards[i], taskId);
  }

  /** Appending a kept award appends it to the result. */
  lemma KeepOne(a: seq<AwardedTask>, x: AwardedTask, taskId: Id)
    requires x.id != taskId
    ensures RemoveAwards(a + [x], taskId) == RemoveAwards(a, taskId) + [x]
  {
  }

  /** A kept award sits at its kept position in the result. */
  lemma {:induction false} KeptAt(awards: seq<AwardedTask>, taskId: Id, i: nat)
    requires i < |awards| && awards[i].id != taskId
    ensures KeptPosition(awards, taskId, i) < |RemoveAwards(awards, taskId)|
    ensures RemoveAwards(awards, taskId)[KeptPosition(awards, taskId, i)] == awards[i]
  {
    assert awards == awards[..i] + [awards[i]] + awards[i + 1..];
    RemoveAwardsConcat(awards[..i] + [awards[i]], awards[i + 1..], taskId);
    KeepOne(awards[..i], awards[i], taskId);
  }

  /** Removing the same id again changes nothing. */
  lemma {:induction false} RemoveAwardsIdempotent(awards: seq<AwardedTask>, taskId: Id)
    ensures RemoveAwards(RemoveAwards(awards, taskId), taskId) == RemoveAwards(awards, taskId)
    decreases |awards|
  {
    if |awards| > 0 {
      var init := awards[..|awards| - 1];
      var last := awards[|awards| - 1];
      RemoveAwardsIdempotent(init, taskId);
      var kept := if last.id != taskId then [last] else [];
      RemoveAwardsConcat(RemoveAwards(init, taskId), kept, taskId);
      assert RemoveAwards(kept, taskId) == kept by {
        if kept != [] { assert kept[..0] == []; }
      }
    }
  }

  /** The earning recorded for a completed task (app.js:279-287). */
  function EarningFor(userId: Id, amount: int, txId: Id, now: string): (t: Transaction)
  {
    Transaction(txId, userId, Earning, amount, "Task completion payment", "system", None, None, now)
  }

  /** `simulateTaskCompletion(taskId, amount)`: the fresh transaction id and the
      timestamp are inputs; the source dereferences the current user. */
  function CompleteTask(s: State, taskId: Id, amount: int, txId: Id, now: string): (r: State)
    requires s.currentUser.Some?
    ensures r.awardedTasks == RemoveAwards(s.awardedTasks, taskId)
    ensures |r.transactions| == |s.transactions| + 1
    ensures r.transactions[..|s.transactions|] == s.transactions
    ensures var t := r.transactions[|s.transactions|];
      && t.id == txId
      && t.userId == s.currentUser.value.id
      && t.kind == Earning
      && t.amount == amount
      && t.description == "Task completion payment"
      && t.channel == "system"
      && t.phone.None? && t.providerRef.None?
      && t.createdAt == now
    ensures r.currentUser == s.currentUser && r.users == s.users
    ensures r.tasks == s.tasks && r.paymentType == s.paymentType
  {
    s.(awardedTasks := RemoveAwards(s.awardedTasks, taskId),
       transactions := s.transactions + [EarningFor(s.currentUser.value.id, amount, txId, now)])
  }

  /** Completion credits the signed-in user's earnings and balance by exactly
      the amount, leaves their deposits and expenses alone, and leaves every
      other user's figures unchanged. */
  lemma {:induction false} CompleteTaskCredits(s: State, taskId: Id, amount: int, txId: Id, now: string, u: Id)
    requires s.currentUser.Some?
    ensures var r := CompleteTask(s, taskId, amount, txId, now);
      && (u == s.currentUser.value.id ==>
            && Earnings(r.transactions, u) == Earnings(s.transactions, u) + amount
            && Deposits(r.transactions, u) == Deposits(s.transactions, u)
            && Expenses(r.transactions, u) == Expenses(s.transactions, u)
            && Balance(r.transactions, u) == Balance(s.transactions, u) + amount)
      && (u != s.currentUser.value.id ==>
            Balance(r.transactions, u) == Balance(s.transactions, u))
  {
    var t := EarningFor(s.currentUser.value.id, amount, txId, now);
    TotalAppend(s.transactions, t, u, Earning);
    TotalAppend(s.transactions, t, u, Deposit);
    TotalAppend(s.transactions, t, u, Expense);
  }

  /** With a fresh transaction id, completion keeps the state consistent. */
  lemma CompleteTaskConsistent(s: State, taskId: Id, amount: int, txId: Id, now: string)
    requires s.currentUser.Some? && Consistent(s) && FreshTxId(s.transactions, txId)
    ensures Consistent(CompleteTask(s, taskId, amount, txId, now))
  {
  }

  /** Completing the same id twice leaves the awards as one completion does,
      yet records two earnings: the second submission pays again, because the
      source does not check that the award still exists. */
  lemma {:induction false} CompleteTaskTwice(s: State, taskId: Id, amount: int, tx1: Id, tx2: Id, now: string)
    requires s.currentUser.Some?
    ensures var once := CompleteTask(s, taskId, amount, tx1, now);
      var twice := CompleteTask(once, taskId, amount, tx2, now);
      var u := s.currentUser.value.id;
      && twice.awardedTasks == once.awardedTasks
      && |twice.transactions| == |s.transactions| + 2
      && Earnings(twice.transactions, u) == Earnings(s.transactions, u) + 2 * amount
  {
    var once := CompleteTask(s, taskId, amount, tx1, now);
    RemoveAwardsIdempotent(s.awardedTasks, taskId);
    CompleteTaskCredits(s, taskId, amount, tx1, now, s.currentUser.value.id);
    CompleteTaskCredits(once, taskId, amount, tx2, now, s.currentUser.value.id);
  }
}
