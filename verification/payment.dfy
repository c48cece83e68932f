/** The payment side of the session: the phone-number check of the STK push
    form (app.js:531) and the bookkeeping after a successful simulated M-Pesa
    payment (app.js:314-336). The simulated push itself is random and timed
    and is not modelled: its success and its provider reference are inputs. */
module Payment {
  import opened AppState
  import opened Ledger

  /** JavaScript's `s.startsWith(prefix)`. */
  predicate StartsWith(s: string, prefix: string)
  {
    |prefix| <= |s| && s[..|prefix|] == prefix
  }

  /** JavaScript's `length`: the number of UTF-16 code units. A character
      outside the Basic Multilingual Plane takes a surrogate pair. */
  function Utf16Length(s: string): (r: nat)
    ensures |s| <= r <= 2 * |s|
    ensures (forall i :: 0 <= i < |s| ==> s[i] as int < 0x1_0000) ==> r == |s|
  {
    if |s| == 0 then 0
    else Utf16Length(s[..|s| - 1]) + (if s[|s| - 1] as int < 0x1_0000 then 1 else 2)
  }

  /** A Safaricom number: it starts with "07" and is exactly ten UTF-16 code
      units long (the negation of the rejection test at app.js:531). Both
      prefix characters are single code units, so the prefix test reads the
      first two characters. */
  function IsValidPhone(phone: string): (ok: bool)
    ensures ok <==> |phone| >= 2 && phone[0] == '0' && phone[1] == '7' && Utf16Length(phone) == 10
  {
    var starts := StartsWith(phone, "07");
    assert starts <==> |phone| >= 2 && phone[0] == '0' && phone[1] == '7' by {
      if |phone| >= 2 && phone[0] == '0' && phone[1] == '7' {
        assert phone[..2] == "07";
      }
    }
    starts && Utf16Length(phone) == 10
  }

  /** Sample numbers on each side of the check. The last two contain a
      character that takes two UTF-16 code units, so the first counts as ten
      units and the second as eleven. */
  lemma PhoneExamples()
    ensures IsValidPhone("0712345678")
    ensures !IsValidPhone("0799999")
    ensures !IsValidPhone("0899999999")
    ensures IsValidPhone("07\U{1F600}123456")
    ensures !IsValidPhone("07\U{1F600}1234567")
  {
    var p := "07\U{1F600}123456";
    assert Utf16Length(p[..3]) == 4 by {
      assert p[..3][..2] == "07";
      assert Utf16Length("07") == 2 by { assert "07"[..1] == "0"; assert "0"[..0] == ""; }
    }
    assert Utf16Length(p[..4]) == 5 by { assert p[..4][..3] == p[..3]; }
    assert Utf16Length(p[..5]) == 6 by { assert p[..5][..4] == p[..4]; }
    assert Utf16Length(p[..6]) == 7 by { assert p[..6][..5] == p[..5]; }
    assert Utf16Length(p[..7]) == 8 by { assert p[..7][..6] == p[..6]; }
    assert Utf16Length(p[..8]) == 9 by { assert p[..8][..7] == p[..7]; }
    assert Utf16Length(p) == 10 by { assert p[..8] == p[..|p| - 1]; }
    var q := p + "7";
    assert Utf16Length(q) == 11 by { assert q[..|q| - 1] == p; }
    assert q == "07\U{1F600}1234567";
  }

  /** `users.map(u => u.id === id ? {...u, active: true} : u)` (app.js:333). */
  function ActivateUsers(users: seq<User>, id: Id): (r: seq<User>)
    ensures |r| == |users|
    ensures forall i :: 0 <= i < |r| ==>
      && r[i].id == users[i].id
      && (r[i].active <==> users[i].active || users[i].id == id)
      && r[i].(active := users[i].active) == users[i]
  {
    seq(|users|, i requires 0 <= i < |users| =>
      if users[i].id == id then users[i].(active := true) else users[i])
  }

  /** Activation is idempotent. */
  lemma ActivateUsersIdempotent(users: seq<User>, id: Id)
    ensures ActivateUsers(ActivateUsers(users, id), id) == ActivateUsers(users, id)
  {
  }

  /** The expense recorded for a successful payment (app.js:316-326). */
  function ExpenseFor(userId: Id, amount: int, description: string, phone: string,
                      providerRef: string, txId: Id, now: string): (t: Transaction)
  {
    Transaction(txId, userId, Expense, amount, description, "mpesa", Some(phone), Some(providerRef), now)
  }

  /** `processSuccessfulPayment(amount, description, phoneNumber, transactionId)`:
      one expense is appended for the signed-in user; when the pending payment
      is an activation, that user and every listed user with the same id become
      active. The pending payment type is left as it was. */
  function ProcessSuccessfulPayment(s: State, amount: int, description: string, phone: string,
                                    providerRef: string, txId: Id, now: string): (r: State)
    requires s.currentUser.Some?
    ensures |r.transactions| == |s.transactions| + 1
    ensures r.transactions[..|s.transactions|] == s.transactions
    ensures var t := r.transactions[|s.transactions|];
      && t.id == txId
      && t.userId == s.currentUser.value.id
      && t.kind == Expense
      && t.amount == amount
      && t.description == description
      && t.channel == "mpesa"
      && t.phone == Some(phone)
      && t.providerRef == Some(providerRef)
      && t.createdAt == now
    ensures s.paymentType == Some(Activation) ==>
      && r.currentUser.Some?
      && r.currentUser.value.active
      && r.currentUser.value.(active := s.currentUser.value.active) == s.currentUser.value
      && |r.users| == |s.users|
      && forall i :: 0 <= i < |s.users| ==>
           if s.users[i].id == s.currentUser.value.id
           then r.users[i] == s.users[i].(active := true)
           else r.users[i] == s.users[i]
    ensures s.paymentType != Some(Activation) ==>
      r.users == s.users && r.currentUser == s.currentUser
    ensures r.tasks == s.tasks && r.awardedTasks == s.awardedTasks
    ensures r.paymentType == s.paymentType
  {
    var me := s.currentUser.value;
    var s1 := s.(transactions := s.transactions +
                   [ExpenseFor(me.id, amount, description, phone, providerRef, txId, now)]);
    if s.paymentType == Some(Activation) then
      s1.(currentUser := Some(me.(active := true)), users := ActivateUsers(s.users, me.id))
    else
      s1
  }

  /** A successful payment debits the signed-in user's balance by exactly the
      amount and raises their expenses by it; other users are unaffected. */
  lemma {:induction false} PaymentDebits(s: State, amount: int, description: string, phone: string,
                                         providerRef: string, txId: Id, now: string, u: Id)
    requires s.currentUser.Some?
    ensures var r := ProcessSuccessfulPayment(s, amount, description, phone, providerRef, txId, now);
      && (u == s.currentUser.value.id ==>
            && Expenses(r.transactions, u) == Expenses(s.transactions, u) + amount
            && Earnings(r.transactions, u) == Earnings(s.transactions, u)
            && Deposits(r.transactions, u) == Deposits(s.transactions, u)
            && Balance(r.transactions, u) == Balance(s.transactions, u) - amount)
      && (u != s.currentUser.value.id ==>
            Balance(r.transactions, u) == Balance(s.transactions, u))
  {
    var t := ExpenseFor(s.currentUser.value.id, amount, description, phone, providerRef, txId, now);
    assert ProcessSuccessfulPayment(s, amount, description, phone, providerRef, txId, now).transactions
      == s.transactions + [t];
    TotalAppend(s.transactions, t, u, Earning);
    TotalAppend(s.transactions, t, u, Deposit);
    TotalAppend(s.transactions, t, u, Expense);
  }

  /** With a fresh transaction id, a payment keeps the state consistent: in
      particular the activated current user is still one of the users. */
  lemma PaymentConsistent(s: State, amount: int, description: string, phone: string,
                          providerRef: string, txId: Id, now: string)
    requires s.currentUser.Some? && Consistent(s) && FreshTxId(s.transactions, txId)
    ensures Consistent(ProcessSuccessfulPayment(s, amount, description, phone, providerRef, txId, now))
  {
  }
}
