/** The state logic of the login (app.js:439-458) and registration
    (app.js:461-494) form handlers. Passwords are stored and compared as
    plain text, exactly as the source does. */
module Identity {
  import opened AppState

  predicate Matches(u: User, email: string, password: string)
  {
    u.email == email && u.password == password
  }

  /** `users.find(u => u.email === email)` is truthy (app.js:476). */
  predicate EmailTaken(users: seq<User>, email: string)
  {
    exists i :: 0 <= i < |users| && users[i].email == email
  }

  /** The index of the first user at or after `from` whose email and password
      both match, scanning as `Array.prototype.find` does. */
  function FindCredentials(users: seq<User>, email: string, password: string, from: nat): (r: Option<nat>)
    requires from <= |users|
    ensures r.Some? ==>
      && from <= r.value < |users|
      && Matches(users[r.value], email, password)
      && forall j :: from <= j < r.value ==> !Matches(users[j], email, password)
    ensures r.None? ==> forall j :: from <= j < |users| ==> !Matches(users[j], email, password)
    decreases |users| - from
  {
    if from == |users| then None
    else if Matches(users[from], email, password) then Some(from)
    else FindCredentials(users, email, password, from + 1)
  }

  /** The login handler: the first user with matching credentials becomes the
      current user; with no match the state is unchanged and the attempt is
      refused. */
  function Login(s: State, email: string, password: string): (o: Outcome)
    ensures o.rejected.None? <==>
      exists i :: 0 <= i < |s.users| && Matches(s.users[i], email, password)
    ensures o.rejected.Some? ==> o.rejected == Some(InvalidCredentials) && o.state == s
    ensures o.rejected.None? ==>
      exists i :: && 0 <= i < |s.users|
                  && Matches(s.users[i], email, password)
                  && (forall j :: 0 <= j < i ==> !Matches(s.users[j], email, password))
                  && o.state == s.(currentUser := Some(s.users[i]))
  {
    match FindCredentials(s.users, email, password, 0)
    case Some(i) => Outcome(s.(currentUser := Some(s.users[i])), None)
    case None => Outcome(s, Some(InvalidCredentials))
  }

  /** The registration handler. A password mismatch is refused first, then an
      email already in use; otherwise an inactive user with the fresh id is
      appended and becomes the current user. */
  function Register(s: State, name: string, email: string, phone: string, password: string,
                    confirmPassword: string, newId: Id, now: string): (o: Outcome)
    ensures o.rejected == Some(PasswordMismatch) <==> password != confirmPassword
    ensures o.rejected == Some(DuplicateEmail) <==>
      password == confirmPassword && EmailTaken(s.users, email)
    ensures o.rejected.None? <==> password == confirmPassword && !EmailTaken(s.users, email)
    ensures o.rejected.Some? ==> o.state == s
    ensures o.rejected.None? ==>
      && |o.state.users| == |s.users| + 1
      && o.state.users[..|s.users|] == s.users
      && var u := o.state.users[|s.users|];
      && u.id == newId && u.name == name && u.email == email && u.phone == phone
      && u.password == password && !u.active && u.createdAt == now
      && o.state.currentUser == Some(u)
      && o.state.transactions == s.transactions
      && o.state.awardedTasks == s.awardedTasks
      && o.state.tasks == s.tasks
      && o.state.paymentType == s.paymentType
  {
    if password != confirmPassword then Outcome(s, Some(PasswordMismatch))
    else if EmailTaken(s.users, email) then Outcome(s, Some(DuplicateEmail))
    else
      var u := User(newId, name, email, phone, password, false, now);
      Outcome(s.(users := s.users + [u], currentUser := Some(u)), None)
  }

  /** Registration with a fresh id keeps the state consistent; in particular
      no two users ever share an email. */
  lemma RegisterConsistent(s: State, name: string, email: string, phone: string, password: string,
                           confirmPassword: string, newId: Id, now: string)
    requires Consistent(s) && FreshUserId(s.users, newId)
    ensures Consistent(Register(s, name, email, phone, password, confirmPassword, newId, now).state)
  {
  }

  /** Login keeps the state consistent: the user it signs in is one of the
      users. */
  lemma LoginConsistent(s: State, email: string, password: string)
    requires Consistent(s)
    ensures Consistent(Login(s, email, password).state)
  {
  }

  /** Right after a successful registration, logging in with the same email
      and password succeeds and signs in the user just created. */
  lemma RegisterThenLogin(s: State, name: string, email: string, phone: string,
                            password: string, newId: Id, now: string)
    requires !EmailTaken(s.users, email)
    ensures var reg := Register(s, name, email, phone, password, password, newId, now);
      && reg.rejected.None?
      && var o := Login(reg.state, email, password);
      && o.rejected.None?
      && o.state.currentUser == Some(reg.state.users[|s.users|])
  {
  }

  /** A wrong password for the only account with that email is refused and
      leaves the state unchanged. */
  lemma WrongPasswordRefused(s: State, i: nat, password: string)
    requires Consistent(s) && i < |s.users| && s.users[i].password != password
    ensures Login(s, s.users[i].email, password).rejected == Some(InvalidCredentials)
    ensures Login(s, s.users[i].email, password).state == s
  {
  }
}
