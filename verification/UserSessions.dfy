/**
 Sessions against password resets, status changes, renames and deletions: each unit of work is one atomic step, and
 any number of logins are between their two transactions at any time.
 */
module UserSessions {
  import opened Common
  import opened Users

  datatype State = State(
    tables: Tables,
    logins: seq<Login>,             // the logins whose first transaction has been done
    usedIds: set<UserId>,           // history: every user id ever created
    usedSalts: set<nat>,            // history: every salt ever drawn
    grants: map<Digest, Login>)     // history: the login behind every session ever issued

  datatype Action =
    | Create(id: UserId, username: Username, email: Email, hash: PasswordHash, now: Time)
    | Alter(id: UserId, change: Change, now: Time)
    | Remove(id: UserId)
    | BeginLogin(id: UserId, password: Password)
    | EndLogin(k: nat, digest: Digest, now: Time, ttl: Lifetime)
    | SignOut(digest: Digest)
    | Sweep(now: Time)

  function Initial(): State {
    State(Tables(map[], map[]), [], {}, {}, map[])
  }

  /** User ids, salts and tokens are drawn fresh. */
  predicate Enabled(s: State, a: Action) {
    match a
    case Create(id, _, _, hash, _) => id !in s.usedIds && hash.salt !in s.usedSalts
    case Alter(_, change, _) => change.ResetPassword? ==> change.hash.salt !in s.usedSalts
    case Remove(_) => true
    case BeginLogin(id, _) => id in s.tables.users
    case EndLogin(k, digest, _, _) => k < |s.logins| && digest !in s.grants
    case SignOut(_) => true
    case Sweep(_) => true
  }

  function TablesAfter(s: State, a: Action): Tables
    requires Enabled(s, a)
  {
    match a
    case Create(id, username, email, hash, now) =>
        Committed(s.tables, CreateUser(s.tables, id, username, email, hash, now))
    case Alter(id, change, now) => Committed(s.tables, ChangeUser(s.tables, id, change, now))
    case Remove(id) => Committed(s.tables, DeleteUser(s.tables, id))
    case BeginLogin(_, _) => s.tables
    case EndLogin(k, digest, now, ttl) => Committed(s.tables, FinishLogin(s.tables, s.logins[k], digest, now, ttl))
    case SignOut(digest) => Logout(s.tables, digest)
    case Sweep(now) => Cleanup(s.tables, now)
  }

  function Apply(s: State, a: Action): State
    requires Enabled(s, a)
  {
    var t := s.(tables := TablesAfter(s, a));
    match a
    case Create(id, _, _, hash, _) => t.(usedIds := s.usedIds + {id}, usedSalts := s.usedSalts + {hash.salt})
    case Alter(_, change, _) => if change.ResetPassword? then t.(usedSalts := s.usedSalts + {change.hash.salt}) else t
    case BeginLogin(id, password) => t.(logins := s.logins + [Login(id, s.tables.users[id], password)])
    case EndLogin(k, digest, now, ttl) =>
      if FinishLogin(s.tables, s.logins[k], digest, now, ttl).Returned?
          then t.(grants := s.grants[digest := s.logins[k]]) else t
    case _ => t
  }

  function Play(s: State, actions: seq<Action>): Option<State>
    decreases |actions|
  {
    if actions == [] then Some(s)
    else
      var t := Play(s, actions[..|actions| - 1]);
      var a := actions[|actions| - 1];
      if t.Some? && Enabled(t.value, a) then Some(Apply(t.value, a)) else None
  }

  ghost predicate Reachable(s: State) {
    exists actions :: Play(Initial(), actions) == Some(s)
  }

  // ---- What every step keeps -------------------------------------------------------------------

  /** The user still has the very hash that the login verified, and is active. */
  predicate AccountUnchanged(t: Tables, login: Login) {
    && login.user in t.users
    && t.users[login.user].status == Active
    && t.users[login.user].hash == login.snapshot.hash
  }

  predicate IsBacked(t: Tables, session: Session, login: Login) {
    session.user == login.user && Verified(login) && AccountUnchanged(t, login) && session.issuedAt < session.expiresAt
  }

  ghost predicate SessionsBacked(s: State) {
    forall d :: d in s.tables.sessions ==> d in s.grants && IsBacked(s.tables, s.tables.sessions[d], s.grants[d])
  }

  ghost predicate UsersRecorded(s: State) {
    forall id :: id in s.tables.users ==> id in s.usedIds && s.tables.users[id].hash.salt in s.usedSalts
  }

  predicate LoginRecorded(s: State, login: Login) {
    login.user in s.usedIds && login.snapshot.hash.salt in s.usedSalts
  }

  ghost predicate LoginsRecorded(s: State) {
    && (forall k :: 0 <= k < |s.logins| ==> LoginRecorded(s, s.logins[k]))
    && (forall d :: d in s.grants ==> LoginRecorded(s, s.grants[d]))
  }

  ghost predicate NamesUnique(users: map<UserId, Row>) {
    forall i, j :: i in users && j in users && i != j ==>
      users[i].username != users[j].username && users[i].email != users[j].email
  }

  ghost predicate Inv(s: State) {
    SessionsBacked(s) && UsersRecorded(s) && LoginsRecorded(s) && NamesUnique(s.tables.users)
  }

  lemma StepKeepsSessionsBacked(s: State, a: Action)
    requires Enabled(s, a) && SessionsBacked(s) && UsersRecorded(s)
    ensures SessionsBacked(Apply(s, a))
  {
  }

  lemma StepKeepsRecords(s: State, a: Action)
    requires Enabled(s, a) && UsersRecorded(s) && LoginsRecorded(s)
    ensures UsersRecorded(Apply(s, a)) && LoginsRecorded(Apply(s, a))
  {
  }

  lemma StepKeepsNamesUnique(s: State, a: Action)
    requires Enabled(s, a) && NamesUnique(s.tables.users)
    ensures NamesUnique(Apply(s, a).tables.users)
  {
  }

  lemma StepKeepsInv(s: State, a: Action)
    requires Enabled(s, a) && Inv(s)
    ensures Inv(Apply(s, a))
  {
    hide Apply, SessionsBacked, UsersRecorded, LoginsRecorded, NamesUnique;
    StepKeepsSessionsBacked(s, a);
    StepKeepsRecords(s, a);
    StepKeepsNamesUnique(s, a);
  }

  lemma {:induction false} RunsKeepInv(s: State, actions: seq<Action>)
    requires Inv(s) && Play(s, actions).Some?
    ensures Inv(Play(s, actions).value)
    decreases |actions|
  {
    hide Inv, Apply, Enabled;
    if actions == [] {
    } else {
      RunsKeepInv(s, actions[..|actions| - 1]);
      StepKeepsInv(Play(s, actions[..|actions| - 1]).value, actions[|actions| - 1]);
    }
  }

  lemma ReachableKeepsInv(s: State)
    requires Reachable(s)
    ensures Inv(s)
  {
    var actions :| Play(Initial(), actions) == Some(s);
    RunsKeepInv(Initial(), actions);
  }

  // ---- Sessions that are gone, logins that are void --------------------------------------------

  predicate Gone(s: State, digest: Digest) {
    digest in s.grants && digest !in s.tables.sessions
  }

  lemma StepKeepsGone(s: State, a: Action, digest: Digest)
    requires Enabled(s, a) && Gone(s, digest)
    ensures Gone(Apply(s, a), digest)
  {
  }

  lemma {:induction false} GoneForGood(s: State, actions: seq<Action>, digest: Digest)
    requires Gone(s, digest) && Play(s, actions).Some?
    ensures Gone(Play(s, actions).value, digest)
    decreases |actions|
  {
    hide Gone, Apply, Enabled;
    if actions == [] {
    } else {
      GoneForGood(s, actions[..|actions| - 1], digest);
      StepKeepsGone(Play(s, actions[..|actions| - 1]).value, actions[|actions| - 1], digest);
    }
  }

  /** The hash the login read is no longer the user's, and salts and ids are never drawn twice. */
  predicate Void(s: State, login: Login) {
    LoginRecorded(s, login) && (login.user in s.tables.users ==> s.tables.users[login.user].hash != login.snapshot.hash)
  }

  lemma StepKeepsVoid(s: State, a: Action, login: Login)
    requires Enabled(s, a) && Void(s, login)
    ensures Void(Apply(s, a), login)
  {
  }

  lemma {:induction false} VoidForGood(s: State, actions: seq<Action>, login: Login)
    requires Void(s, login) && Play(s, actions).Some?
    ensures Void(Play(s, actions).value, login)
    decreases |actions|
  {
    hide Void, Apply, Enabled;
    if actions == [] {
    } else {
      VoidForGood(s, actions[..|actions| - 1], login);
      StepKeepsVoid(Play(s, actions[..|actions| - 1]).value, actions[|actions| - 1], login);
    }
  }

  // ---- Main results ----------------------------------------------------------------------------

  /** Every stored session belongs to an existing active user, and the password that opened it is still the user's
      password under the very hash that was verified. */
  lemma EverySessionIsBacked(s: State, digest: Digest)
    requires Reachable(s) && digest in s.tables.sessions
    ensures digest in s.grants && s.tables.sessions[digest].user == s.grants[digest].user
    ensures AccountUnchanged(s.tables, s.grants[digest])
    ensures Verifies(s.grants[digest].password, s.tables.users[s.tables.sessions[digest].user].hash)
  {
    ReachableKeepsInv(s);
  }

  /** The account checks of `current_user` never decide: the answer is a user exactly when a valid session is stored. */
  lemma CurrentUserIffValidSession(s: State, digest: Digest, now: Time)
    requires Reachable(s)
    ensures CurrentUser(s.tables, digest, now).Returned? <==>
      digest in s.tables.sessions && s.tables.sessions[digest].issuedAt <= now < s.tables.sessions[digest].expiresAt
    ensures CurrentUser(s.tables, digest, now).Returned? ==>
      s.tables.sessions[digest].user in s.tables.users
      && CurrentUser(s.tables, digest, now).value == s.tables.users[s.tables.sessions[digest].user]
  {
    ReachableKeepsInv(s);
  }

  /** The step ends a session of the user that expires at `end`: a revocation of all the user's sessions, a sign-out of
      this one, or a sweep at or after its end, by itself or on the way of a successful login. */
  predicate Ends(s: State, a: Action, digest: Digest, user: UserId, end: Time)
    requires Enabled(s, a)
  {
    match a
    case Alter(id, change, _) => id == user && (change == ChangeStatus(Disabled) || change.ResetPassword?)
    case Remove(id) => id == user
    case SignOut(other) => other == digest
    case Sweep(now) => end <= now
    case EndLogin(k, other, now, ttl) => end <= now && FinishLogin(s.tables, s.logins[k], other, now, ttl).Returned?
    case _ => false
  }

  /** Some step of the run ends the session. */
  predicate EndedBy(s: State, actions: seq<Action>, digest: Digest, user: UserId, end: Time)
    requires Play(s, actions).Some?
    decreases |actions|
  {
    actions != [] &&
      var front := actions[..|actions| - 1];
      EndedBy(s, front, digest, user, end) || Ends(Play(s, front).value, actions[|actions| - 1], digest, user, end)
  }

  lemma StepKeepsUnlessEnding(s: State, a: Action, digest: Digest)
    requires Enabled(s, a) && SessionsBacked(s) && digest in s.tables.sessions
    ensures var session := s.tables.sessions[digest];
      if Ends(s, a, digest, session.user, session.expiresAt) then Gone(Apply(s, a), digest)
      else digest in Apply(s, a).tables.sessions && Apply(s, a).tables.sessions[digest] == session
  {
  }

  lemma {:induction false} StoredUnlessEnded(s: State, actions: seq<Action>, digest: Digest)
    requires Inv(s) && digest in s.tables.sessions && Play(s, actions).Some?
    ensures var session, t := s.tables.sessions[digest], Play(s, actions).value;
      if EndedBy(s, actions, digest, session.user, session.expiresAt) then Gone(t, digest)
      else digest in t.tables.sessions && t.tables.sessions[digest] == session
    decreases |actions|
  {
    hide Inv, Gone, Apply, Enabled, Ends;
    if actions == [] {
    } else {
      var front, a := actions[..|actions| - 1], actions[|actions| - 1];
      var session, t := s.tables.sessions[digest], Play(s, front).value;
      StoredUnlessEnded(s, front, digest);
      RunsKeepInv(s, front);
      if EndedBy(s, front, digest, session.user, session.expiresAt) {
        StepKeepsGone(t, a, digest);
      } else {
        BackedIn(t);
        StepKeepsUnlessEnding(t, a, digest);
      }
    }
  }

  lemma BackedIn(s: State)
    requires Inv(s)
    ensures SessionsBacked(s)
  {
  }

  /** The whole life of a token: after a login at `start` it is answered, in every later run, exactly from then until
      its lifetime is over, unless a step of the run has ended it; and the answer is the user's row at the time. */
  lemma TokenLivesExactly(s: State, k: nat, digest: Digest, start: Time, ttl: Lifetime, later: seq<Action>, now: Time)
    requires Reachable(s) && Enabled(s, EndLogin(k, digest, start, ttl))
    requires FinishLogin(s.tables, s.logins[k], digest, start, ttl).Returned?
    requires Play(Apply(s, EndLogin(k, digest, start, ttl)), later).Some?
    ensures var user, issued := s.logins[k].user, Apply(s, EndLogin(k, digest, start, ttl));
      var answer := CurrentUser(Play(issued, later).value.tables, digest, now);
      && (answer.Returned? <==>
            start <= now < start + ttl && !EndedBy(issued, later, digest, user, start + ttl))
      && (answer.Returned? ==>
            user in Play(issued, later).value.tables.users
            && answer.value == Play(issued, later).value.tables.users[user])
  {
    hide Play, Apply, EndedBy, Inv, Reachable, CurrentUser, FinishLogin, Gone;
    var issued := Apply(s, EndLogin(k, digest, start, ttl));
    ReachableKeepsInv(s);
    StepKeepsInv(s, EndLogin(k, digest, start, ttl));
    LoginStores(s, k, digest, start, ttl);
    StoredUnlessEnded(issued, later, digest);
    RunsKeepInv(issued, later);
    AnsweredWhileStored(Play(issued, later).value, digest, now);
    assert EndedBy(issued, later, digest, s.logins[k].user, start + ttl) ==> Gone(Play(issued, later).value, digest);
    GoneIsNotStored(Play(issued, later).value, digest);
  }

  lemma LoginStores(s: State, k: nat, digest: Digest, start: Time, ttl: Lifetime)
    requires Enabled(s, EndLogin(k, digest, start, ttl))
    requires FinishLogin(s.tables, s.logins[k], digest, start, ttl).Returned?
    ensures var sessions := Apply(s, EndLogin(k, digest, start, ttl)).tables.sessions;
      digest in sessions && sessions[digest] == Session(s.logins[k].user, start, start + ttl)
  {
  }

  lemma AnsweredWhileStored(t: State, digest: Digest, now: Time)
    requires Inv(t)
    ensures CurrentUser(t.tables, digest, now).Returned? <==>
      digest in t.tables.sessions && t.tables.sessions[digest].issuedAt <= now < t.tables.sessions[digest].expiresAt
    ensures CurrentUser(t.tables, digest, now).Returned? ==>
      t.tables.sessions[digest].user in t.tables.users
      && CurrentUser(t.tables, digest, now).value == t.tables.users[t.tables.sessions[digest].user]
  {
  }

  lemma GoneIsNotStored(t: State, digest: Digest)
    ensures Gone(t, digest) ==> digest !in t.tables.sessions
  {
  }

  /** From any state on, a new user under a free name and email can log in with the password behind the hash, and with
      no other: the token is then answered with the user's row for exactly its lifetime. */
  lemma NewUserLogsIn(s: State, id: UserId, row: Row, password: Password, digest: Digest, start: Time, ttl: Lifetime,
      now: Time)
    requires Reachable(s) && id !in s.usedIds && row.hash.salt !in s.usedSalts && digest !in s.grants
    requires Occupied(s.tables.users, row.username, row.email, Some(id)).None?
    requires row == Row(row.username, row.email, row.hash, Active, row.createdAt, row.createdAt, 1)
    ensures var run := Play(s, [Create(id, row.username, row.email, row.hash, row.createdAt), BeginLogin(id, password),
                                EndLogin(|s.logins|, digest, start, ttl)]);
      && run.Some? && id in run.value.tables.users && run.value.tables.users[id] == row
      && (CurrentUser(run.value.tables, digest, now) == Returned(row) <==>
            password == row.hash.password && start <= now < start + ttl)
      && (CurrentUser(run.value.tables, digest, now).Returned? ==>
            CurrentUser(run.value.tables, digest, now) == Returned(row))
  {
    var create := Create(id, row.username, row.email, row.hash, row.createdAt);
    var t := UserCreated(s, id, row);
    PlayThree(s, create, BeginLogin(id, password), EndLogin(|s.logins|, digest, start, ttl));
    assert Play(s, []) == Some(s);
    ReachableKeepsInv(s);
    StepKeepsInv(s, create);
    hide Play, Reachable, Inv;
    var login := Login(id, row, password);
    var u := Apply(t, BeginLogin(id, password));
    assert u == t.(logins := t.logins + [login]);
    LoginOf(t, u, login, digest, start, ttl, now);
  }

  lemma UserCreated(s: State, id: UserId, row: Row) returns (t: State)
    requires Reachable(s) && id !in s.usedIds && row.hash.salt !in s.usedSalts
    requires Occupied(s.tables.users, row.username, row.email, Some(id)).None?
    requires row == Row(row.username, row.email, row.hash, Active, row.createdAt, row.createdAt, 1)
    ensures var create := Create(id, row.username, row.email, row.hash, row.createdAt);
      && Enabled(s, create) && t == Apply(s, create) && t.logins == s.logins && t.grants == s.grants
      && id in t.tables.users && t.tables.users[id] == row
  {
    ReachableKeepsInv(s);
    t := Apply(s, Create(id, row.username, row.email, row.hash, row.createdAt));
  }

  lemma PlayThree(s: State, a: Action, b: Action, c: Action)
    requires Enabled(s, a)
    ensures var t := Apply(s, a);
      Play(s, [a, b, c]) == if Enabled(t, b) && Enabled(Apply(t, b), c) then Some(Apply(Apply(t, b), c)) else None
  {
    hide Apply, Enabled;
    assert [a, b, c][..2] == [a, b] && [a, b][..1] == [a] && [a][..0] == [];
    assert Play(s, []) == Some(s);
    assert Play(s, [a]) == Some(Apply(s, a));
  }

  lemma LoginOf(t: State, u: State, login: Login, digest: Digest, start: Time, ttl: Lifetime, now: Time)
    requires SessionsBacked(t) && u == t.(logins := t.logins + [login]) && digest !in t.grants
    requires login.user in t.tables.users && t.tables.users[login.user] == login.snapshot
    requires login.snapshot.status == Active
    ensures Enabled(u, EndLogin(|t.logins|, digest, start, ttl))
    ensures var v := Apply(u, EndLogin(|t.logins|, digest, start, ttl)).tables;
      && v.users == t.tables.users
      && (CurrentUser(v, digest, now) ==
            if login.password == login.snapshot.hash.password && start <= now < start + ttl
            then Returned(login.snapshot) else Raised(AuthenticationRequired))
  {
    assert digest !in t.tables.sessions;
    assert digest !in WithoutExpired(t.tables.sessions, start);
  }

  /** A reset, a disabling or a deletion ends all earlier sessions of the user for good: no later run, not even one
      that enables the user again, brings a valid answer back for any of them. */
  lemma RevokedForGood(s: State, a: Action, actions: seq<Action>, digest: Digest, now: Time)
    requires Reachable(s) && Enabled(s, a) && (a.Remove? || (a.Alter? && Revokes(a.change)))
    requires a.id in s.tables.users
    requires digest in s.grants && s.grants[digest].user == a.id
    requires Play(Apply(s, a), actions).Some?
    ensures CurrentUser(Play(Apply(s, a), actions).value.tables, digest, now).Raised?
  {
    ReachableKeepsInv(s);
    assert Gone(Apply(s, a), digest);
    GoneForGood(Apply(s, a), actions, digest);
  }

  /** A reset or a deletion also voids the logins that had read the account before it: in no later run does one of
      them leave a session. */
  lemma StaleLoginNeverSucceeds(s: State, a: Action, k: nat, actions: seq<Action>, digest: Digest, now: Time,
      ttl: Lifetime)
    requires Reachable(s) && Enabled(s, a) && (a.Remove? || (a.Alter? && a.change.ResetPassword?))
    requires a.id in s.tables.users && k < |s.logins| && s.logins[k].user == a.id
    requires Play(Apply(s, a), actions).Some?
    ensures var later := Play(Apply(s, a), actions).value;
      k < |later.logins| && later.logins[k] == s.logins[k]
      && FinishLogin(later.tables, later.logins[k], digest, now, ttl) == Raised(InvalidCredentials)
  {
    ReachableKeepsInv(s);
    assert LoginRecorded(s, s.logins[k]);
    assert Void(Apply(s, a), s.logins[k]);
    VoidForGood(Apply(s, a), actions, s.logins[k]);
    LoginsStay(Apply(s, a), actions, k);
  }

  lemma {:induction false} LoginsStay(s: State, actions: seq<Action>, k: nat)
    requires k < |s.logins| && Play(s, actions).Some?
    ensures k < |Play(s, actions).value.logins| && Play(s, actions).value.logins[k] == s.logins[k]
    decreases |actions|
  {
    if actions == [] {
    } else {
      LoginsStay(s, actions[..|actions| - 1], k);
    }
  }

  /** In some later run the second transaction of the login goes through. */
  ghost predicate CanSucceed(s: State, login: Login, digest: Digest, now: Time, ttl: Lifetime) {
    exists later ::
      Play(s, later).Some? && FinishLogin(Play(s, later).value.tables, login, digest, now, ttl).Returned?
  }

  /** A state on the way: the account has kept its hash, names are unique, and the digest is still unused. */
  ghost predicate OnTheWay(s: State, later: seq<Action>, t: State, login: Login, digest: Digest) {
    && Play(s, later) == Some(t) && NamesUnique(t.tables.users) && digest !in t.tables.sessions
    && login.user in t.tables.users && t.tables.users[login.user].hash == login.snapshot.hash
  }

  lemma Extend(s: State, later: seq<Action>, t: State, a: Action) returns (longer: seq<Action>, u: State)
    requires Play(s, later) == Some(t) && Enabled(t, a) && NamesUnique(t.tables.users)
    ensures longer == later + [a] && u == Apply(t, a) && Play(s, longer) == Some(u) && NamesUnique(u.tables.users)
  {
    longer, u := later + [a], Apply(t, a);
    assert longer[..|later|] == later;
    StepKeepsNamesUnique(t, a);
  }

  lemma FreeTheName(s: State, login: Login, digest: Digest) returns (later: seq<Action>, t: State)
    requires OnTheWay(s, [], s, login, digest)
    ensures OnTheWay(s, later, t, login, digest)
    ensures !UsernameTaken(t.tables.users, login.snapshot.username, Some(login.user))
  {
    later, t := [], s;
    if UsernameTaken(s.tables.users, login.snapshot.username, Some(login.user)) {
      var other :| other in s.tables.users && s.tables.users[other].username == login.snapshot.username
          && Some(other) != Some(login.user);
      hide Play;
      later, t := Extend(s, [], s, Remove(other));
      assert t.tables.users == s.tables.users - {other};
    }
  }

  lemma Enable(s: State, later: seq<Action>, t: State, login: Login, digest: Digest)
    returns (longer: seq<Action>, u: State)
    requires OnTheWay(s, later, t, login, digest)
    requires !UsernameTaken(t.tables.users, login.snapshot.username, Some(login.user))
    ensures OnTheWay(s, longer, u, login, digest) && u.tables.users[login.user].status == Active
    ensures !UsernameTaken(u.tables.users, login.snapshot.username, Some(login.user))
  {
    hide Play;
    longer, u := Extend(s, later, t, Alter(login.user, ChangeStatus(Active), 0));
    assert forall id :: id in u.tables.users && id != login.user ==>
        id in t.tables.users && u.tables.users[id] == t.tables.users[id];
  }

  lemma NameBack(s: State, later: seq<Action>, t: State, login: Login, digest: Digest)
    returns (longer: seq<Action>, u: State)
    requires OnTheWay(s, later, t, login, digest) && t.tables.users[login.user].status == Active
    requires !UsernameTaken(t.tables.users, login.snapshot.username, Some(login.user))
    ensures OnTheWay(s, longer, u, login, digest) && StillCurrent(u.tables, login)
  {
    hide Play;
    var email := t.tables.users[login.user].email;
    assert !EmailTaken(t.tables.users, email, Some(login.user));
    longer, u := Extend(s, later, t, Alter(login.user, UpdateProfile(login.snapshot.username, email), 0));
  }

  /** Exactly which logins under way can still succeed, whatever has happened to the account since they read it: those
      of users who still exist with the very hash that was verified.  A disabling or a renaming does not void them for
      good. */
  lemma LoginCanSucceedIff(s: State, k: nat, digest: Digest, now: Time, ttl: Lifetime)
    requires Reachable(s) && k < |s.logins| && Verified(s.logins[k]) && digest !in s.grants
    ensures var login := s.logins[k];
      CanSucceed(s, login, digest, now, ttl) <==>
        login.user in s.tables.users && s.tables.users[login.user].hash == login.snapshot.hash
  {
    ReachableKeepsInv(s);
    var login := s.logins[k];
    if login.user in s.tables.users && s.tables.users[login.user].hash == login.snapshot.hash {
      assert Play(s, []) == Some(s);
      var later, t := FreeTheName(s, login, digest);
      later, t := Enable(s, later, t, login, digest);
      later, t := NameBack(s, later, t, login, digest);
      SucceedsNow(t, login, digest, now, ttl);
    } else {
      assert LoginRecorded(s, login) && Void(s, login);
      VoidNeverSucceeds(s, login, digest, now, ttl);
    }
  }

  lemma SucceedsNow(t: State, login: Login, digest: Digest, now: Time, ttl: Lifetime)
    requires Verified(login) && StillCurrent(t.tables, login) && digest !in t.tables.sessions
    ensures FinishLogin(t.tables, login, digest, now, ttl).Returned?
  {
    assert digest !in WithoutExpired(t.tables.sessions, now);
  }

  lemma VoidNeverSucceeds(s: State, login: Login, digest: Digest, now: Time, ttl: Lifetime)
    requires Void(s, login)
    ensures !CanSucceed(s, login, digest, now, ttl)
  {
    forall later | Play(s, later).Some?
      ensures FinishLogin(Play(s, later).value.tables, login, digest, now, ttl).Raised?
    {
      VoidForGood(s, later, login);
    }
  }

  /** The shortest such run: a login that read the account before it was disabled succeeds if the account is enabled
      again before its second transaction. */
  lemma LoginSurvivesDisableAndEnable(t: Tables, login: Login, digest: Digest, early: Time, late: Time, now: Time,
      ttl: Lifetime)
    requires login.user in t.users && login.snapshot == t.users[login.user] && Verified(login) && digest !in t.sessions
    ensures var disabled := Committed(t, ChangeUser(t, login.user, ChangeStatus(Disabled), early));
      var enabled := Committed(disabled, ChangeUser(disabled, login.user, ChangeStatus(Active), late));
      && FinishLogin(disabled, login, digest, now, ttl) == Raised(InvalidCredentials)
      && FinishLogin(enabled, login, digest, now, ttl).Returned?
      && CurrentUser(FinishLogin(enabled, login, digest, now, ttl).value, digest, now) ==
          Returned(enabled.users[login.user])
  {
    var disabled := Committed(t, ChangeUser(t, login.user, ChangeStatus(Disabled), early));
    var enabled := Committed(disabled, ChangeUser(disabled, login.user, ChangeStatus(Active), late));
    assert digest !in WithoutExpired(enabled.sessions, now);
  }

  /** Cleaning up at `t` takes away exactly the answers that, at a clock set back before the session's end, would
      still have been given. */
  lemma CleanupTakesAway(tables: Tables, digest: Digest, t: Time, now: Time)
    ensures CurrentUser(Cleanup(tables, t), digest, now) != CurrentUser(tables, digest, now) <==>
      CurrentUser(tables, digest, now).Returned? && now < tables.sessions[digest].expiresAt <= t
  {
    assert digest in WithoutExpired(tables.sessions, t) <==>
        digest in tables.sessions && t < tables.sessions[digest].expiresAt;
  }

  /** From then on, no answer changes; the same holds for the cleanup a login does on its way. */
  lemma CleanupChangesNoAnswer(tables: Tables, digest: Digest, t: Time, now: Time)
    requires t <= now
    ensures CurrentUser(Cleanup(tables, t), digest, now) == CurrentUser(tables, digest, now)
  {
    CleanupTakesAway(tables, digest, t, now);
  }

  /** No two users ever share a name or an email, so a login finds at most one account. */
  lemma NamesStayUnique(s: State, i: UserId, j: UserId)
    requires Reachable(s) && i in s.tables.users && j in s.tables.users && i != j
    ensures s.tables.users[i].username != s.tables.users[j].username
    ensures s.tables.users[i].email != s.tables.users[j].email
  {
    ReachableKeepsInv(s);
  }
}
