/**
 The user context: the aggregate, the two tables, and the services' units of work.  Every unit of work is a
 function on the tables, and the class methods that go through the repositories are tied to it.
 */
module Users {
  import opened Common

  type UserId = nat
  type Username = nat
  type Email = nat
  type Password = nat
  type Digest = nat
  type Time = int

  /** The services refuse a session lifetime that is not positive. */
  type Lifetime = n: nat | 0 < n witness 1

  datatype Status = Active | Disabled

  /** A salted hash stands for its password and its salt. */
  datatype PasswordHash = PasswordHash(password: Password, salt: nat)

  predicate Verifies(password: Password, hash: PasswordHash) {
    hash.password == password
  }

  datatype Row = Row(username: Username, email: Email, hash: PasswordHash, status: Status,
                     createdAt: Time, updatedAt: Time, version: nat)

  datatype Session = Session(user: UserId, issuedAt: Time, expiresAt: Time) {
    predicate IsValid(now: Time) {
      issuedAt <= now < expiresAt
    }
  }

  datatype Tables = Tables(users: map<UserId, Row>, sessions: map<Digest, Session>)

  datatype Change =
    | UpdateProfile(username: Username, email: Email)
    | ChangeStatus(status: Status)
    | ResetPassword(hash: PasswordHash)

  datatype Field = UsernameField | EmailField

  datatype Failure =
    | NotFound
    | Conflict(field: Field)
    | ConcurrentUpdate
    | InvalidCredentials
    | AuthenticationRequired
    | DuplicateKey      // an integrity error that is no user conflict

  datatype UpdateResult = Updated | Missing | Stale

  // ---- Units of work as functions --------------------------------------------------------------

  /** The aggregate after one of its mutators; the version is advanced by the repository. */
  function Mutated(row: Row, change: Change, now: Time): Row {
    match change
    case UpdateProfile(username, email) => row.(username := username, email := email, updatedAt := now)
    case ChangeStatus(status) => row.(status := status, updatedAt := now)
    case ResetPassword(hash) => row.(hash := hash, updatedAt := now)
  }

  predicate Revokes(change: Change) {
    change == ChangeStatus(Disabled) || change.ResetPassword?
  }

  function WithoutUser(sessions: map<Digest, Session>, id: UserId): map<Digest, Session> {
    map d | d in sessions && sessions[d].user != id :: sessions[d]
  }

  function WithoutExpired(sessions: map<Digest, Session>, now: Time): map<Digest, Session> {
    map d | d in sessions && now < sessions[d].expiresAt :: sessions[d]
  }

  predicate UsernameTaken(users: map<UserId, Row>, username: Username, excluding: Option<UserId>) {
    exists id :: id in users && users[id].username == username && Some(id) != excluding
  }

  predicate EmailTaken(users: map<UserId, Row>, email: Email, excluding: Option<UserId>) {
    exists id :: id in users && users[id].email == email && Some(id) != excluding
  }

  /** The first field in conflict; the user name is looked at first. */
  function Occupied(users: map<UserId, Row>, username: Username, email: Email,
      excluding: Option<UserId>): Option<Field> {
    if UsernameTaken(users, username, excluding) then Some(UsernameField)
    else if EmailTaken(users, email, excluding) then Some(EmailField)
    else None
  }

  function NewRow(username: Username, email: Email, hash: PasswordHash, now: Time): Row {
    Row(username, email, hash, Active, now, now, 1)
  }

  function CreateUser(t: Tables, id: UserId, username: Username, email: Email, hash: PasswordHash,
      now: Time): Outcome<Tables, Failure> {
    var field := Occupied(t.users, username, email, Some(id));
    if field.Some? then Raised(Conflict(field.value))
    else if id in t.users then Raised(DuplicateKey)
    else Returned(t.(users := t.users[id := NewRow(username, email, hash, now)]))
  }

  function ChangeUser(t: Tables, id: UserId, change: Change, now: Time): Outcome<Tables, Failure> {
    if id !in t.users then Raised(NotFound)
    else
      var row := Mutated(t.users[id], change, now);
      var field := Occupied(t.users, row.username, row.email, Some(id));
      if change.UpdateProfile? && field.Some? then Raised(Conflict(field.value))
      else
        var users := t.users[id := row.(version := row.version + 1)];
        Returned(Tables(users, if Revokes(change) then WithoutUser(t.sessions, id) else t.sessions))
  }

  /** The foreign key of the sessions cascades. */
  function DeleteUser(t: Tables, id: UserId): Outcome<Tables, Failure> {
    if id !in t.users then Raised(NotFound) else Returned(Tables(t.users - {id}, WithoutUser(t.sessions, id)))
  }

  /** What the first transaction of a login leaves behind, together with the password to verify. */
  datatype Login = Login(user: UserId, snapshot: Row, password: Password)

  predicate Verified(login: Login) {
    Verifies(login.password, login.snapshot.hash) && login.snapshot.status == Active
  }

  predicate StillCurrent(t: Tables, login: Login) {
    && login.user in t.users
    && t.users[login.user].status == Active
    && t.users[login.user].hash == login.snapshot.hash
    && t.users[login.user].username == login.snapshot.username
  }

  function FinishLogin(t: Tables, login: Login, digest: Digest, now: Time, ttl: Lifetime): Outcome<Tables, Failure> {
    if !Verified(login) || !StillCurrent(t, login) then Raised(InvalidCredentials)
    else
      var kept := WithoutExpired(t.sessions, now);
      if digest in kept then Raised(DuplicateKey)
      else Returned(t.(sessions := kept[digest := Session(login.user, now, now + ttl)]))
  }

  function CurrentUser(t: Tables, digest: Digest, now: Time): Outcome<Row, Failure> {
    if digest !in t.sessions || !t.sessions[digest].IsValid(now) then Raised(AuthenticationRequired)
    else
      var id := t.sessions[digest].user;
      if id !in t.users || t.users[id].status != Active then Raised(AuthenticationRequired) else Returned(t.users[id])
  }

  function Logout(t: Tables, digest: Digest): Tables {
    t.(sessions := t.sessions - {digest})
  }

  function Cleanup(t: Tables, now: Time): Tables {
    t.(sessions := WithoutExpired(t.sessions, now))
  }

  // ---- The aggregate and the repositories ------------------------------------------------------

  class User {
    const id: UserId
    var row: Row

    constructor (id: UserId, row: Row)
      ensures this.id == id && this.row == row
    {
      this.id, this.row := id, row;
    }

    method UpdateProfile(username: Username, email: Email, now: Time)
      modifies this
      ensures row == Mutated(old(row), Change.UpdateProfile(username, email), now)
      ensures row == old(row).(username := username, email := email, updatedAt := now)
    {
      row := row.(username := username);
      row := row.(email := email);
      row := row.(updatedAt := now);
    }

    method ChangeStatus(status: Status, now: Time)
      modifies this
      ensures row == Mutated(old(row), Change.ChangeStatus(status), now)
      ensures row == old(row).(status := status, updatedAt := now)
    {
      row := row.(status := status);
      row := row.(updatedAt := now);
    }

    method ResetPassword(hash: PasswordHash, now: Time)
      modifies this
      ensures row == Mutated(old(row), Change.ResetPassword(hash), now)
      ensures row == old(row).(hash := hash, updatedAt := now)
    {
      row := row.(hash := hash);
      row := row.(updatedAt := now);
    }

    method AdvanceVersion()
      modifies this
      ensures row == old(row).(version := old(row).version + 1)
    {
      row := row.(version := row.version + 1);
    }
  }

  /** The columns the UPDATE sets, taken from the object; the others stay as stored. */
  function UpdateValues(stored: Row, user: Row): Row {
    stored.(username := user.username, email := user.email, hash := user.hash, status := user.status,
            updatedAt := user.updatedAt, version := user.version + 1)
  }

  /** The conditional UPDATE: the row is replaced exactly when it has the aggregate's version. */
  function UpdateOutcome(users: map<UserId, Row>, id: UserId, version: nat): UpdateResult {
    if id !in users then Missing else if users[id].version == version then Updated else Stale
  }

  function EnsureUpdated(result: UpdateResult): Option<Failure> {
    match result
    case Updated => None
    case Missing => Some(NotFound)
    case Stale => Some(ConcurrentUpdate)
  }

  /** One transaction with its two repositories; `Commit` publishes its tables, leaving it drops them. */
  class UnitOfWork {
    var tables: Tables

    constructor (committed: Tables)
      ensures tables == committed
    {
      tables := committed;
    }

    method Find(id: UserId) returns (user: User?)
      ensures user == null <==> id !in tables.users
      ensures user != null ==> fresh(user) && user.id == id && user.row == tables.users[id]
    {
      if id !in tables.users {
        return null;
      }
      user := new User(id, tables.users[id]);
    }

    method FindByUsername(username: Username) returns (user: User?)
      ensures user == null <==> !UsernameTaken(tables.users, username, None)
      ensures user != null ==> fresh(user) && user.id in tables.users && user.row == tables.users[user.id]
      ensures user != null ==> user.row.username == username
    {
      if id :| id in tables.users && tables.users[id].username == username {
        user := new User(id, tables.users[id]);
      } else {
        user := null;
      }
    }

    method EnsureUnique(username: Username, email: Email, excluding: Option<UserId>) returns (field: Option<Field>)
      ensures field == Occupied(tables.users, username, email, excluding)
    {
      if UsernameTaken(tables.users, username, excluding) {
        return Some(UsernameField);
      }
      if EmailTaken(tables.users, email, excluding) {
        return Some(EmailField);
      }
      field := None;
    }

    /** Adding a row whose primary key exists makes the commit fail. */
    method Add(user: User) returns (accepted: bool)
      modifies this
      ensures accepted <==> user.id !in old(tables).users
      ensures tables == if accepted then old(tables).(users := old(tables).users[user.id := user.row]) else old(tables)
    {
      if user.id in tables.users {
        return false;
      }
      accepted := true;
      tables := tables.(users := tables.users[user.id := user.row]);
    }

    method Update(user: User) returns (result: UpdateResult)
      modifies this, user
      ensures result == UpdateOutcome(old(tables).users, user.id, old(user.row).version)
      ensures result == Updated ==> user.row == old(user.row).(version := old(user.row).version + 1)
      ensures result != Updated ==> user.row == old(user.row)
      ensures result != Updated ==> tables == old(tables)
      ensures result == Updated ==>
                tables == old(tables).(users :=
                    old(tables).users[user.id := UpdateValues(old(tables).users[user.id], old(user.row))])
    {
      if user.id in tables.users && tables.users[user.id].version == user.row.version {
        tables := tables.(users := tables.users[user.id := UpdateValues(tables.users[user.id], user.row)]);
        user.AdvanceVersion();
        return Updated;
      }
      result := if user.id in tables.users then Stale else Missing;
    }

    method Remove(id: UserId) returns (removed: bool)
      modifies this
      ensures removed <==> id in old(tables).users
      ensures tables == if removed then Tables(old(tables).users - {id}, WithoutUser(old(tables).sessions, id))
          else old(tables)
    {
      if id !in tables.users {
        return false;
      }
      tables := Tables(tables.users - {id}, WithoutUser(tables.sessions, id));
      removed := true;
    }

    method AddSession(digest: Digest, session: Session) returns (accepted: bool)
      modifies this
      ensures accepted <==> digest !in old(tables).sessions
      ensures tables == if accepted then old(tables).(sessions := old(tables).sessions[digest := session])
          else old(tables)
    {
      if digest in tables.sessions {
        return false;
      }
      accepted := true;
      tables := tables.(sessions := tables.sessions[digest := session]);
    }

    method RemoveSession(digest: Digest)
      modifies this
      ensures tables == old(tables).(sessions := old(tables).sessions - {digest})
    {
      tables := tables.(sessions := tables.sessions - {digest});
    }

    method RemoveForUser(id: UserId)
      modifies this
      ensures tables == old(tables).(sessions := WithoutUser(old(tables).sessions, id))
    {
      tables := tables.(sessions := WithoutUser(tables.sessions, id));
    }

    method RemoveExpired(now: Time)
      modifies this
      ensures tables == old(tables).(sessions := WithoutExpired(old(tables).sessions, now))
    {
      tables := tables.(sessions := WithoutExpired(tables.sessions, now));
    }
  }

  // ---- The services ----------------------------------------------------------------------------

  /** The committed tables after a unit of work that returned or raised. */
  function Committed(before: Tables, outcome: Outcome<Tables, Failure>): Tables {
    if outcome.Returned? then outcome.value else before
  }

  /** The failure a caller sees, if any. */
  function Answer(outcome: Outcome<Tables, Failure>): Option<Failure> {
    if outcome.Returned? then None else Some(outcome.error)
  }

  class Services {
    var committed: Tables
    const ttl: Lifetime

    constructor (ttl: Lifetime)
      ensures committed == Tables(map[], map[]) && this.ttl == ttl
    {
      committed, this.ttl := Tables(map[], map[]), ttl;
    }

    /** `create` after the slow hash. */
    method Create(id: UserId, username: Username, email: Email, hash: PasswordHash, now: Time)
      returns (failure: Option<Failure>)
      modifies this
      ensures committed == Committed(old(committed), CreateUser(old(committed), id, username, email, hash, now))
      ensures failure == Answer(CreateUser(old(committed), id, username, email, hash, now))
      ensures var users := old(committed).users;
        var sameName := exists other :: other in users && users[other].username == username && other != id;
        var sameEmail := exists other :: other in users && users[other].email == email && other != id;
        && (failure == Some(Conflict(UsernameField)) <==> sameName)
        && (failure == Some(Conflict(EmailField)) <==> !sameName && sameEmail)
        && (failure.None? <==> !sameName && !sameEmail && id !in users)
      ensures failure.Some? ==> committed == old(committed)
      ensures failure.None? ==>
        && committed.users == old(committed).users[id := Row(username, email, hash, Active, now, now, 1)]
        && committed.sessions == old(committed).sessions
    {
      var user := new User(id, NewRow(username, email, hash, now));
      var uow := new UnitOfWork(committed);
      var field := uow.EnsureUnique(user.row.username, user.row.email, Some(user.id));
      if field.Some? {
        return Some(Conflict(field.value));
      }
      var accepted := uow.Add(user);
      if !accepted {
        return Some(DuplicateKey);
      }
      committed := uow.tables;
      failure := None;
    }

    method Update(id: UserId, username: Username, email: Email, now: Time) returns (failure: Option<Failure>)
      modifies this
      ensures committed == Committed(old(committed),
          ChangeUser(old(committed), id, UpdateProfile(username, email), now))
      ensures failure == Answer(ChangeUser(old(committed), id, UpdateProfile(username, email), now))
      ensures var users := old(committed).users;
        var sameName := exists other :: other in users && users[other].username == username && other != id;
        var sameEmail := exists other :: other in users && users[other].email == email && other != id;
        && (failure == Some(NotFound) <==> id !in users)
        && (failure == Some(Conflict(UsernameField)) <==> id in users && sameName)
        && (failure == Some(Conflict(EmailField)) <==> id in users && !sameName && sameEmail)
        && (failure.None? <==> id in users && !sameName && !sameEmail)
      ensures failure.Some? ==> committed == old(committed)
      ensures failure.None? ==>
        var before := old(committed).users[id];
        && committed.users == old(committed).users[id :=
              before.(username := username, email := email, updatedAt := now, version := before.version + 1)]
        && committed.sessions == old(committed).sessions
    {
      var uow := new UnitOfWork(committed);
      var user := uow.Find(id);
      if user == null {
        return Some(NotFound);
      }
      user.UpdateProfile(username, email, now);
      var field := uow.EnsureUnique(user.row.username, user.row.email, Some(user.id));
      if field.Some? {
        return Some(Conflict(field.value));
      }
      var result := uow.Update(user);
      assert EnsureUpdated(result) == None;  // nothing comes between within one unit of work
      committed := uow.tables;
      failure := None;
    }

    method SetStatus(id: UserId, status: Status, now: Time) returns (failure: Option<Failure>)
      modifies this
      ensures committed == Committed(old(committed), ChangeUser(old(committed), id, ChangeStatus(status), now))
      ensures failure == Answer(ChangeUser(old(committed), id, ChangeStatus(status), now))
      ensures failure == if id in old(committed).users then None else Some(NotFound)
      ensures failure.Some? ==> committed == old(committed)
      ensures failure.None? ==>
        var before := old(committed).users[id];
        && committed.users == old(committed).users[id :=
              before.(status := status, updatedAt := now, version := before.version + 1)]
        && (forall d :: d in committed.sessions <==>
              d in old(committed).sessions && (status == Disabled ==> old(committed).sessions[d].user != id))
        && (forall d :: d in committed.sessions ==> committed.sessions[d] == old(committed).sessions[d])
    {
      var uow := new UnitOfWork(committed);
      var user := uow.Find(id);
      if user == null {
        return Some(NotFound);
      }
      user.ChangeStatus(status, now);
      var result := uow.Update(user);
      assert EnsureUpdated(result) == None;
      if user.row.status == Disabled {
        uow.RemoveForUser(id);
      }
      committed := uow.tables;
      failure := None;
    }

    /** `reset_password` after the slow hash. */
    method ReplacePassword(id: UserId, hash: PasswordHash, now: Time) returns (failure: Option<Failure>)
      modifies this
      ensures committed == Committed(old(committed), ChangeUser(old(committed), id, ResetPassword(hash), now))
      ensures failure == Answer(ChangeUser(old(committed), id, ResetPassword(hash), now))
      ensures failure == if id in old(committed).users then None else Some(NotFound)
      ensures failure.Some? ==> committed == old(committed)
      ensures failure.None? ==>
        var before := old(committed).users[id];
        && committed.users == old(committed).users[id :=
              before.(hash := hash, updatedAt := now, version := before.version + 1)]
        && (forall d :: d in committed.sessions <==>
              d in old(committed).sessions && old(committed).sessions[d].user != id)
        && (forall d :: d in committed.sessions ==> committed.sessions[d] == old(committed).sessions[d])
    {
      var uow := new UnitOfWork(committed);
      var user := uow.Find(id);
      if user == null {
        return Some(NotFound);
      }
      user.ResetPassword(hash, now);
      var result := uow.Update(user);
      assert EnsureUpdated(result) == None;
      uow.RemoveForUser(id);
      committed := uow.tables;
      failure := None;
    }

    method Delete(id: UserId) returns (failure: Option<Failure>)
      modifies this
      ensures committed == Committed(old(committed), DeleteUser(old(committed), id))
      ensures failure == Answer(DeleteUser(old(committed), id))
      ensures failure == if id in old(committed).users then None else Some(NotFound)
      ensures failure.Some? ==> committed == old(committed)
      ensures failure.None? ==>
        && committed.users == old(committed).users - {id}
        && (forall d :: d in committed.sessions <==>
              d in old(committed).sessions && old(committed).sessions[d].user != id)
        && (forall d :: d in committed.sessions ==> committed.sessions[d] == old(committed).sessions[d])
    {
      var uow := new UnitOfWork(committed);
      var removed := uow.Remove(id);
      if !removed {
        return Some(NotFound);
      }
      committed := uow.tables;
      failure := None;
    }

    /** The first transaction of `login`. */
    method ReadSnapshot(username: Username, password: Password) returns (login: Option<Login>)
      ensures login.None? <==> !UsernameTaken(committed.users, username, None)
      ensures login.Some? ==>
        && login.value.user in committed.users && login.value.snapshot == committed.users[login.value.user]
        && login.value.snapshot.username == username && login.value.password == password
    {
      var uow := new UnitOfWork(committed);
      var user := uow.FindByUsername(username);
      if user == null {
        return None;
      }
      login := Some(Login(user.id, user.row, password));
    }

    /** From the slow hash to the end of the second transaction of `login`. */
    method IssueSession(login: Login, digest: Digest, now: Time) returns (failure: Option<Failure>)
      modifies this
      ensures committed == Committed(old(committed), FinishLogin(old(committed), login, digest, now, ttl))
      ensures failure == Answer(FinishLogin(old(committed), login, digest, now, ttl))
      ensures var users, seen := old(committed).users, login.snapshot;
        failure != Some(InvalidCredentials) <==>
          && login.password == seen.hash.password && seen.status == Active
          && login.user in users && users[login.user].status == Active
          && users[login.user].hash == seen.hash && users[login.user].username == seen.username
      ensures failure.Some? ==> committed == old(committed)
      ensures failure.None? ==>
        && committed.users == old(committed).users
        && digest in committed.sessions && committed.sessions[digest] == Session(login.user, now, now + ttl)
        && (forall d :: d in committed.sessions && d != digest <==>
              d != digest && d in old(committed).sessions && now < old(committed).sessions[d].expiresAt)
        && (forall d :: d in committed.sessions && d != digest ==>
              committed.sessions[d] == old(committed).sessions[d])
    {
      var verified := Verifies(login.password, login.snapshot.hash);
      if !verified || login.snapshot.status != Active {
        return Some(InvalidCredentials);
      }
      var uow := new UnitOfWork(committed);
      var current := uow.Find(login.user);
      if current == null {
        return Some(InvalidCredentials);
      }
      if current.row.status != Active || current.row.hash != login.snapshot.hash
          || current.row.username != login.snapshot.username {
        return Some(InvalidCredentials);
      }
      uow.RemoveExpired(now);
      var accepted := uow.AddSession(digest, Session(current.id, now, now + ttl));
      if !accepted {
        return Some(DuplicateKey);
      }
      committed := uow.tables;
      failure := None;
    }

    method WhoAmI(digest: Digest, now: Time) returns (answer: Outcome<Row, Failure>)
      ensures answer == CurrentUser(committed, digest, now)
      ensures answer.Returned? <==>
        && digest in committed.sessions
        && committed.sessions[digest].issuedAt <= now < committed.sessions[digest].expiresAt
        && committed.sessions[digest].user in committed.users
        && committed.users[committed.sessions[digest].user].status == Active
      ensures answer.Returned? ==> answer.value == committed.users[committed.sessions[digest].user]
      ensures answer.Raised? ==> answer.error == AuthenticationRequired
    {
      var uow := new UnitOfWork(committed);
      if digest !in uow.tables.sessions || !uow.tables.sessions[digest].IsValid(now) {
        return Raised(AuthenticationRequired);
      }
      var user := uow.Find(uow.tables.sessions[digest].user);
      if user == null || user.row.status != Active {
        return Raised(AuthenticationRequired);
      }
      answer := Returned(user.row);
    }

    method EndSession(digest: Digest)
      modifies this
      ensures committed == Logout(old(committed), digest)
      ensures committed.users == old(committed).users && committed.sessions == old(committed).sessions - {digest}
    {
      var uow := new UnitOfWork(committed);
      uow.RemoveSession(digest);
      committed := uow.tables;
    }

    method CleanUp(now: Time)
      modifies this
      ensures committed == Cleanup(old(committed), now)
      ensures committed.users == old(committed).users
      ensures forall d :: d in committed.sessions <==>
        d in old(committed).sessions && now < old(committed).sessions[d].expiresAt
      ensures forall d :: d in committed.sessions ==> committed.sessions[d] == old(committed).sessions[d]
    {
      var uow := new UnitOfWork(committed);
      uow.RemoveExpired(now);
      committed := uow.tables;
    }
  }
}
