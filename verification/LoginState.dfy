// The login service's users, in memory and on disk, and the sessions it has issued. Passwords are compared by
// an injective digest of salt and password, signatures cannot be forged, and session versions are never reused.
module Login {
  import opened Common

  datatype Role = Admin | Operator

  datatype Digest = Digest(salt: nat, password: string)

  // `changed` is when the password, the role or the enabled flag last changed; the service does not store it.
  datatype User = User(role: Role, enabled: bool, digest: Digest, version: nat, changed: nat)

  // A version-2 session as it was signed.
  datatype Session = Session(user: string, role: Role, version: nat, issued: nat)

  type Users = map<string, User>

  predicate ActiveAdmin(u: User) {
    u.enabled && u.role.Admin?
  }

  predicate HasAdmin(users: Users) {
    exists name | name in users :: ActiveAdmin(users[name])
  }

  function Admins(users: Users): set<string> {
    set name | name in users && ActiveAdmin(users[name])
  }

  function OtherAdmins(users: Users, name: string): set<string> {
    set other | other in users && other != name && ActiveAdmin(users[other])
  }

  // Everything known was there before now, and a session issued under a user's version is no older than the
  // user's last change.
  predicate Recorded(users: Users, issued: set<Session>, nextVersion: nat, clock: nat) {
    && (forall name | name in users :: users[name].version < nextVersion && users[name].changed <= clock)
    && (forall s | s in issued :: s.version < nextVersion)
    && forall s | s in issued && s.user in users && users[s.user].version == s.version :: users[s.user].changed <= s.issued
  }

  // What authenticate remembers while it hashes without the lock.
  datatype Check = Check(user: string, password: string, digest: Digest, version: nat)

  // A configuration file: the users it lists, or the one administrator an older file names.
  datatype Config = Listed(users: Users) | Legacy(name: string, digest: Digest)

  datatype Update = Update(role: Option<Role>, enabled: Option<bool>, password: Option<string>)

  class LoginState {
    var users: Users
    var disk: Users
    // Models' own: the sessions signed so far, the supply of fresh versions and salts, and a logical clock.
    var issued: set<Session>
    var nextVersion: nat
    var clock: nat

    predicate Valid()
      reads this
    {
      && HasAdmin(users) && HasAdmin(disk)
      && Recorded(users, issued, nextVersion, clock) && Recorded(disk, issued, nextVersion, clock)
    }

    // The users as a first configuration lists them, before any session is issued.
    constructor (users: Users, nextVersion: nat, clock: nat)
      requires HasAdmin(users) && Recorded(users, {}, nextVersion, clock)
      ensures Valid() && this.users == users && this.disk == users && issued == {}
      ensures this.nextVersion == nextVersion && this.clock == clock
    {
      this.users, this.disk, issued, this.nextVersion, this.clock := users, users, {}, nextVersion, clock;
    }

    // Writing the configuration replaces the file as a whole, or leaves it; the process may die at either point.
    method Persist(candidate: Users) returns (ok: bool, alive: bool)
      requires HasAdmin(candidate)
      modifies this`disk
      ensures disk == candidate || (!ok && disk == old(disk))
      ensures ok ==> alive
    {
      var replaced: bool := *;
      ok, alive := *, *;
      ok := ok && replaced;
      alive := alive || ok;
      if replaced {
        disk := candidate;
      }
    }

    method Restart()
      requires Valid()
      modifies this`users
      ensures Valid() && users == disk
    {
      users := disk;
    }

    // authenticate, before the lock is released: the snapshot to verify the password against.
    method BeginLogin(name: string, password: string) returns (c: Option<Check>)
      ensures c == if name in users && users[name].enabled then Some(Check(name, password, users[name].digest, users[name].version)) else None
    {
      c := if name in users && users[name].enabled then Some(Check(name, password, users[name].digest, users[name].version)) else None;
    }

    // authenticate, after hashing: a session only if the verified credentials are still the current ones.
    method FinishLogin(c: Check) returns (s: Option<Session>)
      requires Valid()
      modifies this`issued, this`clock
      ensures Valid() && clock == old(clock) + 1
      ensures issued == old(issued) + if s.Some? then {s.value} else {}
      ensures s.Some? <==>
                && c.digest.password == c.password
                && c.user in users && users[c.user].enabled && users[c.user].version == c.version && users[c.user].digest == c.digest
      ensures s.Some? ==> s.value == Session(c.user, users[c.user].role, c.version, clock)
    {
      clock := clock + 1;
      s := None;
      if c.digest == Digest(c.digest.salt, c.password) {
        if c.user in users && users[c.user].enabled && users[c.user].version == c.version && users[c.user].digest == c.digest {
          s := Some(Session(c.user, users[c.user].role, c.version, clock));
          issued := issued + {s.value};
        }
      }
    }

    // session_user for version-2 sessions; expiry aside.
    method SessionUser(s: Session) returns (user: Option<User>)
      requires Valid() && s in issued
      ensures user.Some? <==> s.user in users && users[s.user].enabled && users[s.user].version == s.version
      ensures user.Some? ==> user.value == users[s.user] && users[s.user].changed <= s.issued
    {
      user := if s.user in users && users[s.user].enabled && users[s.user].version == s.version then Some(users[s.user]) else None;
    }

    // A user whose writing fails stays in memory although the call reports the failure, unless the process dies.
    method CreateUser(name: string, password: string, role: Role) returns (ok: bool, restarted: bool)
      requires Valid()
      modifies this`users, this`disk, this`nextVersion, this`clock
      ensures Valid() && clock == old(clock) + 1
      ensures name in old(users) ==> !ok && !restarted && users == old(users) && disk == old(disk)
      ensures name !in old(users) && !restarted ==> name in users && users == old(users)[name := users[name]] && IsNew(users[name], role, password, clock)
      ensures ok ==> !restarted && disk == users
      ensures !ok && disk != old(disk) ==>
                name in disk && disk == old(users)[name := disk[name]] && IsNew(disk[name], role, password, clock)
      ensures restarted ==> users == disk
    {
      clock := clock + 1;
      ok, restarted := false, false;
      if name in users {
        return;
      }
      var user := User(role, true, Digest(nextVersion, password), nextVersion, clock);
      NewVersion(users, issued, nextVersion, clock, name, user);
      nextVersion := nextVersion + 1;
      users := users[name := user];
      StillAdmin(old(users), users, name);
      var alive;
      ok, alive := Persist(users);
      if !alive {
        Restart();
        restarted := true;
      }
    }

    // A change is written before it is taken over in memory; what asks for no change is not written.
    method UpdateUser(actor: string, name: string, update: Update) returns (ok: bool, restarted: bool)
      requires Valid()
      modifies this`users, this`disk, this`nextVersion, this`clock
      ensures Valid() && clock == old(clock) + 1
      ensures ok ==> !restarted && name in old(users) && name in users && users == old(users)[name := users[name]]
      ensures ok ==> Applied(old(users)[name], update, users[name], clock)
      ensures ok && name == actor ==> ActiveAdmin(users[name])
      ensures ok ==> disk == if users == old(users) then old(disk) else users
      ensures !ok ==> users == if restarted then disk else old(users)
      ensures !ok && disk != old(disk) ==>
                name in old(users) && name in disk && disk == old(users)[name := disk[name]] && Applied(old(users)[name], update, disk[name], clock)
    {
      clock := clock + 1;
      ok, restarted := false, false;
      if name !in users {
        return;
      }
      var user := users[name];
      var role := if update.role.Some? then update.role.value else user.role;
      var enabled := if update.enabled.Some? then update.enabled.value else user.enabled;
      if name == actor && (!enabled || !role.Admin?) {
        return;
      }
      if ActiveAdmin(user) && (!enabled || !role.Admin?) && OtherAdmins(users, name) == {} {
        return;
      }
      var reset := update.password.Some? && update.password.value != "";
      if role == user.role && enabled == user.enabled && !reset {
        ok := true;
        assert users == users[name := users[name]];
        return;
      }
      var digest := if reset then Digest(nextVersion, update.password.value) else user.digest;
      var candidate := User(role, enabled, digest, nextVersion, clock);
      KeepsAdmin(users, name, candidate);
      assert Applied(user, update, candidate, clock);
      ok, restarted := Replace(name, candidate);
    }

    // Written first, then taken over in memory.
    method Replace(name: string, candidate: User) returns (ok: bool, restarted: bool)
      requires Valid() && HasAdmin(users[name := candidate]) && candidate.version == nextVersion && candidate.changed == clock
      modifies this`users, this`disk, this`nextVersion
      ensures Valid()
      ensures ok ==> !restarted && users == disk == old(users)[name := candidate]
      ensures !ok ==> users == if restarted then disk else old(users)
      ensures !ok ==> disk == old(disk) || disk == old(users)[name := candidate]
    {
      NewVersion(users, issued, nextVersion, clock, name, candidate);
      nextVersion := nextVersion + 1;
      var alive;
      ok, alive := Persist(users[name := candidate]);
      restarted := !alive;
      if ok {
        users := users[name := candidate];
      } else if !alive {
        Restart();
      }
    }

    // A deletion whose writing fails stays in memory although the call reports the failure, unless the process dies.
    method DeleteUser(actor: string, name: string) returns (ok: bool, restarted: bool)
      requires Valid()
      modifies this`users, this`disk, this`clock
      ensures Valid() && clock == old(clock) + 1
      ensures name == actor || name !in old(users) || (ActiveAdmin(old(users)[name]) && |Admins(old(users))| <= 1) ==>
                !ok && !restarted && users == old(users) && disk == old(disk)
      ensures name != actor && name in old(users) && !(ActiveAdmin(old(users)[name]) && |Admins(old(users))| <= 1) && !restarted ==>
                users == old(users) - {name}
      ensures ok ==> !restarted && users == disk == old(users) - {name}
      ensures !ok ==> disk == old(disk) || disk == old(users) - {name}
      ensures restarted ==> users == disk
    {
      clock := clock + 1;
      ok, restarted := false, false;
      if name !in users || name == actor {
        return;
      }
      if ActiveAdmin(users[name]) && |Admins(users)| <= 1 {
        return;
      }
      RemovalKeepsAdmin(users, name);
      users := users - {name};
      var alive;
      ok, alive := Persist(users);
      if !alive {
        Restart();
        restarted := true;
      }
    }
  }

  // The service starts unless its configuration has no enabled administrator, or an older configuration cannot be
  // written in the present form.
  method Open(config: Config, nextVersion: nat, clock: nat) returns (state: LoginState?)
    requires config.Listed? ==> Recorded(config.users, {}, nextVersion, clock)
    ensures state != null ==> fresh(state) && state.Valid() && state.issued == {}
    ensures config.Listed? ==> (state == null <==> !HasAdmin(config.users))
    ensures config.Listed? && state != null ==> state.users == state.disk == config.users
    ensures config.Legacy? && state != null ==>
              state.users == state.disk == map[config.name := User(Admin, true, config.digest, nextVersion, clock)]
  {
    state := null;
    match config
    case Listed(users) =>
      if exists name | name in users :: ActiveAdmin(users[name]) {
        state := new LoginState(users, nextVersion, clock);
      }
    case Legacy(name, digest) =>
      var users := map[name := User(Admin, true, digest, nextVersion, clock)];
      assert name in users && ActiveAdmin(users[name]);
      var written: bool := *;
      if written {
        state := new LoginState(users, nextVersion + 1, clock);
      }
  }

  predicate IsNew(u: User, role: Role, password: string, clock: nat) {
    u.role == role && u.enabled && u.digest.password == password && u.changed == clock
  }

  // An update's result: what was asked for, and a new version and time exactly when something changed.
  predicate Applied(before: User, update: Update, after: User, clock: nat) {
    && after.role == (if update.role.Some? then update.role.value else before.role)
    && after.enabled == (if update.enabled.Some? then update.enabled.value else before.enabled)
    && after.digest.password == (if update.password.Some? && update.password.value != "" then update.password.value else before.digest.password)
    && if after.role == before.role && after.enabled == before.enabled && (update.password.None? || update.password.value == "")
       then after == before
       else after.version > before.version && after.changed == clock
  }

  // No session has been issued under a version no user had.
  lemma NewVersion(users: Users, issued: set<Session>, nextVersion: nat, clock: nat, name: string, user: User)
    requires Recorded(users, issued, nextVersion, clock) && user.version == nextVersion && user.changed <= clock
    ensures Recorded(users[name := user], issued, nextVersion + 1, clock)
  {
  }

  lemma StillAdmin(before: Users, after: Users, name: string)
    requires HasAdmin(before) && name !in before && name in after && after == before[name := after[name]]
    ensures HasAdmin(after)
  {
    var admin :| admin in before && ActiveAdmin(before[admin]);
    assert admin in after && after[admin] == before[admin];
  }

  lemma KeepsAdmin(users: Users, name: string, candidate: User)
    requires HasAdmin(users) && name in users
    requires ActiveAdmin(users[name]) && !ActiveAdmin(candidate) ==> OtherAdmins(users, name) != {}
    ensures HasAdmin(users[name := candidate])
  {
    var after := users[name := candidate];
    if ActiveAdmin(candidate) {
      assert name in after && after[name] == candidate;
    } else if ActiveAdmin(users[name]) {
      var other :| other in OtherAdmins(users, name);
      assert other in after && after[other] == users[other];
    } else {
      var admin :| admin in users && ActiveAdmin(users[admin]);
      assert admin in after && after[admin] == users[admin];
    }
  }

  lemma RemovalKeepsAdmin(users: Users, name: string)
    requires HasAdmin(users) && name in users
    requires ActiveAdmin(users[name]) ==> |Admins(users)| > 1
    ensures HasAdmin(users - {name})
  {
    var after := users - {name};
    if ActiveAdmin(users[name]) {
      assert Admins(users) == OtherAdmins(users, name) + {name};
      var other :| other in OtherAdmins(users, name);
      assert other in after && after[other] == users[other];
    } else {
      var admin :| admin in users && ActiveAdmin(users[admin]);
      assert admin in after && after[admin] == users[admin];
    }
  }
}
