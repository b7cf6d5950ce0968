/**
  The user, item and log collections as one store, and the controller
  operations that change them: `performLog` appends to the log collection,
  `users_create_user` and `users_update_user` insert into or update the user
  collection behind the username-uniqueness gate.
*/
module Database {
  import opened Wrappers
  import opened Records
  import opened AuditLog

  /** Some stored user already has this username. */
  predicate UsernameTaken(users: map<Id, User>, username: string) {
    exists id :: id in users && users[id].username == Some(username)
  }

  /**
    `User.find({username})` finds at least one user. A request body without
    `username` gives the filter `{username: undefined}`; Mongoose drops a
    filter key whose value is `undefined`, so that filter is `{}` and finds
    every stored user.
  */
  predicate UsernameQueryMatches(users: map<Id, User>, username: Option<string>) {
    if username.Some? then UsernameTaken(users, username.value) else users != map[]
  }

  /** No two stored users share a username. */
  predicate UniqueUsernames(users: map<Id, User>) {
    forall a, b ::
      a in users && b in users && users[a].username.Some? && users[a].username == users[b].username ==> a == b
  }

  /** No two log records share an id. */
  predicate DistinctIds(logs: seq<LogRecord>) {
    forall i, j :: 0 <= i < j < |logs| ==> logs[i].id != logs[j].id
  }

  predicate FreshLogId(logs: seq<LogRecord>, id: Id) {
    forall i :: 0 <= i < |logs| ==> logs[i].id != id
  }

  /**
    The request body of an update, passed whole to `findByIdAndUpdate`: an
    absent field is left as it is, and `others` holds every further field.
  */
  datatype UserPatch = UserPatch(firstName: Option<string>, lastName: Option<string>,
                                 middleName: Option<string>, division: Option<string>,
                                 username: Option<string>, password: Option<string>,
                                 others: map<string, string>)

  /** The document fields a request body names on its own. */
  const NamedFields: set<string> := {"_id", "firstName", "lastName", "middleName", "division", "username", "password"}

  /** A request body has each key once, so `others` never repeats a named field. */
  predicate WellFormedPatch(p: UserPatch) {
    p.others.Keys !! NamedFields
  }

  function Pick(o: Option<string>, old_: string): string {
    if o.Some? then o.value else old_
  }

  /** `findByIdAndUpdate(id, updateFields)`: each present field replaces the stored one. */
  function ApplyPatch(u: User, p: UserPatch): (v: User)
    ensures p.firstName.Some? ==> v.firstName == p.firstName.value
    ensures p.firstName.None? ==> v.firstName == u.firstName
    ensures p.lastName.Some? ==> v.lastName == p.lastName.value
    ensures p.lastName.None? ==> v.lastName == u.lastName
    ensures p.middleName.Some? ==> v.middleName == p.middleName.value
    ensures p.middleName.None? ==> v.middleName == u.middleName
    ensures p.division.Some? ==> v.division == p.division.value
    ensures p.division.None? ==> v.division == u.division
    ensures p.username.None? ==> v.username == u.username
    ensures p.username.Some? ==> v.username == p.username
    ensures p.password.Some? ==> v.password == p.password.value
    ensures p.password.None? ==> v.password == u.password
    ensures v.others.Keys == u.others.Keys + p.others.Keys
    ensures forall f :: f in p.others ==> v.others[f] == p.others[f]
    ensures forall f :: f in u.others && f !in p.others ==> v.others[f] == u.others[f]
  {
    User(Pick(p.firstName, u.firstName), Pick(p.lastName, u.lastName),
         Pick(p.middleName, u.middleName), Pick(p.division, u.division),
         if p.username.Some? then p.username else u.username, Pick(p.password, u.password),
         u.others + p.others)
  }

  /** `if (updateFields.password)`: only a non-empty password is hashed. */
  predicate HashesPassword(p: UserPatch) {
    p.password.Some? && p.password.value != ""
  }

  /** The answers of `users_create_user`. */
  datatype CreateReply = UsernameExists | HashFailed | Created(id: Id)

  /**
    The answers of `users_update_user` and `performUpdate`; `UpdateFailed` is
    the 500 "Error in updating user" of a `findByIdAndUpdate` that rejects.
  */
  datatype UpdateReply = UpdateRefused | UpdateHashFailed | UpdateFailed | NotFound | Updated(user: User)

  /** The actor id both user handlers pass to `performLog`. */
  const AdminActor: Id := "admin"

  class Db {
    var users: map<Id, User>
    var items: map<Id, Item>
    var logs: seq<LogRecord>

    constructor (users0: map<Id, User>, items0: map<Id, Item>, logs0: seq<LogRecord>)
      ensures users == users0 && items == items0 && logs == logs0
    {
      users, items, logs := users0, items0, logs0;
    }

    /**
      `performLog`: two lookups, then at most one record appended. The
      existing records are never changed and ids stay distinct.
    */
    method PerformLog(ctl: Controller, isValidId: Id -> bool, actorId: Id, action: string, targetId: Id,
                      key: string, newId: Id, now: int, saveOk: bool) returns (o: LogOutcome)
      requires FreshLogId(logs, newId)
      modifies this`logs
      ensures o == PerformLogOutcome(ctl, users, items, isValidId, actorId, action, targetId, key, newId, now, saveOk)
      ensures logs == old(logs) + Written(o)
      ensures DistinctIds(old(logs)) ==> DistinctIds(logs)
    {
      if !isValidId(actorId) {
        return Caught(MalformedId);
      }
      if actorId !in users {
        return ActorMissing;
      }
      var newReference: string;
      if key == "user" {
        if !isValidId(targetId) {
          return Caught(MalformedId);
        }
        if targetId !in users {
          return Caught(TargetMissing);
        }
        var target := users[targetId];
        newReference := target.firstName + " " + target.lastName + " (USER)";
      } else if key == "item" {
        if ctl == UsersController {
          return Caught(ItemModelUndefined);
        }
        if !isValidId(targetId) {
          return Caught(MalformedId);
        }
        if targetId !in items {
          return Caught(TargetMissing);
        }
        newReference := items[targetId].name + " (ITEM)";
      } else {
        return InvalidKey;
      }
      var actor := users[actorId];
      var name := actor.firstName + " " + actor.lastName;
      var log := LogRecord(newId, name, action, Text(newReference), now);
      if !saveOk {
        return Caught(SaveFailed);
      }
      logs := logs + [log];
      o := Saved(log);
    }

    /**
      `users_create_user`: refuse when `User.find({username})` finds a user;
      otherwise hash the password (`hash` is bcrypt's result, `None` when it
      failed), log the creation and insert the user under the fresh id
      `userId`. A body without `username` is refused unless the store is empty.
    */
    method CreateUser(firstName: string, lastName: string, middleName: string, division: string,
                      username: Option<string>, hash: Option<string>, userId: Id,
                      isValidId: Id -> bool, logId: Id, now: int, saveOk: bool) returns (reply: CreateReply)
      requires userId !in users
      requires FreshLogId(logs, logId)
      modifies this`users, this`logs
      ensures reply == UsernameExists <==> UsernameQueryMatches(old(users), username)
      ensures reply == HashFailed <==> !UsernameQueryMatches(old(users), username) && hash.None?
      ensures reply == UsernameExists || reply == HashFailed ==> users == old(users)
      ensures reply.Created? ==>
        reply == Created(userId) &&
        users == old(users)[userId := User(firstName, lastName, middleName, division, username, hash.value, map[])]
      ensures logs == old(logs)
      ensures UniqueUsernames(old(users)) ==> UniqueUsernames(users)
    {
      if UsernameQueryMatches(users, username) {
        return UsernameExists;
      }
      if hash.None? {
        return HashFailed;
      }
      // Run in sequence, the log's target lookup happens before the new user is saved.
      var o := PerformLog(UsersController, isValidId, AdminActor, "create", userId, "user", logId, now, saveOk);
      assert !o.Saved?;
      var user := User(firstName, lastName, middleName, division, username, hash.value, map[]);
      users := users[userId := user];
      reply := Created(userId);
    }

    /**
      `users_update_user`: refuse when `User.find({username})` finds any user,
      the updated one included (every user, when the body has no
      `username`); otherwise log the update against the stored user, hash a
      non-empty new password, and hand the body to `performUpdate`.
    */
    method UpdateUser(id: Id, patch: UserPatch, hash: Option<string>, isValidId: Id -> bool,
                      logId: Id, now: int, saveOk: bool) returns (reply: UpdateReply)
      requires WellFormedPatch(patch)
      requires FreshLogId(logs, logId)
      modifies this`users, this`logs
      ensures reply == UpdateRefused <==> UsernameQueryMatches(old(users), patch.username)
      ensures reply == UpdateRefused ==> users == old(users) && logs == old(logs)
      ensures reply != UpdateRefused ==>
        logs == old(logs) + Written(PerformLogOutcome(UsersController, old(users), items, isValidId,
                                                      AdminActor, "update", id, "user", logId, now, saveOk))
      ensures !isValidId(AdminActor) ==> logs == old(logs)
      ensures reply == UpdateHashFailed <==>
        reply != UpdateRefused && HashesPassword(patch) && hash.None?
      ensures reply == UpdateFailed <==>
        reply != UpdateRefused && reply != UpdateHashFailed && !isValidId(id)
      ensures reply.Updated? <==>
        reply != UpdateRefused && reply != UpdateHashFailed && isValidId(id) && id in old(users)
      ensures reply.Updated? ==>
        var p := if HashesPassword(patch) then patch.(password := hash) else patch;
        users == old(users)[id := ApplyPatch(old(users)[id], p)] && reply.user == users[id]
      ensures !reply.Updated? ==> users == old(users)
      ensures patch.username.None? ==> !reply.Updated?
      ensures UniqueUsernames(old(users)) ==> UniqueUsernames(users)
    {
      var userExist := false;
      if UsernameQueryMatches(users, patch.username) {
        userExist := true;
      }
      if userExist {
        return UpdateRefused;
      }
      var _ := PerformLog(UsersController, isValidId, AdminActor, "update", id, "user", logId, now, saveOk);
      var updateFields := patch;
      if HashesPassword(patch) {
        if hash.None? {
          return UpdateHashFailed;
        }
        updateFields := patch.(password := hash);
      }
      reply := PerformUpdate(id, updateFields, isValidId);
    }

    /**
      `performUpdate` of the users controller. A malformed id makes
      `findByIdAndUpdate` reject with a CastError.
    */
    method PerformUpdate(id: Id, updateFields: UserPatch, isValidId: Id -> bool) returns (reply: UpdateReply)
      requires WellFormedPatch(updateFields)
      modifies this`users
      ensures !isValidId(id) ==> reply == UpdateFailed && users == old(users)
      ensures isValidId(id) && id !in old(users) ==> reply == NotFound && users == old(users)
      ensures isValidId(id) && id in old(users) ==>
        users == old(users)[id := ApplyPatch(old(users)[id], updateFields)] && reply == Updated(users[id])
      ensures reply != UpdateRefused && reply != UpdateHashFailed
    {
      if !isValidId(id) {
        return UpdateFailed;
      }
      if id !in users {
        return NotFound;
      }
      var updated := ApplyPatch(users[id], updateFields);
      users := users[id := updated];
      reply := Updated(updated);
    }
  }
}
