/**
  `performLog`, present in both controllers: look up the actor, resolve the
  target to a human-readable reference, and save one log record. Every
  failure is caught inside `performLog`, so its caller never sees one.
*/
module AuditLog {
  import opened Records

  /**
    Which copy of `performLog` runs. The copy in the users controller never
    imports the Item model, so its `'item'` branch throws a ReferenceError.
  */
  datatype Controller = ItemsController | UsersController

  /** The errors that reach `performLog`'s catch block. */
  datatype LogError =
    | MalformedId          // a lookup by an id that is not an ObjectId: Mongoose's CastError
    | TargetMissing        // the target lookup returned null: TypeError on `_user.firstName` / `_item.name`
    | ItemModelUndefined   // `Item` is not defined in the users controller
    | SaveFailed           // `log.save()` rejected

  /** What one `performLog` call ends in; only `Saved` adds a record. */
  datatype LogOutcome =
    | Saved(record: LogRecord)
    | ActorMissing
    | InvalidKey
    | Caught(error: LogError)

  /** The records an outcome adds to the log collection. */
  function Written(o: LogOutcome): (w: seq<LogRecord>)
    ensures |w| <= 1
    ensures w == [] <==> !o.Saved?
  {
    if o.Saved? then [o.record] else []
  }

  /** Whether the target of kind `key` can be resolved by controller `ctl`. */
  predicate TargetResolves(ctl: Controller, users: map<Id, User>, items: map<Id, Item>,
                           isValidId: Id -> bool, key: string, targetId: Id) {
    isValidId(targetId) &&
    ((key == "user" && targetId in users) ||
     (key == "item" && ctl == ItemsController && targetId in items))
  }

  /**
    The outcome of `performLog(actorId, action, targetId, key)` on the given
    user and item tables; `isValidId` is `ObjectId.isValid`, which decides
    whether a lookup casts its id or throws; `newId` and `now` are the id
    generator's and the clock's values, `saveOk` whether the store accepts
    the write.
  */
  function PerformLogOutcome(ctl: Controller, users: map<Id, User>, items: map<Id, Item>,
                             isValidId: Id -> bool, actorId: Id, action: string, targetId: Id,
                             key: string, newId: Id, now: int, saveOk: bool): (o: LogOutcome)
    ensures o == Caught(MalformedId) <==>
      !isValidId(actorId) ||
      (actorId in users && !isValidId(targetId) &&
       (key == "user" || (key == "item" && ctl.ItemsController?)))
    ensures o.ActorMissing? <==> isValidId(actorId) && actorId !in users
    ensures o.InvalidKey? <==> isValidId(actorId) && actorId in users && key != "user" && key != "item"
    ensures o.Saved? <==>
      isValidId(actorId) && actorId in users && saveOk &&
      TargetResolves(ctl, users, items, isValidId, key, targetId)
    ensures o == Caught(ItemModelUndefined) <==>
      isValidId(actorId) && actorId in users && key == "item" && ctl == UsersController
    ensures o.Saved? ==>
      && o.record.name == FullName(users[actorId])
      && o.record.action == action
      && o.record.id == newId
      && o.record.timestamp == now
      && o.record.reference ==
           if key == "user" then Text(FullName(users[targetId]) + " (USER)")
           else Text(items[targetId].name + " (ITEM)")
  {
    if !isValidId(actorId) then Caught(MalformedId)
    else if actorId !in users then ActorMissing
    else if key == "user" then
      if !isValidId(targetId) then Caught(MalformedId)
      else if targetId !in users then Caught(TargetMissing)
      else Save(LogRecord(newId, FullName(users[actorId]), action,
                          Text(FullName(users[targetId]) + " (USER)"), now), saveOk)
    else if key == "item" then
      if ctl == UsersController then Caught(ItemModelUndefined)
      else if !isValidId(targetId) then Caught(MalformedId)
      else if targetId !in items then Caught(TargetMissing)
      else Save(LogRecord(newId, FullName(users[actorId]), action,
                          Text(items[targetId].name + " (ITEM)"), now), saveOk)
    else InvalidKey
  }

  function Save(r: LogRecord, saveOk: bool): LogOutcome {
    if saveOk then Saved(r) else Caught(SaveFailed)
  }

  /** Every record `performLog` writes names its target by a "(USER)" or "(ITEM)" suffix. */
  lemma ReferenceSuffix(ctl: Controller, users: map<Id, User>, items: map<Id, Item>,
                        isValidId: Id -> bool, actorId: Id, action: string, targetId: Id,
                        key: string, newId: Id, now: int, saveOk: bool)
    requires PerformLogOutcome(ctl, users, items, isValidId, actorId, action, targetId, key, newId, now, saveOk).Saved?
    ensures var r := PerformLogOutcome(ctl, users, items, isValidId, actorId, action, targetId, key, newId, now, saveOk).record;
      r.reference.Text? && |r.reference.text| >= 7 &&
      r.reference.text[|r.reference.text| - 7..] in {" (USER)", " (ITEM)"}
  {
  }
}
