# Simple-Inventory: search criteria and audit log, modelled in Dafny

This project models the logic of the two controllers of the Simple-Inventory
backend (`api/controllers/items.js` and `api/controllers/users.js`):

- **Search criteria** (`items_search_item`, `viewLogs`, `users_get_user`).
  The request's `query`, `filter` and `active` parameters become a MongoDB
  filter that is an AND of terms. The query term is an OR-list: an optional
  exact `_id` clause, then one case-insensitive `$regex` clause per field.
  The filter term is an OR-list over the filter fields. The active term is
  `{active: active === 'true'}`. With no terms the filter is `{}`. Free text
  goes through `escapeRegex`, which puts a backslash before each of the 14
  ECMAScript SyntaxCharacters (ECMA-262, section 22.2.1). The model proves
  that the escaped text is a literal pattern and that unescaping it gives the
  input back. Module `RegexEscape` holds the escaper and `SearchCriteria` the
  builder. One builder serves all three handlers, each with its own field
  lists (`ItemSearch`, `LogSearch`, `UserSearch`). `BuildCriteria` makes the
  handlers' pushes step by step and is proved equal to the declarative
  `CriteriaOf`.
- **Audit log writer** (`performLog`, one copy in each controller). It looks
  up the actor, resolves the target to `"<first> <last> (USER)"` or
  `"<name> (ITEM)"`, and appends at most one record. Every failure is caught
  inside it. Module `AuditLog` holds the outcome function `PerformLogOutcome`.
  Module `Database` holds the class `Db`, whose fields are the user, item and
  log collections. `Db.PerformLog` appends to the log. `Db.CreateUser` and
  `Db.UpdateUser` apply the username-uniqueness gate and then change the
  user collection.
- **Log-line renderer** (the `logs.map` callback of `viewLogs`, module
  `LogRender`). A string reference is shown verbatim. A structured
  reference's JSON text is flattened. The date is `MM/DD/YYYY` and the line is
  `"<name> <action> <reference> on <date>"`.

Inputs the code gets from outside are parameters of the model:
- `ObjectId.isValid` is `isValidId: string -> bool`;
- the fresh ObjectId of a new log record or user is `newId`, `logId` or `userId`;
- `Date.now` is `now`;
- the store's acceptance of `log.save()` is `saveOk`;
- bcrypt's result is `hash` (`None` when hashing failed);
- `JSON.stringify(reference)` is the `Structured` reference's text;
- the local `getMonth() + 1`, `getDate()` and `getFullYear()` are a `CalendarDate`.

Behaviour of the code that a reader might not expect, kept by the model:
- The `_id` clause is added when the raw query passes `ObjectId.isValid`, not
  the escaped one (`items.js:172`, `users.js:63`).
- `active` is not tri-state. Every truthy value other than the exact string
  `"true"` gives `{active: false}`, including a nested (array or object)
  parameter (`items.js:202-205`, `users.js:96-99`).
- The users controller's `performLog` never imports the Item model. Its
  `'item'` branch throws a ReferenceError, which is caught, so nothing is
  written (`users.js:5-6, 21-23`; `PerformLogOutcome` ensures this).
- Both user handlers pass the literal actor id `"admin"` (`users.js:209, 291`).
  So a record is written only if a user is stored under the id `"admin"`.
  `"admin"` is not an ObjectId, so the actor lookup throws a CastError and
  user create and update are never logged (`Db.UpdateUser` ensures the log is
  unchanged whenever `"admin"` is not a valid id). The user-create log is also requested before the new user is saved.
  The model runs the handler's steps one after another, and in that order the
  log's target lookup finds nothing, so `Db.CreateUser` ensures the log is
  unchanged. In the code `performLog` is not awaited (`users.js:209-210`), so
  the lookup may run after `user.save()` has finished.
- The username gate runs `User.find({username: req.body.username})`
  (`users.js:182, 277`). For a body without `username` the filter is
  `{username: undefined}`. Mongoose drops a filter key whose value is
  `undefined`, so this finds every stored user. A create without a username is
  refused unless the store is empty, and an update without a username is never
  applied (`Db.UpdateUser` ensures this).
- An update hashes the password only when it is truthy (`users.js:292`). An
  empty password is stored as it is.
- A malformed user id makes `findByIdAndUpdate` reject with a CastError, which
  answers 500 rather than the 404 of an unknown id (`users.js:318-328`).

## Model

| member | source | states |
|---|---|---|
| RegexEscape.Escape | api/controllers/items.js:93 | the escaped text is as long as the input plus its number of metacharacters |
| RegexEscape.UnescapeEscape | api/controllers/items.js:163 | deleting the inserted backslashes gives back the input |
| RegexEscape.EscapeIsLiteral | api/controllers/users.js:55 | every metacharacter of the escaped text is preceded by exactly one backslash, and every backslash escapes a metacharacter |
| RegexEscape.EscapeUnescape | api/controllers/items.js:93 | every literal pattern is the escape of its unescaping, so escaping maps strings one-to-one onto literal patterns |
| RegexEscape.EscapeInjective | api/controllers/items.js:93 | different search texts give different patterns |
| RegexEscape.EscapeSingleChar | api/controllers/items.js:93 | one character is escaped exactly when it is one of the 14 SyntaxCharacters `^ $ \ . * + ? ( ) [ ] { }` and the vertical bar |
| RegexEscape.EscapeAppend | api/controllers/items.js:93 | escaping is character by character: it distributes over concatenation |
| SearchCriteria.QueryClausesShape | api/controllers/items.js:170-183 | the query OR-list starts with `{_id: query}` exactly when the raw query is a valid id, followed by one regex clause on the escaped query per query field in order |
| SearchCriteria.TermsShape | api/controllers/users.js:57-99 | one term per present parameter, the query term first, the filter term next (the filter fields' regex list on the escaped filter) and the active term `active == "true"` last |
| SearchCriteria.CriteriaOf | api/controllers/items.js:165-209 | a nested `query` or `filter` is an error; otherwise the criteria are `{}` exactly when no parameter is truthy, else `$and` over exactly the present terms at their positions |
| SearchCriteria.BuildCriteria | api/controllers/users.js:57-103 | the handler's step-by-step pushes build exactly `CriteriaOf` |
| SearchCriteria.RegexClausesLiteral | api/controllers/users.js:80-94 | every regex clause built on escaped text holds a literal pattern that unescapes to that text |
| SearchCriteria.QueryClausesLiteral | api/controllers/items.js:170-183 | every regex clause of the query OR-list holds a literal pattern that unescapes to the raw query |
| SearchCriteria.PatternsAreLiteral | api/controllers/items.js:168-199 | no user text reaches a `$regex` unescaped: each pattern is literal and unescapes to the raw query or filter |
| SearchCriteria.LogSearchShape | api/controllers/items.js:98-121 | the log search never has an `active` term, and its filter OR-list is the single `action` clause |
| SearchCriteria.UserFilterExtendsQuery | api/controllers/users.js:80-94 | the user filter's field set strictly contains the query's, adding `role` |
| SearchCriteria.FilterHasNoIdClause | api/controllers/items.js:188-199 | a filter OR-list holds only regex clauses, never an `_id` clause |
| AuditLog.Written | api/controllers/items.js:68-75 | one call appends at most one record, and appends one exactly when it saved |
| AuditLog.PerformLogOutcome | api/controllers/items.js:46-87 | a malformed actor id, or a malformed target id that is looked up, ends in a caught CastError; a missing actor or an invalid key writes nothing; a record is saved exactly when the actor id is valid and stored, the target id is valid and resolves (a `'user'` in either controller, an `'item'` only in the items controller) and the store accepts; the record's name is the actor's first and last name, its reference the target's name with " (USER)" or " (ITEM)", its action the given one |
| AuditLog.ReferenceSuffix | api/controllers/users.js:17-23 | every saved reference is text ending in " (USER)" or " (ITEM)" |
| Database.Db.PerformLog | api/controllers/users.js:8-49 | the log becomes the old log plus the outcome's record (if any); nothing else changes; ids stay distinct |
| Database.Db.CreateUser | api/controllers/users.js:180-230 | the request is refused exactly when `User.find({username})` finds a user (any user when the body has no username), with nothing changed; a failed hash answers an error exactly when the gate passed, with nothing changed; otherwise exactly the new user is inserted; the log is unchanged; unique usernames stay unique |
| Database.Db.UpdateUser | api/controllers/users.js:273-314 | the update is refused exactly when `User.find({username})` finds a user, the updated one included (any user when the body has no username), and then nothing changes; otherwise the log grows as `performLog` says, and not at all when the actor `"admin"` is not a valid id; a hash failure is answered exactly when a non-empty password was given; a malformed id answers the 500 error; the user is updated exactly when the gate passed, no hash failed and the id is well-formed and stored, with the patch applied (a non-empty password replaced by its hash); without a username nothing is ever updated; unique usernames stay unique |
| Database.Db.PerformUpdate | api/controllers/users.js:316-330 | a malformed id answers the 500 error and an unknown one not-found, both with nothing changed; otherwise exactly that user is replaced by its patched version |
| Database.ApplyPatch | api/controllers/users.js:317 | each named field (first, last and middle name, division, username, password) is replaced exactly when the body carries it and stays otherwise; every further body field is added or replaces the stored one, and the stored further fields the body lacks stay |
| LogRender.StripLength | api/controllers/items.js:131 | stripping shortens the text by exactly two characters per backslash-quote pair |
| LogRender.StripUnits | api/controllers/items.js:131 | a backslash-quote pair is removed and any single character stays |
| LogRender.StripAppend | api/controllers/items.js:131 | stripping distributes over concatenation unless the first part ends in a backslash and the second starts with a quote, so the kept characters keep their order |
| LogRender.StripCountsBackslashes | api/controllers/items.js:131 | each removed pair takes exactly one backslash; every other backslash stays |
| LogRender.RemoveChars | api/controllers/items.js:132-133 | the result contains no removed character |
| LogRender.RemoveAppend | api/controllers/items.js:132-133 | removal distributes over concatenation, so the kept characters keep their order |
| LogRender.TrimStart | api/controllers/items.js:134 | the result is a suffix of the input that does not start with whitespace |
| LogRender.TrimEnd | api/controllers/items.js:134 | the result is a prefix of the input that does not end with whitespace |
| LogRender.Trim | api/controllers/items.js:134 | the result has no leading or trailing whitespace |
| LogRender.Flatten | api/controllers/items.js:129-135 | the flattened reference contains no `{`, `}` or `"` and has no leading or trailing whitespace |
| LogRender.FlattenKeepsOtherChars | api/controllers/items.js:129-134 | every character other than backslash, quote, braces and whitespace, square brackets included, occurs as often as in the serialized text |
| LogRender.FlattenKeepsBackslashes | api/controllers/items.js:129-134 | flattening keeps every backslash except those directly before a quote |
| LogRender.FlattenClean | api/controllers/items.js:129-134 | a text without braces or quotes and without outer whitespace flattens to itself |
| LogRender.FlattenIdempotent | api/controllers/items.js:129-134 | flattening twice is flattening once |
| LogRender.NatToDecimal | api/controllers/items.js:143 | `toString` gives at least one decimal digit with no leading zero |
| LogRender.DecimalRoundTrip | api/controllers/items.js:143 | the decimal text reads back as the number |
| LogRender.IntToString | api/controllers/items.js:143 | the year text starts with `-` exactly for negative years |
| LogRender.IntRoundTrip | api/controllers/items.js:143 | the year text reads back as the year |
| LogRender.PadStart | api/controllers/items.js:143 | `padStart` gives length max(width, length), ends with the input and is filled with the pad character before it |
| LogRender.TwoDigits | api/controllers/items.js:143 | a month or day pads to exactly two characters |
| LogRender.TwoDigitsRoundTrip | api/controllers/items.js:143 | the two padded digits read back as the month or day |
| LogRender.FormatDate | api/controllers/items.js:137-143 | the date is `MM/DD/` followed by the unpadded year |
| LogRender.DateRoundTrip | api/controllers/items.js:137-143 | the rendered date parses back to the month, day and year it came from |
| LogRender.DateExample | api/controllers/items.js:143 | (3, 5, 2024) renders as `03/05/2024` |
| LogRender.RenderReference | api/controllers/items.js:128-135 | a string reference is used verbatim; a structured one is flattened, without braces, quotes or outer whitespace |
| LogRender.RenderLine | api/controllers/items.js:146 | the line is `name action reference on ` followed by a date that parses back to the record's calendar date |
| LogRender.RenderLogs | api/controllers/items.js:125-147 | one line per found record, in the order found |

## Left out

- MongoDB itself is not modelled: `$regex` matching, `find`, `findOne`,
  `findByIdAndUpdate`, `save` and ObjectId generation. Collections are maps
  and a sequence, and `ObjectId.isValid` is a parameter.
- The console messages of `performLog` are not modelled. A lookup by a
  malformed id throws a CastError into the catch block (`Caught(MalformedId)`),
  a well-formed actor id with no user returns early (`users.js:11-13`,
  `items.js:49-51`, `ActorMissing`), and a well-formed target id with no
  document fails in the catch block (`Caught(TargetMissing)`). None of these
  writes a record.
- `JSON.stringify` and the local-time `Date` getters are inputs. An invalid
  timestamp, which would render `NaN/NaN/NaN`, is not modelled.
- Concurrency is not modelled: the handlers run one after another. The users
  controller does not await `performLog`, and `items_create_item` logs before
  `item.save()`. The model never claims that a create-time log is written.
- The HTTP responses and the `console.log`/`console.error` output are not
  modelled. The handlers' answers are the `CreateReply` and `UpdateReply`
  datatypes. `performLog`'s answer is the `LogOutcome` datatype.
- bcrypt hashing, JWT signing and verification, and the login, profile and
  token-validation handlers are foreign cryptographic calls, so they are not modelled.
- The other handlers are outside the modelled core: `items_create_item`,
  `items_update_item` (with the items controller's `performUpdate`),
  `logs_get_log` and the unused `createLog`.
- Database.Db.CreateUser: a rejected `user.save()` (HTTP 500) is not modelled.
  Fields that the user schema may set by default are not modelled either.
  The user model file is not part of this model.
- Database.Db.UpdateUser: the body's fields are text; a non-string `password`
  (a number, say) whose truthiness differs from the text's is not modelled.
- Database.Db.PerformUpdate: `findByIdAndUpdate` rejecting for any reason other
  than a malformed id (a field value that does not cast, the store being
  down) is not modelled; those also answer 500.
- Database.Db.PerformLog: a failing `log.save()` (store down, or a validation
  failure such as an empty action) is the single input `saveOk`.
- The Item document keeps only the fields these handlers read. The user
  document's fields beyond the six the handlers name are kept by name with
  their values as text, so their types and the schema's casting and defaults
  are not modelled.
