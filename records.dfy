/**
  The stored documents the core reads and writes: users, items and audit-log
  records. A user's fields other than the six the handlers name are kept
  by field name, with their values as text.
*/
module Records {
  import opened Wrappers

  /** A document id (an ObjectId in its string form). */
  type Id = string

  /**
    A stored user. `username` is `None` for a document saved without one;
    `others` holds every further field (`role`, `active`, `employeeId`, ...).
  */
  datatype User = User(firstName: string, lastName: string, middleName: string,
                       division: string, username: Option<string>, password: string,
                       others: map<string, string>)

  datatype Item = Item(controlNumber: string, name: string, category: string,
                       location: string, description: string, loggedBy: string)

  /**
    The log schema's `reference` is of mixed type. Records written by
    `performLog` hold text; older records may hold an object or array, kept
    here as its `JSON.stringify` text, or a scalar, kept as its display text.
  */
  datatype Reference = Text(text: string) | Structured(serialized: string) | Scalar(display: string)

  /** A log record; `timestamp` is the instant it was created. */
  datatype LogRecord = LogRecord(id: Id, name: string, action: string, reference: Reference, timestamp: int)

  /** The display name `firstName + ' ' + lastName`. */
  function FullName(u: User): string {
    u.firstName + " " + u.lastName
  }
}
