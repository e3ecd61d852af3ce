/**
  A database session: statements change the session's own view, and only a commit
  changes what everybody else can see.
 */
module Sessions {

  /** What is committed: the state every session starts from. */
  class Database<T> {
    var rows: T

    constructor (initial: T)
      ensures rows == initial
    {
      rows := initial;
    }
  }

  class Session<T> {
    const db: Database<T>
    var staged: T

    constructor (database: Database<T>)
      ensures db == database && staged == database.rows
    {
      db := database;
      staged := database.rows;
    }

    method Begin()
      modifies this
      ensures staged == db.rows
    {
      staged := db.rows;
    }

    method Commit()
      modifies db
      ensures db.rows == staged
    {
      db.rows := staged;
    }

    method Rollback()
      modifies this
      ensures staged == db.rows
    {
      staged := db.rows;
    }
  }
}
