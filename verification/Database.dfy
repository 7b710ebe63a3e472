/** Writes to the database as their callers see them. */
module Database {
  /** How a write went: applied, not applied, or applied without the caller learning of it. */
  datatype Write = Done | Dropped | Unacknowledged
}

