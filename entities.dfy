/** The `null`-or-value wrapper used for the source's nullable references. */
module Wrappers {
  datatype Option<+T> = None | Some(value: T)
}

/**
 * The records the Databricks client hands to the commands.  Only the
 * fields the commands read are kept.
 */
module Databricks {
  import opened Wrappers

  /**
   * `ClusterInfo`.  `isRunning` is computed inside the client library from
   * data this model does not see, so it is kept as a field of its own.
   */
  datatype Cluster = Cluster(id: string, name: string, state: string, source: string, isRunning: bool)

  /** `Job`: an integer id and a display name. */
  datatype Job = Job(id: int, name: string)

  /** `SqlQuery`: `tags` is `None` where the client leaves the array `null`. */
  datatype SqlQuery = SqlQuery(id: string, name: string, tags: Option<seq<string>>)

  /** `SqlDashboard`, reduced to what the name cell, the filters and the backup read. */
  datatype SqlDashboard = SqlDashboard(
    id: string,
    name: string,
    tags: Option<seq<string>>,
    isFavourite: bool,
    isDraft: bool)

  /** `string.IsNullOrEmpty`. */
  predicate IsNullOrEmpty(s: Option<string>)
  {
    s.None? || s.value == ""
  }
}
