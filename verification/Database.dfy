/** The two databases the services run on; they differ in what an ignoring INSERT ignores. */
module Database {

  datatype Dialect = Sqlite | Postgres

  // How a COMMIT ended. Unheard: the transaction is durable, but an error came back.
  datatype Commit = Heard | Refused | Unheard
}
