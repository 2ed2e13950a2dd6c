/** The relational store as the relational backend sees it through `database/sql`: the `urls`
    table as a sequence of rows, and a transaction as a private working copy of that table. */
module Sql {

  /** One row of the `urls` table: `(user_id, short_url, original_url, is_deleted)`. */
  datatype Row = Row(userID: string, shortURL: string, originalURL: string, isDeleted: bool)

  /** A `*sql.Tx`: statements run inside it change its copy of the table, `Commit` publishes the
      copy and a rollback drops it. */
  class Tx {
    var rows: seq<Row>

    constructor Begin(table: seq<Row>)
      ensures rows == table
    {
      rows := table;
    }
  }
}
