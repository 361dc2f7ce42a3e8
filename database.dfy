/** The document store: three collections, each a sequence in the store's natural order. */
module Db {
  import opened Records

  class Database {
    var users: seq<User>
    var tasks: seq<Task>
    var columns: seq<Column>

    constructor (users: seq<User>, tasks: seq<Task>, columns: seq<Column>)
      ensures this.users == users && this.tasks == tasks && this.columns == columns
    {
      this.users := users;
      this.tasks := tasks;
      this.columns := columns;
    }
  }
}
