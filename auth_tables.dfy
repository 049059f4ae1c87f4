/** The auth service's database: the `users` and `tokens` tables both of its storages use. */
module AuthTables {

  datatype UserRow = UserRow(id: string, username: string, email: string, passwordHash: string,
                             name: string, phone: string, address: string, role: string)

  datatype TokenRow = TokenRow(id: string, token: string, userId: string)

  /** The error `QueryRow(...).Scan` returns when no row matches. */
  const NoRows := "sql: no rows in result set"

  /**
   * The shared database handle: `AuthStorage` and `UserStorage` each keep a reference to
   * the same one, so a write through either is seen by both.
   */
  class Db {
    var users: seq<UserRow>
    var tokens: seq<TokenRow>

    constructor (users0: seq<UserRow>, tokens0: seq<TokenRow>)
      ensures users == users0 && tokens == tokens0
    {
      users, tokens := users0, tokens0;
    }
  }
}
