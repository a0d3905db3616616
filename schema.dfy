/** The `users` table of database.py: one row per account, with the column
    defaults that `init_db` declares. */
module Schema {
  import opened Wrappers

  /** Column defaults from the CREATE TABLE statement. */
  const DefaultDelay: int := 10
  const DefaultNamePrefix: string := ""
  const DefaultAutomationRunning: int := 0

  /** One row of `users`, in column order. TEXT columns that may hold NULL are
      `Option<string>`, so that NULL and '' stay apart. `delay` and
      `name_prefix` are never NULL: the insert gives them their defaults and no
      update writes NULL to them. `automation_running` is the stored INTEGER;
      the writers store 1 or 0. `createdAt` is the CURRENT_TIMESTAMP taken at
      insert, kept opaque. */
  datatype User = User(
    id: int,
    username: string,
    password: string,
    userKey: Option<string>,
    cookies: Option<string>,
    chatId: Option<string>,
    messages: Option<string>,
    delay: int,
    namePrefix: string,
    automationRunning: int,
    adminE2eeThreadId: Option<string>,
    createdAt: int)

  /** The columns fixed at creation, which no writer of the store changes. */
  predicate SameIdentity(u: User, v: User)
  {
    && u.id == v.id
    && u.username == v.username
    && u.password == v.password
    && u.userKey == v.userKey
    && u.createdAt == v.createdAt
  }

  /** The row `INSERT INTO users (username, password, user_key)` produces:
      the three given columns, the declared defaults for `delay`,
      `name_prefix` and `automation_running`, and NULL everywhere else. */
  function NewRow(id: int, username: string, password: string, userKey: Option<string>, createdAt: int): User
  {
    User(id, username, password, userKey,
         None, None, None,
         DefaultDelay, DefaultNamePrefix, DefaultAutomationRunning,
         None, createdAt)
  }
}
