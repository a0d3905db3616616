/** The contents of the `users` table as a value, the store's invariant, the
    four readers of database.py, and the effect of each UPDATE statement. */
module UserTable {
  import opened Wrappers
  import opened Schema
  import opened ConfigUpdate

  /** Rows by `id`. */
  type Table = map<int, User>

  /** `get_user_config` falls back to this when `messages` is NULL or ''. */
  const DefaultMessages: string := "Hello!"

  predicate RowsKeyedById(t: Table)
  {
    forall k :: k in t ==> t[k].id == k
  }

  /** AUTOINCREMENT: every id in the table has been issued, and ids start at 1. */
  predicate IdsIssued(t: Table, lastIssuedId: int)
  {
    forall k :: k in t ==> 0 < k <= lastIssuedId
  }

  /** `username TEXT UNIQUE`. */
  predicate UniqueUsernames(t: Table)
  {
    forall i, j :: i in t && j in t && t[i].username == t[j].username ==> i == j
  }

  /** `user_key TEXT UNIQUE`: two NULL keys do not collide. */
  predicate UniqueUserKeys(t: Table)
  {
    forall i, j :: i in t && j in t && t[i].userKey.Some? && t[i].userKey == t[j].userKey ==> i == j
  }

  predicate Valid(t: Table, lastIssuedId: int)
  {
    && 0 <= lastIssuedId
    && RowsKeyedById(t)
    && IdsIssued(t, lastIssuedId)
    && UniqueUsernames(t)
    && UniqueUserKeys(t)
  }

  predicate UsernameTaken(t: Table, username: string)
  {
    exists k :: k in t && t[k].username == username
  }

  predicate UserKeyTaken(t: Table, userKey: Option<string>)
  {
    userKey.Some? && exists k :: k in t && t[k].userKey == userKey
  }

  /** The insert would violate a UNIQUE constraint (an IntegrityError). */
  predicate Conflicts(t: Table, username: string, userKey: Option<string>)
  {
    UsernameTaken(t, username) || UserKeyTaken(t, userKey)
  }

  /** The insert raises an IntegrityError: a NULL password violates
      `password TEXT NOT NULL`, or a UNIQUE constraint is violated. */
  predicate Rejected(t: Table, username: string, password: Option<string>, userKey: Option<string>)
  {
    password.None? || Conflicts(t, username, userKey)
  }

  // ---------------------------------------------------------------------
  // Readers

  /** The dictionary `get_user_by_username` builds from a row: every column
      but `created_at`, as stored, with `automation_running` through bool(). */
  datatype UserRecord = UserRecord(
    id: int,
    username: string,
    password: string,
    userKey: Option<string>,
    cookies: Option<string>,
    chatId: Option<string>,
    messages: Option<string>,
    delay: int,
    namePrefix: string,
    automationRunning: bool,
    adminE2eeThreadId: Option<string>)

  function AsRecord(u: User): UserRecord
  {
    UserRecord(u.id, u.username, u.password, u.userKey, u.cookies, u.chatId, u.messages,
               u.delay, u.namePrefix, u.automationRunning != 0, u.adminE2eeThreadId)
  }

  /** `SELECT * FROM users WHERE username = ?`, first row. */
  function GetUserByUsername(t: Table, username: string): (r: Option<UserRecord>)
    requires RowsKeyedById(t) && UniqueUsernames(t)
    ensures r.None? <==> !UsernameTaken(t, username)
    ensures r.Some? ==> r.value.id in t && t[r.value.id].username == username
    ensures r.Some? ==> r.value == AsRecord(t[r.value.id])
  {
    if UsernameTaken(t, username) then
      var k :| k in t && t[k].username == username;
      Some(AsRecord(t[k]))
    else
      None
  }

  /** `bool(row[0]) if row else False`. */
  function GetAutomationRunning(t: Table, id: int): (r: bool)
    ensures r ==> id in t
    ensures id in t ==> (r <==> t[id].automationRunning != 0)
  {
    if id in t then t[id].automationRunning != 0 else false
  }

  /** `row[0] if row and row[0] else None`: an unset and an empty thread id
      both read as None. */
  function GetAdminE2eeThreadId(t: Table, id: int): (r: Option<string>)
    ensures r.Some? ==> id in t && t[id].adminE2eeThreadId == r && r.value != ""
    ensures r.None? <==> id !in t || t[id].adminE2eeThreadId in {None, Some("")}
  {
    if id in t && t[id].adminE2eeThreadId.Some? && t[id].adminE2eeThreadId.value != "" then
      t[id].adminE2eeThreadId
    else
      None
  }

  /** The dictionary `get_user_config` returns. */
  datatype UserConfig = UserConfig(cookies: string, chatId: string, messages: string, delay: int, namePrefix: string)

  /** Python's `value or fallback` on a TEXT column: NULL and '' are falsy. */
  function OrElse(value: Option<string>, fallback: string): string
  {
    if value.Some? && value.value != "" then value.value else fallback
  }

  /** `SELECT cookies, chat_id, messages, delay, name_prefix ... WHERE id = ?`
      with falsy values replaced by defaults. */
  function GetUserConfig(t: Table, id: int): (r: Option<UserConfig>)
    ensures r.None? <==> id !in t
    ensures r.Some? ==> r.value.messages != "" && r.value.delay != 0
    ensures r.Some? ==> r.value.cookies == (if t[id].cookies.Some? then t[id].cookies.value else "")
    ensures r.Some? ==> r.value.chatId == (if t[id].chatId.Some? then t[id].chatId.value else "")
    ensures r.Some? && t[id].messages.Some? && t[id].messages.value != "" ==> r.value.messages == t[id].messages.value
    ensures r.Some? && t[id].messages in {None, Some("")} ==> r.value.messages == DefaultMessages
    ensures r.Some? ==> r.value.namePrefix == t[id].namePrefix
    ensures r.Some? && t[id].delay != 0 ==> r.value.delay == t[id].delay
    ensures r.Some? && t[id].delay == 0 ==> r.value.delay == DefaultDelay
  {
    if id in t then
      var u := t[id];
      Some(UserConfig(OrElse(u.cookies, ""),
                      OrElse(u.chatId, ""),
                      OrElse(u.messages, DefaultMessages),
                      if u.delay != 0 then u.delay else DefaultDelay,
                      OrElse(Some(u.namePrefix), "")))
    else
      None
  }

  // ---------------------------------------------------------------------
  // Effect of the INSERT and UPDATE statements on the table

  /** The table after a successful `create_user` on (t, lastIssuedId). */
  function Inserted(t: Table, lastIssuedId: int, username: string, password: string,
                    userKey: Option<string>, now: int): Table
  {
    t[lastIssuedId + 1 := NewRow(lastIssuedId + 1, username, password, userKey, now)]
  }

  /** A writer that touches at most row `id`, keeps every row's identity
      columns, and leaves the set of ids alone. */
  predicate UpdatesAtMost(t: Table, r: Table, id: int)
  {
    && r.Keys == t.Keys
    && (forall k :: k in t ==> SameIdentity(t[k], r[k]))
    && (forall k :: k in t && k != id ==> r[k] == t[k])
  }

  /** `UPDATE users SET <supplied columns> WHERE id = ?`. */
  function Configured(t: Table, id: int, cookies: Option<string>, chatId: Option<string>, messages: Option<string>,
                      delay: Option<int>, namePrefix: Option<string>): (r: Table)
    ensures UpdatesAtMost(t, r, id)
    ensures id !in t ==> r == t
  {
    if id in t then t[id := Overwritten(t[id], cookies, chatId, messages, delay, namePrefix)] else t
  }

  /** `UPDATE users SET automation_running = (1 if running else 0) WHERE id = ?`. */
  function WithAutomationRunning(t: Table, id: int, running: bool): (r: Table)
    ensures UpdatesAtMost(t, r, id)
    ensures id !in t ==> r == t
  {
    if id in t then t[id := t[id].(automationRunning := if running then 1 else 0)] else t
  }

  /** `UPDATE users SET admin_e2ee_thread_id = ? WHERE id = ?`. */
  function WithAdminE2eeThreadId(t: Table, id: int, threadId: Option<string>): (r: Table)
    ensures UpdatesAtMost(t, r, id)
    ensures id !in t ==> r == t
  {
    if id in t then t[id := t[id].(adminE2eeThreadId := threadId)] else t
  }
}
