/** The store behind database.py: the `users` table and its AUTOINCREMENT
    counter, changed in place by the four writers. The readers are the
    functions of UserTable applied to `rows`. */
module Database {
  import opened Wrappers
  import opened Schema
  import opened ConfigUpdate
  import opened UserTable

  class UserStore {
    /** The rows of `users`, by id. */
    var rows: Table
    /** The `sqlite_sequence` entry for `users`: the largest id ever issued. */
    var lastIssuedId: int

    ghost predicate Valid()
      reads this
    {
      UserTable.Valid(rows, lastIssuedId)
    }

    /** `init_db` on a database that has no `users` table yet. */
    constructor ()
      ensures Valid()
      ensures rows == map[] && lastIssuedId == 0
    {
      rows := map[];
      lastIssuedId := 0;
    }

    /** `create_user`: insert a row, or return None on an IntegrityError (a
        NULL password or a UNIQUE violation). `now` stands for
        CURRENT_TIMESTAMP. */
    method CreateUser(username: string, password: Option<string>, userKey: Option<string>, now: int)
      returns (id: Option<int>)
      requires Valid()
      modifies this
      ensures Valid()
      ensures Rejected(old(rows), username, password, userKey) ==>
                id == None && rows == old(rows) && lastIssuedId == old(lastIssuedId)
      ensures !Rejected(old(rows), username, password, userKey) ==>
                && id == Some(old(lastIssuedId) + 1)
                && lastIssuedId == old(lastIssuedId) + 1
                && rows == Inserted(old(rows), old(lastIssuedId), username, password.value, userKey, now)
    {
      if Rejected(rows, username, password, userKey) {
        return None;
      }
      var newId := lastIssuedId + 1;
      rows := rows[newId := NewRow(newId, username, password.value, userKey, now)];
      lastIssuedId := newId;
      id := Some(newId);
    }

    /** `update_user_config`: write the supplied columns of row `id`. */
    method UpdateUserConfig(id: int, cookies: Option<string>, chatId: Option<string>, messages: Option<string>,
                            delay: Option<int>, namePrefix: Option<string>)
      requires Valid()
      modifies this
      ensures Valid()
      ensures rows == Configured(old(rows), id, cookies, chatId, messages, delay, namePrefix)
      ensures lastIssuedId == old(lastIssuedId)
    {
      var updates := BuildUpdates(cookies, chatId, messages, delay, namePrefix);
      if updates != [] {
        if id in rows {
          rows := rows[id := ApplyAll(rows[id], updates)];
        }
      }
    }

    /** `set_automation_running`. */
    method SetAutomationRunning(id: int, running: bool)
      requires Valid()
      modifies this
      ensures Valid()
      ensures rows == WithAutomationRunning(old(rows), id, running)
      ensures lastIssuedId == old(lastIssuedId)
    {
      if id in rows {
        rows := rows[id := rows[id].(automationRunning := if running then 1 else 0)];
      }
    }

    /** `save_admin_e2ee_thread_id`. */
    method SaveAdminE2eeThreadId(id: int, threadId: Option<string>)
      requires Valid()
      modifies this
      ensures Valid()
      ensures rows == WithAdminE2eeThreadId(old(rows), id, threadId)
      ensures lastIssuedId == old(lastIssuedId)
    {
      if id in rows {
        rows := rows[id := rows[id].(adminE2eeThreadId := threadId)];
      }
    }
  }
}
