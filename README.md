# User store of the E2EE inbox server, in Dafny

`database.py` keeps every account of the server in one SQLite table,
`users`, and reaches it through a handful of free functions: one insert
(`create_user`), three single-row UPDATE statements
(`update_user_config`, `set_automation_running`,
`save_admin_e2ee_thread_id`) and four lookups (`get_user_by_username`,
`get_automation_running`, `get_admin_e2ee_thread_id`, `get_user_config`).
This project models that table and those functions and proves what they
do to it.

- `wrappers.dfy` — `Option`, standing for SQL NULL, a Python `None`
  argument and a lookup that found no row.
- `schema.dfy` — module `Schema`: the `User` row in column order, the
  column defaults of the CREATE TABLE statement (`delay` 10, `name_prefix`
  '', `automation_running` 0) and `NewRow`, the row an insert of
  (username, password, user_key) produces.
- `config_update.dfy` — module `ConfigUpdate`: the sparse update. The
  `updates`/`params` pair becomes one list of `Assignment`s, built by the
  same chain of conditional appends (`BuildUpdates`) and applied as the SET
  clause applies it (`ApplyAll`); `Overwritten` is the column-by-column
  reference definition it is proved against.
- `user_table.dfy` — module `UserTable`: the table as a value
  (`map<int, User>`), its invariant (`Valid`: rows keyed by id, every id
  issued by AUTOINCREMENT, `username` unique, non-NULL `user_key` unique),
  the four readers as functions, and the effect of the INSERT and of each
  UPDATE on the table.
- `database.dfy` — module `Database`: class `UserStore`, holding the rows
  and the AUTOINCREMENT counter (`sqlite_sequence`); its methods are the
  four writers and change those fields in place. Readers are the
  `UserTable` functions applied to `rows`.
- `properties.dfy` — module `Properties`: lemmas that relate operations
  (create then read, update then read, set then get) and the invariants the
  writers keep.

`user_key`, `cookies`, `chat_id`, `messages` and `admin_e2ee_thread_id` are
`Option<string>`, so that NULL and '' are told apart; `delay` is an `int` and
`name_prefix` a `string`, since the insert gives them defaults and no update
writes NULL to them. `automation_running` is kept as the stored INTEGER
(the writer stores 1 or 0) and read through Python's `bool()`, that is
`!= 0`. `created_at` is an opaque integer passed in by the caller of
`CreateUser` in place of `CURRENT_TIMESTAMP`. The `password` argument is an
`Option<string>`, since `password TEXT NOT NULL` turns a `None` into an
IntegrityError; a stored password is a plain `string`.

The model follows the code as written: `create_user` returns None on any
IntegrityError (a NULL password or a UNIQUE violation), so a caller cannot
tell the two apart; no writer reports a rows-affected count; an update of a
missing id changes nothing and says nothing.

## Model

| member | source | states |
|---|---|---|
| Database.UserStore.constructor | database.py:8-30 | a freshly initialised store has no rows, has issued no id, and satisfies the table invariant |
| Database.UserStore.CreateUser | database.py:55-69 | on a NULL password, a username already present, or a non-NULL key already present, returns None and leaves rows and counter unchanged; otherwise returns the counter plus one, adds exactly that row with the schema defaults, and advances the counter; the invariant is kept |
| Database.UserStore.UpdateUserConfig | database.py:71-100 | the new table is the column-by-column overwrite of row `id` with the supplied arguments (a missing id or no argument changes nothing); counter and invariant kept |
| Database.UserStore.SetAutomationRunning | database.py:102-107 | row `id` gets automation_running 1 or 0, nothing else changes, a missing id is a no-op |
| Database.UserStore.SaveAdminE2eeThreadId | database.py:117-122 | row `id` gets the thread id as given (NULL included), nothing else changes, a missing id is a no-op |
| Schema.NewRow | database.py:14-25 | defines the row the INSERT of (username, password, user_key) produces: the given columns, delay 10, name_prefix '', automation_running 0, NULL elsewhere |
| ConfigUpdate.Assign | database.py:79-92 | defines one `column = ?` with its parameter applied to a row |
| ConfigUpdate.BuildUpdates | database.py:75-93 | the list is empty exactly when no argument is supplied, and applied to any row it writes exactly the supplied columns, empty strings included |
| ConfigUpdate.AppendBuilds | database.py:78-92 | appending one `column = ?` to the list extends its effect by exactly that column |
| ConfigUpdate.ApplyAll | database.py:94-97 | applying the SET list never changes id, username, password, user_key, created_at, automation_running or the admin thread id |
| ConfigUpdate.Overwritten | database.py:71-93 | the reference effect of a sparse update leaves every column outside the five config columns unchanged |
| UserTable.Valid | database.py:14-17 | defines the table invariant: rows keyed by id, every id issued by AUTOINCREMENT (positive, at most the counter), username unique, non-NULL user_key unique |
| UserTable.UsernameTaken | database.py:15 | defines when the UNIQUE constraint on username rejects an insert: some row has exactly that username |
| UserTable.UserKeyTaken | database.py:17 | defines when the UNIQUE constraint on user_key rejects an insert: the key is non-NULL and some row has it |
| UserTable.Conflicts | database.py:15-17 | defines a UNIQUE violation: the username or the non-NULL key is taken |
| UserTable.Rejected | database.py:15-17 | defines the IntegrityError condition of the insert: a NULL password or a UNIQUE violation |
| UserTable.AsRecord | database.py:40-52 | defines the dictionary built from a row: every column but created_at as stored, automation_running through bool() |
| UserTable.Inserted | database.py:59-64 | defines the table after a successful insert: the new row under the counter plus one, which is the lastrowid returned |
| UserTable.GetUserByUsername | database.py:32-53 | None exactly when no row has that username (exact match); otherwise the matching row's stored values, without default resolution, with automation_running as a boolean |
| UserTable.GetAutomationRunning | database.py:109-115 | True only for an existing id whose stored flag is non-zero; False for a missing id |
| UserTable.GetAdminE2eeThreadId | database.py:124-130 | a non-empty stored thread id is returned; a missing id, NULL and '' all give None |
| UserTable.GetUserConfig | database.py:132-150 | None exactly for a missing id; otherwise, through the helper `OrElse` (Python's `value or fallback`, where NULL and '' are falsy), cookies and chat_id as stored or '' when NULL, messages as stored when non-empty or 'Hello!', delay as stored when non-zero or 10, name_prefix as stored |
| UserTable.Configured | database.py:94-97 | the UPDATE touches at most row `id` (the frame `UpdatesAtMost` shared by all three UPDATE functions), keeps every row's identity columns and the set of ids, and does nothing for a missing id |
| UserTable.WithAutomationRunning | database.py:105 | the UPDATE touches at most row `id`, keeps identities and ids, and does nothing for a missing id |
| UserTable.WithAdminE2eeThreadId | database.py:120 | the UPDATE touches at most row `id`, keeps identities and ids, and does nothing for a missing id |
| Properties.CreateAddsOneRow | database.py:14 | the new id is not in the table and exceeds every id in it, the table gains exactly that one row, and no other row changes |
| Properties.CreateKeepsValid | database.py:14-17 | a create without conflict keeps both UNIQUE constraints and the AUTOINCREMENT invariant |
| Properties.CreateThenGetByUsername | database.py:14-25 | a created user reads back by username with its id, credentials and key, delay 10, name_prefix '', automation not running, and cookies, chat_id, messages and thread id unset |
| Properties.CreateThenGetConfig | database.py:132-150 | a created user's config reads ('', '', 'Hello!', 10, ''), its flag False and its thread id None |
| Properties.DuplicateUsernameRejected | database.py:15 | after a create, any create with the same username conflicts, and exactly one row has that username |
| Properties.DuplicateUserKeyRejected | database.py:17 | after a create with a non-NULL key, any create with the same key conflicts |
| Properties.NullKeysDoNotConflict | database.py:17 | NULL keys never collide: two creates with distinct new usernames and no key both succeed |
| Properties.UpdateKeepsValid | database.py:71-122 | a writer that keeps identity columns and ids keeps the uniqueness and AUTOINCREMENT invariant |
| Properties.UpdateThenGetConfig | database.py:71-100 | after an update, each supplied field reads back as written (after default resolution) and each absent field as before; flag and thread id unaffected |
| Properties.UpdateWithoutArgumentsIsNoOp | database.py:94 | an update with no argument leaves the table unchanged |
| Properties.SetThenGetAutomationRunning | database.py:102-115 | set then get returns the flag on an existing id and False on a missing one; config and thread id unaffected |
| Properties.SaveThenGetAdminE2eeThreadId | database.py:117-130 | save then get returns a non-empty thread id on an existing id, None for a missing id or a NULL or '' value; config and flag unaffected |
| Properties.ZeroDelayResolvedOnlyInConfig | database.py:32-53 | a stored delay 0 reads as 10 through get_user_config and as 0 through get_user_by_username |
| Properties.UnsetMessagesResolvedOnlyInConfig | database.py:32-53 | a NULL or '' messages reads as 'Hello!' through get_user_config and as stored (NULL or '') through get_user_by_username |
| Properties.GetByUsernameAfterUpdate | database.py:32-53 | after any writer that touches at most one row and keeps identities, a username lookup finds the same row as before, with its new contents |
| Properties.UpdateThenGetByUsername | database.py:71-100 | after update_user_config the raw record has exactly the supplied columns of row `id` replaced (NULL kept apart from ''), every other column and row as before |
| Properties.SetAutomationRunningThenGetByUsername | database.py:102-107 | after set_automation_running the raw record differs from before only in the flag of row `id` |
| Properties.SaveAdminE2eeThreadIdThenGetByUsername | database.py:117-122 | after save_admin_e2ee_thread_id the raw record differs from before only in the thread id of row `id`, set to the value as given |
| Properties.AbsentIsNotAnError | database.py:109-150 | a missing id reads as False, None and None, and an unused username as None |
| Properties.AliceScenario | database.py:55-150 | creating alice in an empty store gives id 1; after setting cookies c1 and delay 30 the config reads ('c1', '', 'Hello!', 30, '') |

## Left out

- Connections, `commit`, `close`, the `DB_NAME` file and the `init_db()` call on import: I/O plumbing. `init_db` on an existing table (`CREATE TABLE IF NOT EXISTS`) changes nothing and is not modelled as a separate operation; the constructor is `init_db` on an empty database.
- The SQL text built by the f-string of `update_user_config`: the model states the effect of the UPDATE, not its text.
- `created_at` / `CURRENT_TIMESTAMP`: the clock is a parameter (`now`); `SELECT *` in `get_user_by_username` reads the column, but no reader returns it.
- Storage failures and other exceptions (locked or missing database file, `SQLITE_FULL` once AUTOINCREMENT would pass 9223372036854775807): the code lets them propagate. Ids, `user_id` arguments and `delay` are unbounded integers here, so the OverflowError `cursor.execute` raises for a `delay` or `user_id` outside SQLite's 64-bit INTEGER range, before anything is written, is not modelled: `UpdateUserConfig` writes any integer.
- Concurrency between processes: each function is one statement, modelled as one atomic step.
- The `NOTNULL` spelling on `username`: in the model a username is always a string, so `create_user(None, ...)` is not modelled.
- Python's dynamic typing: `user_id` and `delay` are integers (a `user_id` of None or a numeric string is not modelled), `username` a string, and `password`, `user_key` and the other TEXT arguments strings or None; other Python values (floats, `False`) passed as arguments are not modelled.
- Password hashing (there is none) and the `__main__` block.
- Database.UserStore.SetAutomationRunning: the Python default `running=True` is not modelled; callers always pass the flag.
