/** What the store promises across operations: a create followed by a read,
    an update followed by a read, and the invariants every writer keeps. */
module Properties {
  import opened Wrappers
  import opened Schema
  import opened UserTable

  // ---------------------------------------------------------------------
  // create_user

  /** A successful create adds exactly one row, under an id larger than every
      id ever issued, and changes no other row. */
  lemma CreateAddsOneRow(t: Table, lastIssuedId: int, username: string, password: string,
                         userKey: Option<string>, now: int)
    requires Valid(t, lastIssuedId)
    ensures var t' := Inserted(t, lastIssuedId, username, password, userKey, now);
            && lastIssuedId + 1 !in t
            && (forall k :: k in t ==> k < lastIssuedId + 1)
            && t'.Keys == t.Keys + {lastIssuedId + 1}
            && |t'| == |t| + 1
            && (forall k :: k in t ==> t'[k] == t[k])
  {
  }

  /** Without a conflict, the insert keeps both UNIQUE constraints and the
      AUTOINCREMENT invariant. */
  lemma CreateKeepsValid(t: Table, lastIssuedId: int, username: string, password: string,
                         userKey: Option<string>, now: int)
    requires Valid(t, lastIssuedId)
    requires !Conflicts(t, username, userKey)
    ensures Valid(Inserted(t, lastIssuedId, username, password, userKey, now), lastIssuedId + 1)
  {
  }

  /** A created user reads back by username with the given credentials and
      the schema defaults: delay 10, name_prefix '', automation not running,
      and cookies, chat_id, messages and the admin thread id unset. */
  lemma CreateThenGetByUsername(t: Table, lastIssuedId: int, username: string, password: string,
                                userKey: Option<string>, now: int)
    requires Valid(t, lastIssuedId)
    requires !Conflicts(t, username, userKey)
    ensures var t' := Inserted(t, lastIssuedId, username, password, userKey, now);
            && RowsKeyedById(t') && UniqueUsernames(t')
            && GetUserByUsername(t', username)
               == Some(UserRecord(lastIssuedId + 1, username, password, userKey, None, None, None,
                                  10, "", false, None))
  {
    CreateKeepsValid(t, lastIssuedId, username, password, userKey, now);
    var t' := Inserted(t, lastIssuedId, username, password, userKey, now);
    assert t'[lastIssuedId + 1].username == username;
    var r := GetUserByUsername(t', username);
    assert r.value.id == lastIssuedId + 1;
  }

  /** A created user's config reads back as ('', '', 'Hello!', 10, ''), and
      its automation flag and admin thread id read as False and None. */
  lemma CreateThenGetConfig(t: Table, lastIssuedId: int, username: string, password: string,
                            userKey: Option<string>, now: int)
    ensures var t' := Inserted(t, lastIssuedId, username, password, userKey, now);
            && GetUserConfig(t', lastIssuedId + 1) == Some(UserConfig("", "", "Hello!", 10, ""))
            && !GetAutomationRunning(t', lastIssuedId + 1)
            && GetAdminE2eeThreadId(t', lastIssuedId + 1) == None
  {
  }

  /** Once a username is in the table, every further create with it conflicts,
      whatever the key, and the table holds exactly one row with it. */
  lemma DuplicateUsernameRejected(t: Table, lastIssuedId: int, username: string, password: string,
                                  userKey: Option<string>, now: int, otherKey: Option<string>)
    requires Valid(t, lastIssuedId)
    requires !Conflicts(t, username, userKey)
    ensures var t' := Inserted(t, lastIssuedId, username, password, userKey, now);
            && Conflicts(t', username, otherKey)
            && (forall k :: k in t' && t'[k].username == username ==> k == lastIssuedId + 1)
  {
    var t' := Inserted(t, lastIssuedId, username, password, userKey, now);
    assert t'[lastIssuedId + 1].username == username;
  }

  /** A non-NULL key already present conflicts, whatever the username. */
  lemma DuplicateUserKeyRejected(t: Table, lastIssuedId: int, username: string, password: string,
                                 key: string, now: int, otherUsername: string)
    requires Valid(t, lastIssuedId)
    requires !Conflicts(t, username, Some(key))
    ensures Conflicts(Inserted(t, lastIssuedId, username, password, Some(key), now), otherUsername, Some(key))
  {
    var t' := Inserted(t, lastIssuedId, username, password, Some(key), now);
    assert t'[lastIssuedId + 1].userKey == Some(key);
  }

  /** NULL keys never collide: two users with different unused usernames and
      no key are both accepted. */
  lemma NullKeysDoNotConflict(t: Table, lastIssuedId: int, first: string, second: string,
                              password: string, now: int)
    requires Valid(t, lastIssuedId)
    requires !UsernameTaken(t, first) && !UsernameTaken(t, second) && first != second
    ensures !Conflicts(t, first, None)
    ensures !Conflicts(Inserted(t, lastIssuedId, first, password, None, now), second, None)
  {
  }

  // ---------------------------------------------------------------------
  // Writers

  /** No writer that keeps the identity columns and the ids can break the
      UNIQUE constraints or the AUTOINCREMENT invariant. */
  lemma UpdateKeepsValid(t: Table, r: Table, id: int, lastIssuedId: int)
    requires Valid(t, lastIssuedId)
    requires UpdatesAtMost(t, r, id)
    ensures Valid(r, lastIssuedId)
  {
  }

  /** `update_user_config` followed by `get_user_config`: a supplied field
      reads back as written (after default resolution), an absent one as
      before; the other readers are unaffected. */
  lemma UpdateThenGetConfig(t: Table, id: int, cookies: Option<string>, chatId: Option<string>,
                            messages: Option<string>, delay: Option<int>, namePrefix: Option<string>)
    requires id in t
    ensures var before := GetUserConfig(t, id).value;
            var t' := Configured(t, id, cookies, chatId, messages, delay, namePrefix);
            var after := GetUserConfig(t', id).value;
            && after.cookies == (if cookies.Some? then cookies.value else before.cookies)
            && after.chatId == (if chatId.Some? then chatId.value else before.chatId)
            && after.messages == (if messages.Some? && messages.value != "" then messages.value
                                  else if messages.Some? then DefaultMessages
                                  else before.messages)
            && after.delay == (if delay.Some? && delay.value != 0 then delay.value
                               else if delay.Some? then DefaultDelay
                               else before.delay)
            && after.namePrefix == (if namePrefix.Some? then namePrefix.value else before.namePrefix)
            && GetAutomationRunning(t', id) == GetAutomationRunning(t, id)
            && GetAdminE2eeThreadId(t', id) == GetAdminE2eeThreadId(t, id)
  {
  }

  /** With no argument supplied the update changes nothing. */
  lemma UpdateWithoutArgumentsIsNoOp(t: Table, id: int)
    ensures Configured(t, id, None, None, None, None, None) == t
  {
  }

  /** `set_automation_running` followed by `get_automation_running` reads the
      flag back on an existing id and False on a missing one; the row's
      config and admin thread id read as before. */
  lemma SetThenGetAutomationRunning(t: Table, id: int, running: bool)
    ensures var t' := WithAutomationRunning(t, id, running);
            && GetAutomationRunning(t', id) == (id in t && running)
            && GetUserConfig(t', id) == GetUserConfig(t, id)
            && GetAdminE2eeThreadId(t', id) == GetAdminE2eeThreadId(t, id)
  {
  }

  /** `save_admin_e2ee_thread_id` followed by `get_admin_e2ee_thread_id`
      reads a non-empty thread id back on an existing id, and None when the
      id is missing or the saved value is NULL or ''. */
  lemma SaveThenGetAdminE2eeThreadId(t: Table, id: int, threadId: Option<string>)
    ensures var t' := WithAdminE2eeThreadId(t, id, threadId);
            && GetAdminE2eeThreadId(t', id)
               == (if id in t && threadId.Some? && threadId.value != "" then threadId else None)
            && GetUserConfig(t', id) == GetUserConfig(t, id)
            && GetAutomationRunning(t', id) == GetAutomationRunning(t, id)
  {
  }

  /** After a writer that touches at most row `id`, a username lookup finds
      the same row as before, now with its new contents. */
  lemma GetByUsernameAfterUpdate(t: Table, r: Table, id: int, lastIssuedId: int, username: string)
    requires Valid(t, lastIssuedId)
    requires UpdatesAtMost(t, r, id)
    ensures Valid(r, lastIssuedId)
    ensures GetUserByUsername(r, username).None? == GetUserByUsername(t, username).None?
    ensures GetUserByUsername(t, username).Some? ==>
              var k := GetUserByUsername(t, username).value.id;
              k in r && GetUserByUsername(r, username) == Some(AsRecord(r[k]))
  {
    UpdateKeepsValid(t, r, id, lastIssuedId);
    var before := GetUserByUsername(t, username);
    if before.Some? {
      var k := before.value.id;
      assert r[k].username == username;
      assert GetUserByUsername(r, username).value.id == k;
    }
  }

  /** `update_user_config` as seen by `get_user_by_username`: each supplied
      column reads back raw as written, and every other column and row as
      before. */
  lemma UpdateThenGetByUsername(t: Table, lastIssuedId: int, id: int, cookies: Option<string>,
                                chatId: Option<string>, messages: Option<string>, delay: Option<int>,
                                namePrefix: Option<string>, username: string)
    requires Valid(t, lastIssuedId)
    ensures var t' := Configured(t, id, cookies, chatId, messages, delay, namePrefix);
            && Valid(t', lastIssuedId)
            && GetUserByUsername(t', username)
               == match GetUserByUsername(t, username)
                  case None => None
                  case Some(rec) =>
                    Some(if rec.id != id then rec
                         else rec.(cookies := if cookies.Some? then cookies else rec.cookies,
                                   chatId := if chatId.Some? then chatId else rec.chatId,
                                   messages := if messages.Some? then messages else rec.messages,
                                   delay := if delay.Some? then delay.value else rec.delay,
                                   namePrefix := if namePrefix.Some? then namePrefix.value else rec.namePrefix))
  {
    GetByUsernameAfterUpdate(t, Configured(t, id, cookies, chatId, messages, delay, namePrefix),
                             id, lastIssuedId, username);
  }

  /** `set_automation_running` as seen by `get_user_by_username`: only the
      flag of row `id` changes. */
  lemma SetAutomationRunningThenGetByUsername(t: Table, lastIssuedId: int, id: int, running: bool, username: string)
    requires Valid(t, lastIssuedId)
    ensures var t' := WithAutomationRunning(t, id, running);
            && Valid(t', lastIssuedId)
            && GetUserByUsername(t', username)
               == match GetUserByUsername(t, username)
                  case None => None
                  case Some(rec) => Some(if rec.id != id then rec else rec.(automationRunning := running))
  {
    GetByUsernameAfterUpdate(t, WithAutomationRunning(t, id, running), id, lastIssuedId, username);
  }

  /** `save_admin_e2ee_thread_id` as seen by `get_user_by_username`: only the
      thread id of row `id` changes, to the value as given. */
  lemma SaveAdminE2eeThreadIdThenGetByUsername(t: Table, lastIssuedId: int, id: int, threadId: Option<string>,
                                               username: string)
    requires Valid(t, lastIssuedId)
    ensures var t' := WithAdminE2eeThreadId(t, id, threadId);
            && Valid(t', lastIssuedId)
            && GetUserByUsername(t', username)
               == match GetUserByUsername(t, username)
                  case None => None
                  case Some(rec) => Some(if rec.id != id then rec else rec.(adminE2eeThreadId := threadId))
  {
    GetByUsernameAfterUpdate(t, WithAdminE2eeThreadId(t, id, threadId), id, lastIssuedId, username);
  }

  // ---------------------------------------------------------------------
  // Readers

  /** A stored delay of 0 reads as 10 through `get_user_config` and as 0
      through `get_user_by_username`: default resolution happens in the
      first reader only. */
  lemma ZeroDelayResolvedOnlyInConfig(t: Table, lastIssuedId: int, id: int)
    requires Valid(t, lastIssuedId)
    requires id in t && t[id].delay == 0
    ensures GetUserConfig(t, id).value.delay == 10
    ensures GetUserByUsername(t, t[id].username).value.delay == 0
  {
  }

  /** A NULL or empty `messages` reads as 'Hello!' through
      `get_user_config` and as stored (NULL or '') through
      `get_user_by_username`. */
  lemma UnsetMessagesResolvedOnlyInConfig(t: Table, lastIssuedId: int, id: int)
    requires Valid(t, lastIssuedId)
    requires id in t && t[id].messages in {None, Some("")}
    ensures GetUserConfig(t, id).value.messages == "Hello!"
    ensures GetUserByUsername(t, t[id].username).value.messages == t[id].messages
  {
  }

  /** Missing ids and usernames are not errors. */
  lemma AbsentIsNotAnError(t: Table, lastIssuedId: int, id: int, username: string)
    requires Valid(t, lastIssuedId)
    requires id !in t && !UsernameTaken(t, username)
    ensures !GetAutomationRunning(t, id)
    ensures GetAdminE2eeThreadId(t, id) == None
    ensures GetUserConfig(t, id) == None
    ensures GetUserByUsername(t, username) == None
  {
  }

  /** Create "alice" with key "KEY-1" in an empty store, then set cookies
      "c1" and delay 30: the id is 1 and the config reads
      ("c1", "", "Hello!", 30, ""). */
  lemma AliceScenario(now: int)
    ensures var t1 := Inserted(map[], 0, "alice", "pw1", Some("KEY-1"), now);
            var t2 := Configured(t1, 1, Some("c1"), None, None, Some(30), None);
            && !Conflicts(map[], "alice", Some("KEY-1"))
            && 1 in t1
            && GetUserConfig(t2, 1) == Some(UserConfig("c1", "", "Hello!", 30, ""))
  {
  }
}
