/** The sparse update of `update_user_config`: a list of column assignments,
    one per argument that is not None, applied to a row the way the UPDATE's
    SET clause applies them. */
module ConfigUpdate {
  import opened Wrappers
  import opened Schema

  /** One entry of the `updates`/`params` pair: the column and its value. */
  datatype Assignment =
    | SetCookies(cookies: string)
    | SetChatId(chatId: string)
    | SetMessages(messages: string)
    | SetDelay(delay: int)
    | SetNamePrefix(namePrefix: string)

  /** The columns a config update may not touch are all equal. */
  predicate SameOutsideConfig(u: User, v: User)
  {
    && SameIdentity(u, v)
    && u.automationRunning == v.automationRunning
    && u.adminE2eeThreadId == v.adminE2eeThreadId
  }

  /** `column = ?` with its parameter, applied to one row. */
  function Assign(u: User, a: Assignment): User
  {
    match a
    case SetCookies(c) => u.(cookies := Some(c))
    case SetChatId(c) => u.(chatId := Some(c))
    case SetMessages(m) => u.(messages := Some(m))
    case SetDelay(d) => u.(delay := d)
    case SetNamePrefix(p) => u.(namePrefix := p)
  }

  /** The whole SET list applied to one row, in order. */
  function ApplyAll(u: User, updates: seq<Assignment>): (r: User)
    ensures SameOutsideConfig(u, r)
  {
    if updates == [] then u
    else Assign(ApplyAll(u, updates[..|updates| - 1]), updates[|updates| - 1])
  }

  /** The intended effect, column by column: a supplied argument (an empty
      string included) replaces the stored value, an absent one keeps it. */
  function Overwritten(u: User, cookies: Option<string>, chatId: Option<string>, messages: Option<string>,
                       delay: Option<int>, namePrefix: Option<string>): (r: User)
    ensures SameOutsideConfig(u, r)
  {
    u.(cookies := if cookies.Some? then cookies else u.cookies,
       chatId := if chatId.Some? then chatId else u.chatId,
       messages := if messages.Some? then messages else u.messages,
       delay := if delay.Some? then delay.value else u.delay,
       namePrefix := if namePrefix.Some? then namePrefix.value else u.namePrefix)
  }

  /** `updates` has the effect of the given arguments on every row. */
  ghost predicate Builds(updates: seq<Assignment>, cookies: Option<string>, chatId: Option<string>,
                         messages: Option<string>, delay: Option<int>, namePrefix: Option<string>)
  {
    forall u :: ApplyAll(u, updates) == Overwritten(u, cookies, chatId, messages, delay, namePrefix)
  }

  /** Appending one assignment to a list that has the effect of some
      arguments gives the effect of the arguments with that column supplied. */
  lemma AppendBuilds(updates: seq<Assignment>, a: Assignment,
                     cookies: Option<string>, chatId: Option<string>, messages: Option<string>,
                     delay: Option<int>, namePrefix: Option<string>,
                     cookies': Option<string>, chatId': Option<string>, messages': Option<string>,
                     delay': Option<int>, namePrefix': Option<string>)
    requires Builds(updates, cookies, chatId, messages, delay, namePrefix)
    requires forall u :: Assign(Overwritten(u, cookies, chatId, messages, delay, namePrefix), a)
                         == Overwritten(u, cookies', chatId', messages', delay', namePrefix')
    ensures Builds(updates + [a], cookies', chatId', messages', delay', namePrefix')
  {
  }

  /** The chain of conditional appends: one assignment per argument that is
      not None, in the order cookies, chat_id, messages, delay, name_prefix. */
  method BuildUpdates(cookies: Option<string>, chatId: Option<string>, messages: Option<string>,
                      delay: Option<int>, namePrefix: Option<string>)
    returns (updates: seq<Assignment>)
    ensures updates == [] <==> cookies.None? && chatId.None? && messages.None? && delay.None? && namePrefix.None?
    ensures Builds(updates, cookies, chatId, messages, delay, namePrefix)
  {
    updates := [];
    assert Builds(updates, None, None, None, None, None);
    if cookies.Some? {
      AppendBuilds(updates, SetCookies(cookies.value), None, None, None, None, None, cookies, None, None, None, None);
      updates := updates + [SetCookies(cookies.value)];
    }
    if chatId.Some? {
      AppendBuilds(updates, SetChatId(chatId.value), cookies, None, None, None, None, cookies, chatId, None, None, None);
      updates := updates + [SetChatId(chatId.value)];
    }
    if messages.Some? {
      AppendBuilds(updates, SetMessages(messages.value), cookies, chatId, None, None, None, cookies, chatId, messages, None, None);
      updates := updates + [SetMessages(messages.value)];
    }
    if delay.Some? {
      AppendBuilds(updates, SetDelay(delay.value), cookies, chatId, messages, None, None, cookies, chatId, messages, delay, None);
      updates := updates + [SetDelay(delay.value)];
    }
    if namePrefix.Some? {
      AppendBuilds(updates, SetNamePrefix(namePrefix.value), cookies, chatId, messages, delay, None, cookies, chatId, messages, delay, namePrefix);
      updates := updates + [SetNamePrefix(namePrefix.value)];
    }
  }
}
