/**
 * BotState and MessageState (discord-bot_v2.py:104-146): the two single
 * slots of the daily poll, the two list slots of each weekend event, and the
 * ledger of last executions.
 */
module State {

  import opened Wrappers
  import opened Discord

  /** The messages of one event type: its link messages and its notifications. */
  datatype MessageState = MessageState(eventMessages: seq<Option<Msg>>, notificationMessages: seq<Option<Msg>>)

  /** The keys of `last_executions`. */
  datatype Rule = PollCreation | PollDeletion | BossEvent | SiegeEvent | WeeklyUpdate

  /** A ledger value: a calendar date, or an instant truncated to the minute. */
  datatype Key = DateKey(day: int) | MinuteKey(day: int, hour: int, minute: int)

  /** `last_executions`: a rule that is absent has never run. */
  type Ledger = map<Rule, Key>

  datatype BotState = BotState(
    pollMessage: Option<Msg>,
    textMessage: Option<Msg>,
    boss: MessageState,
    siege: MessageState,
    lastExecutions: Ledger)

  /** The state `BotState()` builds: no message held, no rule run yet. */
  const InitialState := BotState(None, None, MessageState([], []), MessageState([], []), map[])

  /** `get_last_execution(action)`. */
  function GetLastExecution(l: Ledger, rule: Rule): Option<Key>
  {
    if rule in l then Some(l[rule]) else None
  }

  /** `update_last_execution(action, timestamp)`. */
  function UpdateLastExecution(l: Ledger, rule: Rule, k: Key): (r: Ledger)
    ensures GetLastExecution(r, rule) == Some(k)
    ensures forall q :: q != rule ==> GetLastExecution(r, q) == GetLastExecution(l, q)
  {
    l[rule := k]
  }

  /** A list slot holds only messages, all authored by the bot. */
  predicate OwnList(xs: seq<Option<Msg>>)
  {
    forall x :: x in xs ==> x.Some? && x.value.fromSelf
  }

  predicate OwnSlot(o: Option<Msg>)
  {
    o.Some? ==> o.value.fromSelf
  }

  /** Every slot holds only messages the bot itself wrote; no list holds a None. */
  predicate SlotsWellFormed(s: BotState)
  {
    && OwnSlot(s.pollMessage)
    && OwnSlot(s.textMessage)
    && OwnList(s.boss.eventMessages)
    && OwnList(s.boss.notificationMessages)
    && OwnList(s.siege.eventMessages)
    && OwnList(s.siege.notificationMessages)
  }
}
