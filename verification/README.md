# EventBot scheduler and message slots, in Dafny

This project models the core of `discord-bot_v2.py`: a Discord bot that keeps
three channels up to date for a guild's scheduled events.

- **DP channel.** It posts a daily attendance poll and a companion text at
  18:00, and deletes both at midnight.
- **Boss channel.** On Mondays at 00:00 it reposts the boss-event link
  messages, and it sends an `@everyone` notification on Saturday and
  Sunday at 20:30.
- **Siege channel.** On Mondays at 00:00 it reposts the siege-event link
  messages, and it sends an `@everyone` notification on Sunday at 14:30.

On restart, the bot recovers the messages it had posted by scanning the
recent history of each channel.

## What the model covers

| file | module | covers |
|---|---|---|
| `wrappers.dfy` | `Wrappers` | `Option` and a helper that turns it into a 0-or-1 element list |
| `strings.dfy` | `Strings` | prefix and substring tests, ASCII, `"\n".join`, decimal rendering |
| `seqs.dfy` | `Seqs` | subsequences, order-preserving filter, associativity of `+` |
| `discord.dfy` | `Discord` | messages, channels, and the **transport oracle** |
| `message_manager.dfy` | `MessageManager` | `delete_messages` |
| `event_manager.dfy` | `EventManager` | event data, `construct_event_link`, `filter_events_by_criteria` |
| `config.dfy` | `Config` | time slots, keywords, the notification text, the two message templates |
| `state.dfy` | `State` | `MessageState`, `BotState`, the execution ledger |
| `actions.dfy` | `Actions` | `delete_poll_messages`, `create_daily_poll`, `update_boss_messages`, `update_siege_messages`, `send_notification`, `weekly_update` |
| `scheduler.dfy` | `Scheduler` | `schedule_checker`, one tick (`Tick`), runs of ticks |
| `recovery.dfy` | `Recovery` | `recover_existing_messages` and its three channel scans |
| `commands.dfy` | `Commands` | the 1900-character chunking of the `!events` listing |

### The transport oracle

The platform is a value, not a side effect. A `Transport` holds three things:

- **Delete outcomes:** one `bool` per delete request, in order. An exhausted
  list reads as a failure.
- **Send outcomes:** one `Option<MsgId>` per send or poll request. An
  exhausted list reads as `None`.
- **A log:** every request the bot makes, in order.

Every action is a pure function from a `BotState` and a `Transport` to a new
pair. The clock is an `Instant` parameter: a day number, the weekday, the
hour and the minute. The guild's event catalog is a parameter too.

### Behaviour of the code worth noting

Each case below is what the code does, and the model does the same.

- **A failed delete keeps a list message but forgets a DP message.**
  `delete_messages` removes a message from its list only when the delete
  succeeds. In the four boss and siege lists, a message whose delete failed
  stays and is retried at the next refresh. `delete_poll_messages` instead
  deletes from a temporary list and then sets both DP slots to None anyway,
  so a DP message whose delete failed is forgotten, not retried
  (`Actions.DeletePollMessages`).
- **The Sunday boss message cannot be recovered.** That message is the bare
  Sunday links, with no template. It carries neither the boss phrase nor the
  `⬆️⬆️⬆️` marker, so a restart loses it (`Recovery.SundayMessageLost`).
- **Recovering the boss and siege channels twice duplicates entries.** Those
  scans append without checking what the lists already hold
  (`Recovery.ScanListTwiceDuplicates`).
- **DP recovery is idempotent only under a condition.** It holds when no poll
  of the bot carries the marker (`Recovery.ScanDpIdempotent`).
  `Recovery.ScanDpMarkedPollCounterexample` shows the case where it fails.
- **A clock that goes back fires a rule twice.** The ledger keeps only the
  last key per rule, so a backwards clock fires a date-keyed rule twice for
  the same date (`Scheduler.ClockBackRefires`). With a clock that never goes
  back, each rule fires at most once per key (`Scheduler.FiresOncePerKey`).

## Model

| member | source | states |
|---|---|---|
| MessageManager.DeleteMessages | discord-bot_v2.py:233-242 | one delete request per non-None entry, in list order; no sends; the delete outcomes consumed are exactly as many as there are messages |
| MessageManager.DeleteMessagesKeepsSurvivors | discord-bot_v2.py:235-239 | with distinct ids, the list afterwards is the original minus exactly the messages whose delete succeeded, in the original order (reference `Survivors`) |
| MessageManager.DeleteMessagesLength | discord-bot_v2.py:235-239 | whatever the ids, the list shrinks by exactly the number of successful deletes |
| MessageManager.DeleteMessagesShrinks | discord-bot_v2.py:235-239 | no entry is ever added, and every None entry is kept |
| MessageManager.SurvivorsAllDeleted | discord-bot_v2.py:235-239 | when every delete succeeds, only the None entries survive |
| MessageManager.DeleteCallsCover | discord-bot_v2.py:235-238 | every message of the list gets a delete request |
| EventManager.ConstructEventLink | discord-bot_v2.py:172-174 | the link starts with `https://discord.com/events/` and is ASCII |
| EventManager.ParseEventLinkInverts | discord-bot_v2.py:172-174 | the guild and event ids can be read back from the link |
| EventManager.ConstructEventLinkInjective | discord-bot_v2.py:172-174 | different (guild, event) pairs give different links |
| EventManager.FilterEventsByCriteria | discord-bot_v2.py:204-224 | an event is kept iff it has a start time, its weekday is one of the days, and its lowercased name contains a lowercased keyword; the result is an order-preserving subsequence of the catalog |
| EventManager.OnWeekday | discord-bot_v2.py:405-406 | the per-day split keeps every occurrence of the events starting on that day and nothing else, as an order-preserving subsequence |
| EventManager.LinksReadBack | discord-bot_v2.py:172-174 | in a catalog whose links were built for a guild, the k-th link of the listing reads back as that guild and the k-th event's id |
| State.UpdateLastExecution | discord-bot_v2.py:140-146 | the rule reads back the new key, and every other rule keeps its entry |
| Actions.DeletePollMessages | discord-bot_v2.py:358-368 | both slots are emptied and nothing else changes; one delete request per held message, poll first; no sends |
| Actions.CreateDailyPoll | discord-bot_v2.py:332-356 | the held messages are deleted first, then a poll request and a notification send in the DP channel; the slots take the created messages, or None when a send failed |
| Actions.CreateDailyPollDeletesHeld | discord-bot_v2.py:336-349 | the requests of one call are delete requests for the held poll and text, then the poll and the text in that order |
| Actions.SentMessages | discord-bot_v2.py:413-415 | a send loop keeps at most one message per content, each the bot's own, not a poll, and carrying one of the contents |
| Actions.SentMessagesContents | discord-bot_v2.py:413-415 | every message a send loop keeps is the bot's own, is not a poll, and carries one of the contents; when all sends succeed, the k-th kept message is the k-th content with the k-th id |
| Actions.SendAll | discord-bot_v2.py:452-456 | a send loop issues one send per content, in order, consumes that many send outcomes, and keeps the successful ones in order |
| Actions.BossContents | discord-bot_v2.py:405-423 | a boss refresh posts one message per weekend day that has boss events; the first is the boss template around the Saturday links, the last is the bare Sunday links |
| Actions.SendBossMessages | discord-bot_v2.py:409-423 | the Saturday and Sunday sends, each only when that day has events, behave as one send loop over the present messages |
| Actions.SendIf | discord-bot_v2.py:409-423 | an optional send behaves as a send loop over the present content |
| Actions.SendIfTwice | discord-bot_v2.py:409-423 | two optional sends in a row create what one send loop over their contents creates |
| Actions.UpdateBossMessages | discord-bot_v2.py:383-428 | an empty catalog or no boss event changes nothing; otherwise both boss lists go through delete_messages, then the Saturday and Sunday messages are sent and appended to the surviving event list; the siege lists, DP slots and ledger are untouched |
| Actions.UpdateBossMessagesFresh | discord-bot_v2.py:400-423 | when every delete succeeds and as many sends succeed as there are boss messages, the boss notification list is empty and the event list is exactly the new Saturday and Sunday messages |
| Actions.BossEventsSplitByDay | discord-bot_v2.py:405-406 | every boss event goes to the Saturday or the Sunday message, never both |
| Actions.UpdateSiegeMessages | discord-bot_v2.py:430-462 | an empty catalog or no siege event changes nothing; otherwise both siege lists go through delete_messages, then one message per siege event is sent and appended |
| Actions.UpdateSiegeMessagesFresh | discord-bot_v2.py:447-456 | when every delete and send succeeds, there are no siege notifications and the k-th event message carries the siege template around the k-th event's link |
| Actions.SendNotification | discord-bot_v2.py:464-487 | a poll type changes nothing; otherwise the type's notification list goes through delete_messages, and the new notification is appended when its send succeeds |
| Actions.SendNotificationReplaces | discord-bot_v2.py:477-483 | with distinct ids, the list becomes the surviving old notifications plus the new one, and no other field changes |
| Actions.SendNotificationLeavesOne | discord-bot_v2.py:477-483 | when every delete succeeds, exactly the new notification (or none) remains |
| Actions.DeleteMessagesEmpties | discord-bot_v2.py:233-242 | when every delete succeeds, a list of the bot's own messages is emptied |
| Actions.ClearBothEmpties | discord-bot_v2.py:401-402 | clearing both lists of a message state empties both when every delete succeeds |
| Actions.WeeklyUpdate | discord-bot_v2.py:540-549 | the weekly update leaves the DP slots and the ledger as they were |
| Actions.WeeklyUpdateIndependent | discord-bot_v2.py:544-546 | the boss and siege refreshes do not interfere: the boss lists end as the boss refresh left them, and the siege refresh starts from the original siege lists |
| Actions.CreateDailyPollKeepsSlotsOwn | discord-bot_v2.py:351-352 | the slots keep holding only the bot's own messages |
| Actions.SendNotificationKeepsSlotsOwn | discord-bot_v2.py:478-483 | the slots keep holding only the bot's own messages |
| Actions.UpdateBossMessagesKeepsSlotsOwn | discord-bot_v2.py:401-423 | the slots keep holding only the bot's own messages |
| Actions.UpdateSiegeMessagesKeepsSlotsOwn | discord-bot_v2.py:448-456 | the slots keep holding only the bot's own messages |
| Scheduler.Tick | discord-bot_v2.py:499-530 | a rule fires iff its time has come and the ledger does not already hold its current key; afterwards each fired rule holds its key and every other entry is unchanged; the fired rules are in source order |
| Scheduler.Daily | discord-bot_v2.py:499-509 | the two independent ifs fire at most one of poll creation and poll deletion, each iff due and not yet recorded |
| Scheduler.Chain | discord-bot_v2.py:511-530 | the if/elif chain adds at most one rule, after the daily ones |
| Scheduler.TickFiresOneChainRule | discord-bot_v2.py:511-530 | at most one of the weekly update, the boss notification and the siege notification fires in a tick |
| Scheduler.ChainRulesExclusive | discord-bot_v2.py:36-40 | the times of the chain's rules never coincide, so the elif never holds a rule back |
| Scheduler.TickTwiceFiresNothing | discord-bot_v2.py:499-530 | a second tick in the same minute fires nothing |
| Scheduler.TickFiresOnly | discord-bot_v2.py:499-530 | when one rule alone is due and unrecorded, a tick fires that rule alone |
| Scheduler.MondayMidnight | discord-bot_v2.py:505-516 | Monday 00:00 with an empty ledger fires the poll deletion, then the weekly update |
| Scheduler.WeekendBossNotifications | discord-bot_v2.py:518-523 | Saturday 20:30 fires the boss notification, a second tick that minute does not, and Sunday 20:30 fires it again |
| Scheduler.RunTicks | discord-bot_v2.py:491-492 | a run of ticks decides once per instant |
| Scheduler.NoRefire | discord-bot_v2.py:501-530 | with a clock that never goes back, a rule recorded with a key does not fire again while the key is current |
| Scheduler.FiresOncePerKey | discord-bot_v2.py:501-530 | with a clock that never goes back, two firings of the same rule have different keys |
| Scheduler.ClockBackRefires | discord-bot_v2.py:506-509 | with a clock that goes back, the poll deletion fires twice for the same date |
| Scheduler.KeyForMonotone | discord-bot_v2.py:495-496 | the date key and the minute key never decrease along a clock that never goes back |
| Scheduler.Execute | discord-bot_v2.py:502-529 | the action behind each rule never writes the ledger |
| Scheduler.ExecuteIgnoresLedger | discord-bot_v2.py:332-487 | what an action does to the messages does not depend on the ledger |
| Scheduler.ScheduleCheckerRunsFired | discord-bot_v2.py:491-533 | schedule_checker runs, in order, exactly the actions of the rules Tick fires, and ends with Tick's ledger |
| Scheduler.BotScheduleCheckerLedger | discord-bot_v2.py:501-530 | the bot's ledger after a tick is Tick's, whatever the platform did |
| Scheduler.ScheduleCheckerKeepsSlotsOwn | discord-bot_v2.py:491-533 | a tick keeps every slot holding only the bot's own messages |
| Recovery.Window | discord-bot_v2.py:574 | the scan sees the newest `limit` messages, or all of them when there are fewer |
| Recovery.ScanDp | discord-bot_v2.py:574-581 | the DP scan never replaces a held slot; a filled slot holds a poll (poll slot) or a marker message (text slot) of the bot from the window |
| Recovery.ScanDpFindsFirst | discord-bot_v2.py:574-581 | an empty poll slot receives the first poll of the bot in the window; when the poll slot is held or no poll of the bot carries the marker, an empty text slot receives the first marker message of the bot |
| Recovery.ScanDpTextSlot | discord-bot_v2.py:574-581 | in every case, an empty text slot receives the first marker message of the bot once the poll the poll branch takes (the first poll of the bot, when the poll slot is empty) is set aside |
| Recovery.ScanDpTextAfterFirstPoll | discord-bot_v2.py:574-581 | with both slots empty and the first poll of the bot at index i, the text slot receives the first marker message of the bot outside index i |
| Recovery.ScanDpIdempotent | discord-bot_v2.py:574-581 | scanning twice is scanning once, when no poll of the bot carries the marker |
| Recovery.ScanDpMarkedPollCounterexample | discord-bot_v2.py:576-580 | a marked poll of the bot fills the poll slot on the first scan and the text slot on the second |
| Recovery.RecoverDpMessages | discord-bot_v2.py:568-581 | the scan raises iff the history fails; only the two DP slots change; an empty poll slot receives the first poll of the bot among the newest 50; an empty text slot receives the first marker message of the bot among them, setting aside the poll the poll branch takes |
| Recovery.RecoverDpFindsCreated | discord-bot_v2.py:332-356 | after a successful create_daily_poll, a restart recovers the same poll and text |
| Recovery.ScanListAppends | discord-bot_v2.py:589-596 | a list scan appends every message of the bot with the phrase to the event list and every other marked message of the bot to the notification list, in history order |
| Recovery.ClassifiedMembers | discord-bot_v2.py:590-596 | a message is taken for a role iff it is in the window and has that role |
| Recovery.ScanListTwiceDuplicates | discord-bot_v2.py:589-611 | a second list scan appends every match again |
| Recovery.RecoverListMessages | discord-bot_v2.py:583-611 | the scan raises iff the history fails; the event list gains the bot's phrase messages and the notification list the bot's other marked messages among the newest 10, in history order, after what the lists held |
| Recovery.RecoverExistingMessages | discord-bot_v2.py:553-566 | the ledger is untouched; the DP slots are what the DP scan recovers; the boss lists are what the boss scan recovers unless the DP scan raised, and the siege lists what the siege scan recovers unless an earlier scan raised, in which case the skipped lists are unchanged |
| Recovery.NotificationRecovered | discord-bot_v2.py:591-610 | a notification is recovered as a notification in both event channels |
| Recovery.SaturdayMessageRecovered | discord-bot_v2.py:591-592 | the Saturday boss message is recovered as a boss event message |
| Recovery.SiegeMessageRecovered | discord-bot_v2.py:606-607 | a siege message is recovered as a siege event message |
| Recovery.SiegeContentsRecovered | discord-bot_v2.py:452-453 | every message a siege refresh posts is recovered as a siege event message |
| Recovery.BossContentsRecovery | discord-bot_v2.py:409-423 | of what a boss refresh posts, the Saturday message is recovered as a boss event message and the Sunday message is not recovered |
| Recovery.SundayMessageLost | discord-bot_v2.py:418-420 | the Sunday boss message is bare links and is not recovered |
| Recovery.RecoverExistingKeepsSlotsOwn | discord-bot_v2.py:553-611 | recovery keeps every slot holding only the bot's own messages |
| Commands.Chunks | discord-bot_v2.py:632-637 | a listing that fits is sent whole, and no chunk is longer than 1900 characters |
| Commands.ChunksConcat | discord-bot_v2.py:632-637 | the chunks put back together are the listing |
| Commands.SplitEverySlices | discord-bot_v2.py:633 | there are ceil(len/1900) chunks, and the k-th is the slice starting at k·1900 |
| Commands.SplitEveryFull | discord-bot_v2.py:633 | every chunk but the last has exactly 1900 characters |
| Strings.ParseDecimalInvertsDecimal | discord-bot_v2.py:174 | the decimal rendering of an id reads back as the id |

## Left out

- **Discord I/O:** the gateway, `get_channel`, `fetch_scheduled_events` and
  history iteration. Each is replaced by a parameter: the transport oracle,
  the event catalog, or a `History` value.
- **`get_current_time` and the time zone:** the instant is a parameter. In
  Europe/Paris a daylight-saving change moves the clock between 02:00 and
  03:00 of the same date. No slot lies in that hour and the ledger keys are
  dates or minutes of those slots, so such a change fires nothing twice and
  skips nothing. `Scheduler.ClockBackRefires` is about a different case: a
  clock set back to an earlier date.
- **`get_all_events`:** the dict it builds is keyed by event name, so a later
  event with the same name overwrites an earlier one. The model takes the
  resulting catalog as a sequence, one entry per name, with the link already
  built.
- **`str.lower`:** it is a parameter `lower`, because Unicode case mapping
  is out of scope.
- **`str.format`:** each template is modelled as its fixed head followed by
  the links, which is exact because each placeholder ends its template.
  The head is what recovery looks for. Both templates, the notification
  text and the marker are spelled out in full.
- **A missing channel in `send_message`/`send_poll`:** this folds into a
  failed send (None). A missing channel in a recovery scan is
  `History.ChannelMissing`.
- **Poll construction:** the question, the answers and the 8-hour duration
  are left out. A poll is a message with `isPoll` set and empty text.
- **Exceptions other than `DiscordException`:** a network fault (an
  `aiohttp` or `OSError` error, `asyncio.TimeoutError`) raised by a delete or
  a send is not caught by `delete_messages` (241), `send_message` (255) or
  `send_poll` (275). The model treats every platform call as returning, so
  it does not model these abort paths:
  - `create_daily_poll` catches it at 355. If it comes from a delete inside
    `delete_poll_messages` (366), the slots are not cleared and nothing is
    sent. If it comes from the text send (346-349) after the poll send
    (339-343) succeeded, the poll is posted but 351-352 never run: the poll
    slot stays None, as `delete_poll_messages` left it, so that poll is
    orphaned and no later midnight deletion removes it.
  - `update_boss_messages` (427) and `update_siege_messages` (461) catch it,
    and the rest of that refresh is skipped; messages already sent stay
    appended.
  - `send_notification` catches it at 486. If it comes from a delete, no new
    notification is sent; if it comes from the send, none is appended.
  - `delete_poll_messages` (358-368) has no handler of its own when the
    midnight rule calls it. The error reaches 532, so the ledger is not
    written, the slots are not cleared, and the rest of that tick's chain
    (the Monday weekly update) is skipped.
- **Logging:** left out.
- **`update_events_cache` and `cached_events`:** the cache is read only by
  the status command.
- **The bot commands other than the `!events` chunking:** `!status`,
  `!force_*`, `!update_all_links` and `!help_admin` call the modelled actions or
  only format text.
- **Startup:** `setup_hook`, `on_ready`, `on_command_error`, `main()` and
  `main.py` are process wiring.
- **Concurrency:** `tasks.loop` and a command handler could interleave on
  the same state. The model runs one operation at a time.
- **`Actions.WeeklyUpdate`:** its own contract states only that the DP
  slots and the ledger are unchanged. What it does to the boss and siege
  lists is stated by `Actions.WeeklyUpdateIndependent` together with the
  contracts of `UpdateBossMessages` and `UpdateSiegeMessages`.
