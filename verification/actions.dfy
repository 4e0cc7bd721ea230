/**
 * The actions of EventBot (discord-bot_v2.py:332-487, 540-549): each takes
 * the bot state and the transport oracle and returns both updated.  A
 * platform call reports failure as a result: a send returns None, and a
 * delete raises a DiscordException that delete_messages catches.  Errors of
 * other kinds (network faults), which would abort an action part-way, are
 * not modelled, so each action here runs to completion.
 */
module Actions {

  import opened Wrappers
  import opened Strings
  import opened Seqs
  import opened Discord
  import opened MessageManager
  import opened EventManager
  import opened Config
  import opened State

  datatype Step = Step(state: BotState, transport: Transport)

  /** The k-th send outcome of the oracle. */
  function SendOutcome(t: Transport, k: nat): Option<MsgId>
  {
    if k < |t.sends| then t.sends[k] else None
  }

  /** The message a send creates when the platform returns `o`. */
  function Created(o: Option<MsgId>, isPoll: bool, content: string): (r: Option<Msg>)
    ensures r.Some? <==> o.Some?
    ensures r.Some? ==> r.value.fromSelf && r.value.id == o.value && r.value.isPoll == isPoll && r.value.content == content
  {
    match o
    case None => None
    case Some(id) => Some(Msg(id, true, isPoll, content))
  }

  // ======================== Polls ========================

  /** `delete_poll_messages`: delete whichever of the two poll messages is held, then forget both. */
  function DeletePollMessages(s: BotState, t: Transport): (r: Step)
    ensures r.state == s.(pollMessage := None, textMessage := None)
    ensures r.transport.sends == t.sends
    ensures r.transport.deletes == Drop(t.deletes, SomeCount([s.pollMessage, s.textMessage]))
    ensures r.transport.log == t.log + DeleteCalls([s.pollMessage, s.textMessage])
  {
    var pending := AsList(s.pollMessage) + AsList(s.textMessage);
    assert DeleteCalls(pending) == DeleteCalls([s.pollMessage, s.textMessage]);
    assert SomeCount(pending) == SomeCount([s.pollMessage, s.textMessage]);
    if pending == [] then Step(s, t)
    else Step(s.(pollMessage := None, textMessage := None), DeleteMessages(pending, t).transport)
  }

  /**
   * `create_daily_poll`: clear the poll slots, send the poll, then the
   * companion text.  Each slot ends holding exactly what its send returned.
   */
  function CreateDailyPoll(s: BotState, t: Transport): (r: Step)
    ensures r.state == s.(pollMessage := Created(SendOutcome(t, 0), true, ""),
                          textMessage := Created(SendOutcome(t, 1), false, NotificationMessage))
    ensures r.transport.sends == Drop(t.sends, 2)
    ensures r.transport.deletes == Drop(t.deletes, SomeCount([s.pollMessage, s.textMessage]))
    ensures r.transport.log == t.log + DeleteCalls([s.pollMessage, s.textMessage])
                               + [PollCall(DpChannel), SendCall(DpChannel, NotificationMessage)]
  {
    var cleared := DeletePollMessages(s, t);
    var (poll, t1) := SendPoll(cleared.transport, DpChannel);
    var (text, t2) := Send(t1, DpChannel, NotificationMessage);
    Step(cleared.state.(pollMessage := poll, textMessage := text), t2)
  }

  // ======================== Event link messages ========================

  /** The first `n` sends all succeed. */
  predicate AllSent(sends: seq<Option<MsgId>>, n: nat)
  {
    n <= |sends| && forall k :: 0 <= k < n ==> sends[k].Some?
  }

  /**
   * The messages the platform creates when `contents` are sent one after the
   * other with send outcomes `sends`: one per successful send, in order.
   */
  function SentMessages(contents: seq<string>, sends: seq<Option<MsgId>>): (r: seq<Option<Msg>>)
    ensures |r| <= |contents|
    ensures OwnList(r)
    ensures forall x :: x in r ==> !x.value.isPoll && x.value.content in contents
    decreases |contents|
  {
    if contents == [] then []
    else AsList(Created(if |sends| > 0 then sends[0] else None, false, contents[0]))
         + SentMessages(contents[1..], Drop(sends, 1))
  }

  /**
   * Every message sent is the bot's own, not a poll, and carries one of the
   * contents; when every send succeeds, the k-th message carries the k-th
   * content and the k-th id.
   */
  lemma {:induction false} SentMessagesContents(contents: seq<string>, sends: seq<Option<MsgId>>)
    ensures forall x :: x in SentMessages(contents, sends) ==>
              x.Some? && x.value.fromSelf && !x.value.isPoll && x.value.content in contents
    ensures AllSent(sends, |contents|) ==>
              var r := SentMessages(contents, sends);
              |r| == |contents| && forall k :: 0 <= k < |contents| ==> r[k] == Some(Msg(sends[k].value, true, false, contents[k]))
    decreases |contents|
  {
    if contents != [] && AllSent(sends, |contents|) {
      var rest := SentMessages(contents[1..], Drop(sends, 1));
      assert AllSent(Drop(sends, 1), |contents| - 1) by {
        forall k | 0 <= k < |contents| - 1 ensures Drop(sends, 1)[k].Some? {
          assert Drop(sends, 1)[k] == sends[k + 1];
        }
      }
      SentMessagesContents(contents[1..], Drop(sends, 1));
      var r := SentMessages(contents, sends);
      assert r == [Some(Msg(sends[0].value, true, false, contents[0]))] + rest;
      forall k | 0 <= k < |contents| ensures r[k] == Some(Msg(sends[k].value, true, false, contents[k])) {
        if k > 0 {
          assert r[k] == rest[k - 1];
          assert Drop(sends, 1)[k - 1] == sends[k] && contents[1..][k - 1] == contents[k];
        }
      }
    }
  }

  /** The send requests for `contents`, in order. */
  function SendCalls(ch: Channel, contents: seq<string>): (r: seq<Call>)
    ensures |r| == |contents|
    ensures forall k :: 0 <= k < |contents| ==> r[k] == SendCall(ch, contents[k])
    decreases |contents|
  {
    if contents == [] then [] else [SendCall(ch, contents[0])] + SendCalls(ch, contents[1..])
  }

  /** The send requests for a non-empty list: the first, then the rest. */
  lemma SendCallsCons(log: seq<Call>, ch: Channel, contents: seq<string>)
    requires contents != []
    ensures (log + [SendCall(ch, contents[0])]) + SendCalls(ch, contents[1..]) == log + SendCalls(ch, contents)
  {
    var head := [SendCall(ch, contents[0])];
    var tail := SendCalls(ch, contents[1..]);
    assert SendCalls(ch, contents) == head + tail;
    Associative(log, head, tail);
  }

  /** The messages sent for a non-empty list: the first send's, then the rest. */
  lemma SentMessagesCons(t: Transport, ch: Channel, contents: seq<string>)
    requires contents != []
    ensures AsList(Send(t, ch, contents[0]).0) + SentMessages(contents[1..], Drop(t.sends, 1))
            == SentMessages(contents, t.sends)
  {
    var m := Send(t, ch, contents[0]).0;
    assert m == Created(if |t.sends| > 0 then t.sends[0] else None, false, contents[0]);
  }

  /** `for content in contents: msg = await send_message(ch, content); if msg: append(msg)`. */
  function SendAll(t: Transport, ch: Channel, contents: seq<string>): (r: (seq<Option<Msg>>, Transport))
    ensures r.0 == SentMessages(contents, t.sends)
    ensures r.1 == Transport(t.deletes, Drop(t.sends, |contents|), t.log + SendCalls(ch, contents))
    decreases |contents|
  {
    if contents == [] then ([], t)
    else
      var (m, t1) := Send(t, ch, contents[0]);
      var (ms, t2) := SendAll(t1, ch, contents[1..]);
      SentMessagesCons(t, ch, contents);
      SendCallsCons(t.log, ch, contents);
      DropDrop(t.sends, |contents| - 1);
      (AsList(m) + ms, t2)
  }

  /** The boss events of a catalog: weekend events whose name holds a boss keyword. */
  function BossEvents(catalog: seq<EventData>, lower: string -> string): seq<EventData>
  {
    FilterEventsByCriteria(catalog, [Saturday, Sunday], BossKeywords, lower)
  }

  /** The siege events of a catalog: Sunday events whose name holds a siege keyword. */
  function SiegeEvents(catalog: seq<EventData>, lower: string -> string): seq<EventData>
  {
    FilterEventsByCriteria(catalog, [Sunday], SiegeKeywords, lower)
  }

  /** The Saturday message: the boss template around the Saturday links, when there are any. */
  function SaturdayMessage(bossEvents: seq<EventData>): Option<string>
  {
    var saturdayEvents := OnWeekday(bossEvents, Saturday);
    if saturdayEvents != [] then Some(BossTemplate(Join("\n", Links(saturdayEvents)))) else None
  }

  /** The Sunday message: the Sunday links on their own, when there are any. */
  function SundayMessage(bossEvents: seq<EventData>): Option<string>
  {
    var sundayEvents := OnWeekday(bossEvents, Sunday);
    if sundayEvents != [] then Some(Join("\n", Links(sundayEvents))) else None
  }

  /** The contents an optional message contributes. */
  function Present(o: Option<string>): (r: seq<string>)
    ensures |r| <= 1
    ensures forall c :: c in r <==> o == Some(c)
  {
    if o.Some? then [o.value] else []
  }

  /** What a boss refresh posts: the Saturday message, then the Sunday message. */
  function BossContents(matched: seq<EventData>): (r: seq<string>)
    ensures |r| <= 2
    ensures var saturday := OnWeekday(matched, Saturday);
            var sunday := OnWeekday(matched, Sunday);
            && |r| == (if saturday != [] then 1 else 0) + (if sunday != [] then 1 else 0)
            && (saturday != [] ==> r[0] == BossTemplate(Join("\n", Links(saturday))))
            && (sunday != [] ==> r[|r| - 1] == Join("\n", Links(sunday)))
  {
    Present(SaturdayMessage(matched)) + Present(SundayMessage(matched))
  }

  /** What a siege refresh posts: one siege-template message per event, in catalog order. */
  function SiegeContents(matched: seq<EventData>): (r: seq<string>)
    ensures |r| == |matched|
    ensures forall k :: 0 <= k < |matched| ==> r[k] == SiegeTemplate(matched[k].link)
  {
    seq(|matched|, k requires 0 <= k < |matched| => SiegeTemplate(matched[k].link))
  }

  /**
   * `update_boss_messages`, given the catalog `get_all_events` returned.  With
   * no event, or no boss event, nothing happens.  Otherwise both boss lists go
   * through delete_messages, then the Saturday message and the Sunday message
   * are sent and appended to the event list when their send succeeds.
   */
  function UpdateBossMessages(s: BotState, t: Transport, catalog: seq<EventData>, lower: string -> string): (r: Step)
    ensures catalog == [] || BossEvents(catalog, lower) == [] ==> r == Step(s, t)
    ensures catalog != [] && BossEvents(catalog, lower) != [] ==>
      var events := DeleteMessages(s.boss.eventMessages, t);
      var notes := DeleteMessages(s.boss.notificationMessages, events.transport);
      var contents := BossContents(BossEvents(catalog, lower));
      && r.state == s.(boss := MessageState(events.remaining + SentMessages(contents, t.sends), notes.remaining))
      && r.transport.log == t.log + DeleteCalls(s.boss.eventMessages) + DeleteCalls(s.boss.notificationMessages)
                            + SendCalls(BossChannel, contents)
  {
    if catalog == [] then Step(s, t)
    else
      var bossEvents := BossEvents(catalog, lower);
      if bossEvents == [] then Step(s, t)
      else
        var events := DeleteMessages(s.boss.eventMessages, t);
        var notes := DeleteMessages(s.boss.notificationMessages, events.transport);
        var (sent, t1) := SendBossMessages(notes.transport, bossEvents);
        Step(s.(boss := MessageState(events.remaining + sent, notes.remaining)), t1)
  }

  /** Sending one content is one send. */
  lemma SendAllOne(t: Transport, ch: Channel, c: string)
    ensures SendAll(t, ch, [c]) == (AsList(Send(t, ch, c).0), Send(t, ch, c).1)
  {
    var (m, t1) := Send(t, ch, c);
    assert [c][1..] == [];
    assert SendAll(t1, ch, []) == ([], t1);
    assert AsList(m) + [] == AsList(m);
  }

  /** Sending two contents is two sends. */
  lemma SendAllTwo(t: Transport, ch: Channel, c1: string, c2: string)
    ensures var (m1, t1) := Send(t, ch, c1);
            var (m2, t2) := Send(t1, ch, c2);
            SendAll(t, ch, [c1, c2]) == (AsList(m1) + AsList(m2), t2)
  {
    var (m1, t1) := Send(t, ch, c1);
    assert [c1, c2][1..] == [c2];
    SendAllOne(t1, ch, c2);
  }

  /** `if content: msg = await send_message(ch, content)`. */
  function SendIf(t: Transport, ch: Channel, o: Option<string>): (r: (Option<Msg>, Transport))
    ensures (AsList(r.0), r.1) == SendAll(t, ch, Present(o))
  {
    match o
    case None => (None, t)
    case Some(content) => SendAllOne(t, ch, content); Send(t, ch, content)
  }

  /** Two optional sends in a row create what sending their contents does. */
  lemma SendIfTwice(t: Transport, ch: Channel, o1: Option<string>, o2: Option<string>)
    ensures var first := SendIf(t, ch, o1);
            var second := SendIf(first.1, ch, o2);
            SendAll(t, ch, Present(o1) + Present(o2)) == (AsList(first.0) + AsList(second.0), second.1)
  {
    var first := SendIf(t, ch, o1);
    var second := SendIf(first.1, ch, o2);
    if o1.Some? && o2.Some? {
      assert Present(o1) + Present(o2) == [o1.value, o2.value];
      SendAllTwo(t, ch, o1.value, o2.value);
    } else if o1.Some? {
      assert Present(o1) + Present(o2) == [o1.value];
      assert AsList(second.0) == [] && second.1 == first.1;
      SendAllOne(t, ch, o1.value);
      assert AsList(first.0) + AsList(second.0) == AsList(first.0);
    } else if o2.Some? {
      assert Present(o1) + Present(o2) == [o2.value];
      assert AsList(first.0) == [] && first.1 == t;
      SendAllOne(t, ch, o2.value);
      assert AsList(first.0) + AsList(second.0) == AsList(second.0);
    } else {
      assert Present(o1) + Present(o2) == [];
    }
  }

  /** The Saturday message, then the Sunday message, each only when that day has boss events. */
  function SendBossMessages(t: Transport, bossEvents: seq<EventData>): (r: (seq<Option<Msg>>, Transport))
    ensures r == SendAll(t, BossChannel, BossContents(bossEvents))
  {
    var saturday := SendIf(t, BossChannel, SaturdayMessage(bossEvents));
    var sunday := SendIf(saturday.1, BossChannel, SundayMessage(bossEvents));
    SendIfTwice(t, BossChannel, SaturdayMessage(bossEvents), SundayMessage(bossEvents));
    (AsList(saturday.0) + AsList(sunday.0), sunday.1)
  }

  /**
   * `update_siege_messages`: like the boss refresh, but one message per
   * siege event, each appended when its send succeeds.
   */
  function UpdateSiegeMessages(s: BotState, t: Transport, catalog: seq<EventData>, lower: string -> string): (r: Step)
    ensures catalog == [] || SiegeEvents(catalog, lower) == [] ==> r == Step(s, t)
    ensures catalog != [] && SiegeEvents(catalog, lower) != [] ==>
      var events := DeleteMessages(s.siege.eventMessages, t);
      var notes := DeleteMessages(s.siege.notificationMessages, events.transport);
      var contents := SiegeContents(SiegeEvents(catalog, lower));
      && r.state == s.(siege := MessageState(events.remaining + SentMessages(contents, t.sends), notes.remaining))
      && r.transport.log == t.log + DeleteCalls(s.siege.eventMessages) + DeleteCalls(s.siege.notificationMessages)
                            + SendCalls(SiegeChannel, contents)
  {
    if catalog == [] then Step(s, t)
    else
      var siegeEvents := SiegeEvents(catalog, lower);
      if siegeEvents == [] then Step(s, t)
      else
        var events := DeleteMessages(s.siege.eventMessages, t);
        var notes := DeleteMessages(s.siege.notificationMessages, events.transport);
        var (sent, t1) := SendEach(notes.transport, siegeEvents);
        Step(s.(siege := MessageState(events.remaining + sent, notes.remaining)), t1)
  }

  /** The loop of update_siege_messages over the siege events. */
  function SendEach(t: Transport, siegeEvents: seq<EventData>): (r: (seq<Option<Msg>>, Transport))
    ensures r == SendAll(t, SiegeChannel, SiegeContents(siegeEvents))
    decreases |siegeEvents|
  {
    if siegeEvents == [] then ([], t)
    else
      var (m, t1) := Send(t, SiegeChannel, SiegeTemplate(siegeEvents[0].link));
      var (ms, t2) := SendEach(t1, siegeEvents[1..]);
      assert SiegeContents(siegeEvents)[1..] == SiegeContents(siegeEvents[1..]);
      (AsList(m) + ms, t2)
  }

  /** The notification list of an event type (Boss or Siege). */
  function Notifications(s: BotState, kind: EventType): seq<Option<Msg>>
    requires kind != Poll
  {
    if kind == Boss then s.boss.notificationMessages else s.siege.notificationMessages
  }

  function WithNotifications(s: BotState, kind: EventType, xs: seq<Option<Msg>>): BotState
    requires kind != Poll
  {
    if kind == Boss then s.(boss := s.boss.(notificationMessages := xs))
    else s.(siege := s.siege.(notificationMessages := xs))
  }

  function ChannelOf(kind: EventType): Channel
  {
    if kind == Boss then BossChannel else SiegeChannel
  }

  /**
   * `send_notification(event_type)`: for Boss or Siege, delete the current
   * notifications, send a new one, and append it if the send succeeded.  Any
   * other type is rejected and nothing changes.
   */
  function SendNotification(s: BotState, t: Transport, kind: EventType): (r: Step)
    ensures kind == Poll ==> r == Step(s, t)
    ensures kind != Poll ==>
      && r.state == WithNotifications(s, kind, DeleteMessages(Notifications(s, kind), t).remaining
                                                + AsList(Created(SendOutcome(t, 0), false, NotificationMessage)))
      && r.transport.log == t.log + DeleteCalls(Notifications(s, kind)) + [SendCall(ChannelOf(kind), NotificationMessage)]
  {
    if kind == Poll then Step(s, t)
    else
      var cleared := DeleteMessages(Notifications(s, kind), t);
      var (m, t1) := Send(cleared.transport, ChannelOf(kind), NotificationMessage);
      Step(WithNotifications(s, kind, cleared.remaining + AsList(m)), t1)
  }

  /**
   * `weekly_update`: refresh the boss messages, then the siege messages.
   * Each refresh fetches the catalog anew, so each gets its own.
   */
  function WeeklyUpdate(s: BotState, t: Transport, bossCatalog: seq<EventData>, siegeCatalog: seq<EventData>,
                        lower: string -> string): (r: Step)
    ensures r.state.pollMessage == s.pollMessage && r.state.textMessage == s.textMessage
    ensures r.state.lastExecutions == s.lastExecutions
  {
    var afterBoss := UpdateBossMessages(s, t, bossCatalog, lower);
    UpdateSiegeMessages(afterBoss.state, afterBoss.transport, siegeCatalog, lower)
  }

  // ======================== Properties ========================

  /**
   * The two refreshes of the weekly update do not interfere: the boss lists
   * end as the boss refresh leaves them, and the siege refresh starts from
   * the siege lists as they were before the update.
   */
  lemma WeeklyUpdateIndependent(s: BotState, t: Transport, bossCatalog: seq<EventData>, siegeCatalog: seq<EventData>,
                                lower: string -> string)
    ensures var afterBoss := UpdateBossMessages(s, t, bossCatalog, lower);
            var r := WeeklyUpdate(s, t, bossCatalog, siegeCatalog, lower);
            && r.state.boss == afterBoss.state.boss
            && r.state.siege == UpdateSiegeMessages(s, afterBoss.transport, siegeCatalog, lower).state.siege
            && r.transport == UpdateSiegeMessages(s, afterBoss.transport, siegeCatalog, lower).transport
  {
    var afterBoss := UpdateBossMessages(s, t, bossCatalog, lower);
    assert afterBoss.state.siege == s.siege;
  }

  /** A list of the bot's own messages holds no None. */
  lemma {:induction false} OwnListCounts(xs: seq<Option<Msg>>)
    requires OwnList(xs)
    ensures NoneCount(xs) == 0 && SomeCount(xs) == |xs|
    decreases |xs|
  {
    if xs != [] {
      assert xs[0] in xs;
      assert OwnList(xs[1..]) by {
        forall x | x in xs[1..] ensures x.Some? && x.value.fromSelf {
          assert x in xs;
        }
      }
      OwnListCounts(xs[1..]);
    }
  }

  /** When every delete succeeds, delete_messages empties a list of the bot's own messages. */
  lemma DeleteMessagesEmpties(xs: seq<Option<Msg>>, t: Transport)
    requires OwnList(xs)
    requires AllDeleted(t.deletes, |xs|)
    ensures DeleteMessages(xs, t).remaining == []
  {
    OwnListCounts(xs);
    SurvivorsAllDeleted(xs, t.deletes);
    DeleteMessagesLength(xs, t);
  }

  /** Clearing both lists of a message state when every delete succeeds. */
  lemma ClearBothEmpties(ms: MessageState, t: Transport)
    requires OwnList(ms.eventMessages) && OwnList(ms.notificationMessages)
    requires AllDeleted(t.deletes, |ms.eventMessages| + |ms.notificationMessages|)
    ensures var events := DeleteMessages(ms.eventMessages, t);
            events.remaining == [] && DeleteMessages(ms.notificationMessages, events.transport).remaining == []
  {
    var events := DeleteMessages(ms.eventMessages, t);
    DeleteMessagesEmpties(ms.eventMessages, t);
    OwnListCounts(ms.eventMessages);
    AllDeletedDrop(t.deletes, |ms.eventMessages|, |ms.notificationMessages|);
    DeleteMessagesEmpties(ms.notificationMessages, events.transport);
  }

  /**
   * create_daily_poll first requests the deletion of both poll messages it
   * holds (so a second run deletes what the first created), then sends the
   * poll and its text.
   */
  lemma CreateDailyPollDeletesHeld(s: BotState, t: Transport)
    ensures var issued := CreateDailyPoll(s, t).transport.log[|t.log|..];
            && (s.pollMessage.Some? ==> DeleteCall(s.pollMessage.value.id) in issued)
            && (s.textMessage.Some? ==> DeleteCall(s.textMessage.value.id) in issued)
            && issued[|issued| - 2..] == [PollCall(DpChannel), SendCall(DpChannel, NotificationMessage)]
  {
    var held := [s.pollMessage, s.textMessage];
    var tail := [PollCall(DpChannel), SendCall(DpChannel, NotificationMessage)];
    var log := CreateDailyPoll(s, t).transport.log;
    assert log[|t.log|..] == DeleteCalls(held) + tail by {
      assert log == t.log + (DeleteCalls(held) + tail);
    }
    DeleteCallsCover(held);
    assert held[0] == s.pollMessage && held[1] == s.textMessage;
  }

  /**
   * send_notification with distinct ids: the list becomes the notifications
   * whose delete failed, in order, followed by the new one when its send
   * succeeded; no other slot changes.
   */
  lemma SendNotificationReplaces(s: BotState, t: Transport, kind: EventType)
    requires kind != Poll
    requires DistinctIds(Notifications(s, kind))
    ensures var r := SendNotification(s, t, kind);
            && Notifications(r.state, kind) == Survivors(Notifications(s, kind), t.deletes)
                                               + AsList(Created(SendOutcome(t, 0), false, NotificationMessage))
            && r.state == WithNotifications(s, kind, Notifications(r.state, kind))
  {
    DeleteMessagesKeepsSurvivors(Notifications(s, kind), t);
  }

  /**
   * When every delete succeeds, send_notification leaves exactly one
   * notification (the new one) or none (its send failed).
   */
  lemma SendNotificationLeavesOne(s: BotState, t: Transport, kind: EventType)
    requires kind != Poll
    requires OwnList(Notifications(s, kind))
    requires AllDeleted(t.deletes, |Notifications(s, kind)|)
    ensures Notifications(SendNotification(s, t, kind).state, kind)
            == AsList(Created(SendOutcome(t, 0), false, NotificationMessage))
  {
    DeleteMessagesEmpties(Notifications(s, kind), t);
  }

  /**
   * A siege refresh where every delete and every send succeeds: the
   * notifications are gone and the event list holds one message per siege
   * event, in catalog order, each carrying that event's link in the template.
   */
  lemma UpdateSiegeMessagesFresh(s: BotState, t: Transport, catalog: seq<EventData>, lower: string -> string)
    requires catalog != [] && SiegeEvents(catalog, lower) != []
    requires OwnList(s.siege.eventMessages) && OwnList(s.siege.notificationMessages)
    requires AllDeleted(t.deletes, |s.siege.eventMessages| + |s.siege.notificationMessages|)
    requires AllSent(t.sends, |SiegeEvents(catalog, lower)|)
    ensures var r := UpdateSiegeMessages(s, t, catalog, lower);
            var matched := SiegeEvents(catalog, lower);
            && r.state.siege.notificationMessages == []
            && |r.state.siege.eventMessages| == |matched|
            && forall k :: 0 <= k < |matched| ==>
                 r.state.siege.eventMessages[k] == Some(Msg(t.sends[k].value, true, false, SiegeTemplate(matched[k].link)))
  {
    RefreshFresh(s.siege, t, SiegeContents(SiegeEvents(catalog, lower)));
  }

  /**
   * A boss refresh where every delete and every send succeeds: the
   * notifications are gone and the event list holds one message per day that
   * has boss events, the Saturday one first.
   */
  lemma UpdateBossMessagesFresh(s: BotState, t: Transport, catalog: seq<EventData>, lower: string -> string)
    requires catalog != [] && BossEvents(catalog, lower) != []
    requires OwnList(s.boss.eventMessages) && OwnList(s.boss.notificationMessages)
    requires AllDeleted(t.deletes, |s.boss.eventMessages| + |s.boss.notificationMessages|)
    requires AllSent(t.sends, |BossContents(BossEvents(catalog, lower))|)
    ensures var r := UpdateBossMessages(s, t, catalog, lower);
            var contents := BossContents(BossEvents(catalog, lower));
            && r.state.boss.notificationMessages == []
            && |r.state.boss.eventMessages| == |contents|
            && forall k :: 0 <= k < |contents| ==>
                 r.state.boss.eventMessages[k] == Some(Msg(t.sends[k].value, true, false, contents[k]))
  {
    RefreshFresh(s.boss, t, BossContents(BossEvents(catalog, lower)));
  }

  /** A message-state refresh where every delete and every send succeeds. */
  lemma RefreshFresh(ms: MessageState, t: Transport, contents: seq<string>)
    requires OwnList(ms.eventMessages) && OwnList(ms.notificationMessages)
    requires AllDeleted(t.deletes, |ms.eventMessages| + |ms.notificationMessages|)
    requires AllSent(t.sends, |contents|)
    ensures var events := DeleteMessages(ms.eventMessages, t);
            var notes := DeleteMessages(ms.notificationMessages, events.transport);
            var sent := events.remaining + SentMessages(contents, t.sends);
            && notes.remaining == []
            && |sent| == |contents|
            && forall k :: 0 <= k < |contents| ==> sent[k] == Some(Msg(t.sends[k].value, true, false, contents[k]))
  {
    ClearBothEmpties(ms, t);
    SentMessagesContents(contents, t.sends);
    assert [] + SentMessages(contents, t.sends) == SentMessages(contents, t.sends);
  }

  /** Every boss event is announced in the Saturday message or in the Sunday message, never both. */
  lemma BossEventsSplitByDay(catalog: seq<EventData>, lower: string -> string)
    ensures var matched := BossEvents(catalog, lower);
            forall e :: e in matched <==>
              (e in OnWeekday(matched, Saturday)) != (e in OnWeekday(matched, Sunday))
  {
  }

  // ======================== Slots hold the bot's own messages ========================

  lemma OwnListAfterDelete(xs: seq<Option<Msg>>, t: Transport)
    requires OwnList(xs)
    ensures OwnList(DeleteMessages(xs, t).remaining)
  {
    DeleteMessagesShrinks(xs, t);
  }

  lemma OwnListSent(contents: seq<string>, sends: seq<Option<MsgId>>)
    ensures OwnList(SentMessages(contents, sends))
  {
    SentMessagesContents(contents, sends);
  }

  lemma OwnListCreated(o: Option<MsgId>, isPoll: bool, content: string)
    ensures OwnList(AsList(Created(o, isPoll, content)))
  {
  }

  /** A refreshed message state holds only the bot's messages when the old one did. */
  lemma RefreshKeepsOwn(ms: MessageState, t: Transport, contents: seq<string>)
    requires OwnList(ms.eventMessages) && OwnList(ms.notificationMessages)
    ensures var events := DeleteMessages(ms.eventMessages, t);
            var notes := DeleteMessages(ms.notificationMessages, events.transport);
            OwnList(events.remaining + SentMessages(contents, t.sends)) && OwnList(notes.remaining)
  {
    var events := DeleteMessages(ms.eventMessages, t);
    OwnListAfterDelete(ms.eventMessages, t);
    OwnListAfterDelete(ms.notificationMessages, events.transport);
    OwnListSent(contents, t.sends);
  }

  lemma CreateDailyPollKeepsSlotsOwn(s: BotState, t: Transport)
    requires SlotsWellFormed(s)
    ensures SlotsWellFormed(CreateDailyPoll(s, t).state)
  {
  }

  lemma SendNotificationKeepsSlotsOwn(s: BotState, t: Transport, kind: EventType)
    requires SlotsWellFormed(s)
    ensures SlotsWellFormed(SendNotification(s, t, kind).state)
  {
    if kind != Poll {
      OwnListAfterDelete(Notifications(s, kind), t);
      OwnListCreated(SendOutcome(t, 0), false, NotificationMessage);
    }
  }

  lemma UpdateBossMessagesKeepsSlotsOwn(s: BotState, t: Transport, catalog: seq<EventData>, lower: string -> string)
    requires SlotsWellFormed(s)
    ensures SlotsWellFormed(UpdateBossMessages(s, t, catalog, lower).state)
  {
    RefreshKeepsOwn(s.boss, t, BossContents(BossEvents(catalog, lower)));
  }

  lemma UpdateSiegeMessagesKeepsSlotsOwn(s: BotState, t: Transport, catalog: seq<EventData>, lower: string -> string)
    requires SlotsWellFormed(s)
    ensures SlotsWellFormed(UpdateSiegeMessages(s, t, catalog, lower).state)
  {
    RefreshKeepsOwn(s.siege, t, SiegeContents(SiegeEvents(catalog, lower)));
  }

  lemma WeeklyUpdateKeepsSlotsOwn(s: BotState, t: Transport, bossCatalog: seq<EventData>, siegeCatalog: seq<EventData>,
                                  lower: string -> string)
    requires SlotsWellFormed(s)
    ensures SlotsWellFormed(WeeklyUpdate(s, t, bossCatalog, siegeCatalog, lower).state)
  {
    var afterBoss := UpdateBossMessages(s, t, bossCatalog, lower);
    UpdateBossMessagesKeepsSlotsOwn(s, t, bossCatalog, lower);
    UpdateSiegeMessagesKeepsSlotsOwn(afterBoss.state, afterBoss.transport, siegeCatalog, lower);
  }
}
