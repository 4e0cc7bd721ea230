/**
 * Recovery of the messages the bot posted before a restart
 * (discord-bot_v2.py:551-611).  Each channel's recent history is scanned,
 * newest first; only the bot's own messages are considered.  In the DP
 * channel the first poll fills the poll slot and the first marker message
 * fills the text slot, neither overwriting a slot already held.  In the
 * boss and siege channels every message carrying the template phrase is
 * appended to the event list, and otherwise every message carrying the
 * marker to the notification list.
 */
module Recovery {

  import opened Wrappers
  import opened Strings
  import opened Discord
  import opened EventManager
  import opened Config
  import opened State
  import opened Actions

  /** `channel.history(limit=50)` in the DP channel. */
  const DpHistoryLimit: nat := 50

  /** `channel.history(limit=10)` in the boss and siege channels. */
  const EventHistoryLimit: nat := 10

  /**
   * What the platform gives for a channel: nothing (`get_channel` returned
   * None), or its messages newest first, where `fails` means the iteration
   * raises once they are exhausted.
   */
  datatype History = ChannelMissing | Fetched(messages: seq<Msg>, fails: bool)

  /** The messages a scan with this limit sees. */
  function Window(h: History, limit: nat): (r: seq<Msg>)
    ensures |r| <= limit
    ensures h.Fetched? ==> |r| == (if |h.messages| <= limit then |h.messages| else limit) && r == h.messages[..|r|]
    ensures h.ChannelMissing? ==> r == []
  {
    match h
    case ChannelMissing => []
    case Fetched(messages, _) => if |messages| <= limit then messages else messages[..limit]
  }

  /** The scan raises: the history ran out before the limit and then failed. */
  predicate Raises(h: History, limit: nat)
  {
    h.Fetched? && h.fails && |h.messages| < limit
  }

  // ======================== DP channel ========================

  predicate SelfPoll(m: Msg)
  {
    m.fromSelf && m.isPoll
  }

  predicate SelfMarked(m: Msg)
  {
    m.fromSelf && Contains(m.content, Marker)
  }

  /** One message of `_recover_dp_messages`. */
  function RecoverDpStep(s: BotState, m: Msg): BotState
  {
    if !m.fromSelf then s
    else if m.isPoll && s.pollMessage.None? then s.(pollMessage := Some(m))
    else if Contains(m.content, Marker) && s.textMessage.None? then s.(textMessage := Some(m))
    else s
  }

  /** The loop of `_recover_dp_messages` over `msgs`. */
  function ScanDp(s: BotState, msgs: seq<Msg>): (r: BotState)
    ensures s.pollMessage.Some? ==> r.pollMessage == s.pollMessage
    ensures s.textMessage.Some? ==> r.textMessage == s.textMessage
    ensures r.pollMessage != s.pollMessage ==> r.pollMessage.Some? && r.pollMessage.value in msgs && SelfPoll(r.pollMessage.value)
    ensures r.textMessage != s.textMessage ==> r.textMessage.Some? && r.textMessage.value in msgs && SelfMarked(r.textMessage.value)
    ensures r == s.(pollMessage := r.pollMessage, textMessage := r.textMessage)
    decreases |msgs|
  {
    if msgs == [] then s else ScanDp(RecoverDpStep(s, msgs[0]), msgs[1..])
  }

  /** The first entry of `xs` satisfying `p`. */
  function FirstWhere<T>(xs: seq<T>, p: T -> bool): (r: Option<T>)
    ensures r.None? <==> forall i :: 0 <= i < |xs| ==> !p(xs[i])
    ensures r.Some? ==> exists i :: 0 <= i < |xs| && xs[i] == r.value && p(xs[i]) && forall j :: 0 <= j < i ==> !p(xs[j])
    decreases |xs|
  {
    if xs == [] then None
    else if p(xs[0]) then Some(xs[0])
    else
      var r := FirstWhere(xs[1..], p);
      assert forall i :: 1 <= i < |xs| ==> xs[i] == xs[1..][i - 1];
      r
  }

  /** No poll of the bot's in `msgs` carries the marker (the bot's polls have no text). */
  predicate NoMarkedPoll(msgs: seq<Msg>)
  {
    forall m :: m in msgs && SelfPoll(m) ==> !Contains(m.content, Marker)
  }

  /**
   * The DP scan fills an empty poll slot with the first poll of the bot, and
   * an empty text slot with the first marker message of the bot, unless that
   * message is the poll that filled the poll slot.
   */
  lemma {:induction false} ScanDpFindsFirst(s: BotState, msgs: seq<Msg>)
    ensures ScanDp(s, msgs).pollMessage == if s.pollMessage.Some? then s.pollMessage else FirstWhere(msgs, SelfPoll)
    ensures s.pollMessage.Some? || NoMarkedPoll(msgs) ==>
              ScanDp(s, msgs).textMessage == if s.textMessage.Some? then s.textMessage else FirstWhere(msgs, SelfMarked)
    decreases |msgs|
  {
    if msgs != [] {
      var s' := RecoverDpStep(s, msgs[0]);
      assert NoMarkedPoll(msgs) ==> NoMarkedPoll(msgs[1..]) by {
        forall m | m in msgs[1..] ensures m in msgs { }
      }
      ScanDpFindsFirst(s', msgs[1..]);
    }
  }

  /** `xs` without its first entry satisfying `p`; `xs` itself when there is none. */
  function WithoutFirst<T>(xs: seq<T>, p: T -> bool): seq<T>
    decreases |xs|
  {
    if xs == [] then []
    else if p(xs[0]) then xs[1..]
    else [xs[0]] + WithoutFirst(xs[1..], p)
  }

  /** Removing the first `p`-entry, at index `i`, cuts it out of the sequence. */
  lemma {:induction false} WithoutFirstAt<T>(xs: seq<T>, p: T -> bool, i: nat)
    requires i < |xs| && p(xs[i])
    requires forall j :: 0 <= j < i ==> !p(xs[j])
    ensures WithoutFirst(xs, p) == xs[..i] + xs[i + 1..]
    decreases i
  {
    if i > 0 {
      WithoutFirstAt(xs[1..], p, i - 1);
      assert xs[1..][..i - 1] + xs[1..][i..] == xs[1..i] + xs[i + 1..];
      assert xs[..i] == [xs[0]] + xs[1..i];
    }
  }

  /**
   * In general, an empty text slot receives the first marker message of the
   * bot other than the poll the poll branch takes: with the poll slot empty,
   * that is the first poll of the bot in the window.
   */
  lemma {:induction false} ScanDpTextSlot(s: BotState, msgs: seq<Msg>)
    ensures ScanDp(s, msgs).textMessage
            == if s.textMessage.Some? then s.textMessage
               else FirstWhere(if s.pollMessage.Some? then msgs else WithoutFirst(msgs, SelfPoll), SelfMarked)
    decreases |msgs|
  {
    if s.pollMessage.Some? {
      ScanDpFindsFirst(s, msgs);
    } else if msgs != [] && s.textMessage.None? {
      var m := msgs[0];
      var s' := RecoverDpStep(s, m);
      assert ScanDp(s, msgs) == ScanDp(s', msgs[1..]);
      if SelfPoll(m) {
        ScanDpFindsFirst(s', msgs[1..]);
      } else {
        var rest := WithoutFirst(msgs[1..], SelfPoll);
        assert WithoutFirst(msgs, SelfPoll) == [m] + rest;
        assert ([m] + rest)[0] == m && ([m] + rest)[1..] == rest;
        if !SelfMarked(m) {
          assert s' == s;
          ScanDpTextSlot(s', msgs[1..]);
        }
      }
    }
  }

  /**
   * With both slots empty and the first poll of the bot at index `i`, the
   * text slot receives the first marker message of the bot outside index `i`.
   */
  lemma ScanDpTextAfterFirstPoll(s: BotState, msgs: seq<Msg>, i: nat)
    requires s.pollMessage.None? && s.textMessage.None?
    requires i < |msgs| && SelfPoll(msgs[i])
    requires forall j :: 0 <= j < i ==> !SelfPoll(msgs[j])
    ensures ScanDp(s, msgs).textMessage == FirstWhere(msgs[..i] + msgs[i + 1..], SelfMarked)
  {
    ScanDpTextSlot(s, msgs);
    WithoutFirstAt(msgs, SelfPoll, i);
  }

  /**
   * Scanning the same window twice gives what scanning it once gives,
   * provided no poll of the bot carries the marker.
   */
  lemma ScanDpIdempotent(s: BotState, msgs: seq<Msg>)
    requires NoMarkedPoll(msgs)
    ensures ScanDp(ScanDp(s, msgs), msgs) == ScanDp(s, msgs)
  {
    var once := ScanDp(s, msgs);
    ScanDpFindsFirst(s, msgs);
    ScanDpFindsFirst(once, msgs);
  }

  /**
   * Without that proviso the DP scan is not idempotent: a poll of the bot
   * that carries the marker fills the poll slot on the first scan (the elif
   * is skipped) and the text slot on the second.
   */
  lemma ScanDpMarkedPollCounterexample()
    ensures var m := Msg(1, true, true, Marker);
            && ScanDp(InitialState, [m]).textMessage.None?
            && ScanDp(ScanDp(InitialState, [m]), [m]).textMessage == Some(m)
  {
    var m := Msg(1, true, true, Marker);
    assert Contains(m.content, Marker);
    var once := RecoverDpStep(InitialState, m);
    assert ScanDp(InitialState, [m]) == ScanDp(once, []);
    assert ScanDp(once, [m]) == ScanDp(RecoverDpStep(once, m), []);
  }

  /** `_recover_dp_messages`: whether it raised, and the state it leaves. */
  datatype Recovered = Recovered(state: BotState, raised: bool)

  function RecoverDpMessages(s: BotState, h: History): (r: Recovered)
    ensures r.raised <==> Raises(h, DpHistoryLimit)
    ensures r.state == s.(pollMessage := r.state.pollMessage, textMessage := r.state.textMessage)
    ensures r.state.pollMessage
            == if s.pollMessage.Some? then s.pollMessage else FirstWhere(Window(h, DpHistoryLimit), SelfPoll)
    ensures s.pollMessage.Some? || NoMarkedPoll(Window(h, DpHistoryLimit)) ==>
              r.state.textMessage
              == if s.textMessage.Some? then s.textMessage else FirstWhere(Window(h, DpHistoryLimit), SelfMarked)
    ensures r.state.textMessage
            == if s.textMessage.Some? then s.textMessage
               else FirstWhere(if s.pollMessage.Some? then Window(h, DpHistoryLimit)
                               else WithoutFirst(Window(h, DpHistoryLimit), SelfPoll), SelfMarked)
  {
    ScanDpFindsFirst(s, Window(h, DpHistoryLimit));
    ScanDpTextSlot(s, Window(h, DpHistoryLimit));
    Recovered(ScanDp(s, Window(h, DpHistoryLimit)), Raises(h, DpHistoryLimit))
  }

  lemma MarkerInNotification()
    ensures Contains(NotificationMessage, Marker)
  {
    assert IsPrefix(Marker, NotificationMessage);
  }

  /**
   * After create_daily_poll succeeds, a restart finds both messages again:
   * the text is the newest message of the channel, the poll the next one.
   */
  lemma RecoverDpFindsCreated(s: BotState, t: Transport, s0: BotState, older: seq<Msg>, fails: bool)
    requires AllSent(t.sends, 2)
    requires s0.pollMessage.None? && s0.textMessage.None?
    ensures var created := CreateDailyPoll(s, t).state;
            var h := Fetched([created.textMessage.value, created.pollMessage.value] + older, fails);
            var found := RecoverDpMessages(s0, h).state;
            found.pollMessage == created.pollMessage && found.textMessage == created.textMessage
  {
    var created := CreateDailyPoll(s, t).state;
    var text := created.textMessage.value;
    var poll := created.pollMessage.value;
    var msgs := [text, poll] + older;
    var w := Window(Fetched(msgs, fails), DpHistoryLimit);
    assert w[..2] == [text, poll];
    MarkerInNotification();
    var s1 := RecoverDpStep(s0, text);
    assert s1.textMessage == Some(text) && s1.pollMessage.None?;
    var s2 := RecoverDpStep(s1, poll);
    assert s2.pollMessage == Some(poll) && s2.textMessage == Some(text);
    assert ScanDp(s0, w) == ScanDp(s2, w[2..]) by {
      assert w[1..][0] == poll && w[1..][1..] == w[2..];
    }
  }

  // ======================== Boss and siege channels ========================

  /** What a list scan makes of a message. */
  datatype Role = EventRole | NotificationRole | Unclassified

  /** The elif of `_recover_boss_messages` / `_recover_siege_messages`: the phrase first, then the marker. */
  function RoleOf(m: Msg, phrase: string): Role
  {
    if !m.fromSelf then Unclassified
    else if Contains(m.content, phrase) then EventRole
    else if Contains(m.content, Marker) then NotificationRole
    else Unclassified
  }

  function RecoverListStep(ms: MessageState, m: Msg, phrase: string): MessageState
  {
    match RoleOf(m, phrase)
    case EventRole => ms.(eventMessages := ms.eventMessages + [Some(m)])
    case NotificationRole => ms.(notificationMessages := ms.notificationMessages + [Some(m)])
    case Unclassified => ms
  }

  /** The loop of a list recovery over `msgs`. */
  function ScanList(ms: MessageState, msgs: seq<Msg>, phrase: string): MessageState
    decreases |msgs|
  {
    if msgs == [] then ms else ScanList(RecoverListStep(ms, msgs[0], phrase), msgs[1..], phrase)
  }

  /** The messages of `msgs` a scan puts in the list of `role`, in history order. */
  function Classified(msgs: seq<Msg>, phrase: string, role: Role): seq<Msg>
    decreases |msgs|
  {
    if msgs == [] then []
    else (if RoleOf(msgs[0], phrase) == role then [msgs[0]] else []) + Classified(msgs[1..], phrase, role)
  }

  /** The classified messages are exactly the messages of the window with that role. */
  lemma {:induction false} ClassifiedMembers(msgs: seq<Msg>, phrase: string, role: Role)
    ensures forall m :: m in Classified(msgs, phrase, role) <==> m in msgs && RoleOf(m, phrase) == role
    decreases |msgs|
  {
    if msgs != [] {
      ClassifiedMembers(msgs[1..], phrase, role);
      assert msgs == [msgs[0]] + msgs[1..];
    }
  }

  function Wrap(msgs: seq<Msg>): (r: seq<Option<Msg>>)
    ensures |r| == |msgs|
    ensures forall i :: 0 <= i < |msgs| ==> r[i] == Some(msgs[i])
  {
    seq(|msgs|, i requires 0 <= i < |msgs| => Some(msgs[i]))
  }

  lemma WrapAppend(a: seq<Msg>, b: seq<Msg>)
    ensures Wrap(a + b) == Wrap(a) + Wrap(b)
  {
  }

  /**
   * A list scan appends to the event list every message of the bot with the
   * phrase, and to the notification list every other message of the bot
   * with the marker, each in history order, after what the lists held.
   */
  lemma {:induction false} ScanListAppends(ms: MessageState, msgs: seq<Msg>, phrase: string)
    ensures ScanList(ms, msgs, phrase)
            == MessageState(ms.eventMessages + Wrap(Classified(msgs, phrase, EventRole)),
                            ms.notificationMessages + Wrap(Classified(msgs, phrase, NotificationRole)))
    decreases |msgs|
  {
    if msgs != [] {
      var m := msgs[0];
      var ms' := RecoverListStep(ms, m, phrase);
      ScanListAppends(ms', msgs[1..], phrase);
      var events := Classified(msgs[1..], phrase, EventRole);
      var notes := Classified(msgs[1..], phrase, NotificationRole);
      WrapAppend([m], events);
      WrapAppend([m], notes);
      assert Wrap([m]) == [Some(m)];
      match RoleOf(m, phrase) {
        case EventRole =>
          assert ms.eventMessages + [Some(m)] + Wrap(events) == ms.eventMessages + Wrap([m] + events);
        case NotificationRole =>
          assert ms.notificationMessages + [Some(m)] + Wrap(notes) == ms.notificationMessages + Wrap([m] + notes);
        case Unclassified =>
          assert [] + events == events && [] + notes == notes;
      }
    }
  }

  /**
   * Re-running a list recovery is not idempotent: it appends every match
   * again, so whenever the window holds one the lists grow.
   */
  lemma ScanListTwiceDuplicates(ms: MessageState, msgs: seq<Msg>, phrase: string)
    ensures var once := ScanList(ms, msgs, phrase);
            var twice := ScanList(once, msgs, phrase);
            && twice.eventMessages == once.eventMessages + Wrap(Classified(msgs, phrase, EventRole))
            && twice.notificationMessages == once.notificationMessages + Wrap(Classified(msgs, phrase, NotificationRole))
    ensures (exists m :: m in msgs && RoleOf(m, phrase) != Unclassified) ==>
              ScanList(ScanList(ms, msgs, phrase), msgs, phrase) != ScanList(ms, msgs, phrase)
  {
    var once := ScanList(ms, msgs, phrase);
    ScanListAppends(ms, msgs, phrase);
    ScanListAppends(once, msgs, phrase);
    if exists m :: m in msgs && RoleOf(m, phrase) != Unclassified {
      var m :| m in msgs && RoleOf(m, phrase) != Unclassified;
      ClassifiedMembers(msgs, phrase, RoleOf(m, phrase));
      if RoleOf(m, phrase) == EventRole {
        assert m in Classified(msgs, phrase, EventRole);
      } else {
        assert m in Classified(msgs, phrase, NotificationRole);
      }
    }
  }

  /**
   * `_recover_boss_messages` and `_recover_siege_messages`: the lists gain the bot's phrase
   * messages and marker messages among the newest 10 of the channel, in
   * history order, after what they held; whether the fetch raised.
   */
  function RecoverListMessages(ms: MessageState, h: History, phrase: string): (r: (MessageState, bool))
    ensures r.1 <==> Raises(h, EventHistoryLimit)
    ensures r.0 == MessageState(ms.eventMessages + Wrap(Classified(Window(h, EventHistoryLimit), phrase, EventRole)),
                                ms.notificationMessages + Wrap(Classified(Window(h, EventHistoryLimit), phrase, NotificationRole)))
  {
    ScanListAppends(ms, Window(h, EventHistoryLimit), phrase);
    (ScanList(ms, Window(h, EventHistoryLimit), phrase), Raises(h, EventHistoryLimit))
  }

  /**
   * `recover_existing_messages`: the DP, boss and siege scans in turn; a
   * scan that raises ends the recovery, and the channels after it are not
   * scanned.
   */
  function RecoverExistingMessages(s: BotState, dp: History, boss: History, siege: History): (r: BotState)
    ensures r.lastExecutions == s.lastExecutions
    ensures Raises(dp, DpHistoryLimit) ==> r.boss == s.boss && r.siege == s.siege
    ensures !Raises(dp, DpHistoryLimit) && Raises(boss, EventHistoryLimit) ==> r.siege == s.siege
    ensures r.pollMessage == RecoverDpMessages(s, dp).state.pollMessage
    ensures r.textMessage == RecoverDpMessages(s, dp).state.textMessage
    ensures !Raises(dp, DpHistoryLimit) ==> r.boss == RecoverListMessages(s.boss, boss, BossPhrase).0
    ensures !Raises(dp, DpHistoryLimit) && !Raises(boss, EventHistoryLimit) ==>
              r.siege == RecoverListMessages(s.siege, siege, SiegePhrase).0
  {
    var afterDp := RecoverDpMessages(s, dp);
    if afterDp.raised then afterDp.state
    else
      var (bossState, bossRaised) := RecoverListMessages(afterDp.state.boss, boss, BossPhrase);
      var afterBoss := afterDp.state.(boss := bossState);
      if bossRaised then afterBoss
      else afterBoss.(siege := RecoverListMessages(afterBoss.siege, siege, SiegePhrase).0)
  }

  // ======================== The bot's own messages ========================

  lemma PrefixContains(p: string, s: string)
    requires IsPrefix(p, s)
    ensures Contains(s, p)
  {
  }

  lemma PrefixOfConcat(a: string, b: string)
    ensures IsPrefix(a, a + b)
  {
    assert (a + b)[..|a|] == a;
  }

  /** A notification is recovered as a notification in both event channels. */
  lemma NotificationRecovered(id: MsgId, phrase: string)
    requires phrase == BossPhrase || phrase == SiegePhrase
    ensures RoleOf(Msg(id, true, false, NotificationMessage), phrase) == NotificationRole
  {
    assert phrase[0] == 'P';
    assert 'P' !in NotificationMessage;
    if Contains(NotificationMessage, phrase) {
      ContainedCharsOccur(NotificationMessage, phrase, 0);
    }
    MarkerInNotification();
  }

  /** The Saturday boss message is recovered into the boss event list. */
  lemma SaturdayMessageRecovered(id: MsgId, links: string)
    ensures RoleOf(Msg(id, true, false, BossTemplate(links)), BossPhrase) == EventRole
  {
    var rest := BossTemplateHead[|BossPhrase|..] + links;
    assert BossTemplate(links) == BossPhrase + rest;
    PrefixOfConcat(BossPhrase, rest);
    PrefixContains(BossPhrase, BossTemplate(links));
  }

  /** A siege message is recovered into the siege event list. */
  lemma SiegeMessageRecovered(id: MsgId, link: string)
    ensures RoleOf(Msg(id, true, false, SiegeTemplate(link)), SiegePhrase) == EventRole
  {
    var rest := SiegeTemplateHead[|SiegePhrase|..] + link;
    assert SiegeTemplate(link) == SiegePhrase + rest;
    PrefixOfConcat(SiegePhrase, rest);
    PrefixContains(SiegePhrase, SiegeTemplate(link));
  }

  /** Every message a siege refresh posts is recovered into the siege event list. */
  lemma SiegeContentsRecovered(id: MsgId, matched: seq<EventData>)
    ensures forall k :: 0 <= k < |matched| ==>
              RoleOf(Msg(id, true, false, SiegeContents(matched)[k]), SiegePhrase) == EventRole
  {
    forall k | 0 <= k < |matched|
      ensures RoleOf(Msg(id, true, false, SiegeContents(matched)[k]), SiegePhrase) == EventRole
    {
      SiegeMessageRecovered(id, matched[k].link);
    }
  }

  /**
   * The Sunday boss message holds only event links, which are ASCII, so it
   * carries neither the phrase nor the marker: a restart loses it.
   */
  lemma SundayMessageLost(id: MsgId, guildId: nat, sundayEvents: seq<EventData>)
    requires LinksBuilt(guildId, sundayEvents)
    ensures RoleOf(Msg(id, true, false, Join("\n", Links(sundayEvents))), BossPhrase) == Unclassified
  {
    var content := Join("\n", Links(sundayEvents));
    forall k | 0 <= k < |sundayEvents| ensures IsAscii(Links(sundayEvents)[k]) {
      assert sundayEvents[k] in sundayEvents;
    }
    assert IsAscii("\n");
    assert BossPhrase[2] == 'é';
    AsciiExcludes(content, BossPhrase, 2);
    AsciiExcludes(content, Marker, 0);
  }

  /**
   * Of what a boss refresh posts, a restart recovers the Saturday message
   * into the boss event list and loses the Sunday message.
   */
  lemma BossContentsRecovery(id: MsgId, guildId: nat, matched: seq<EventData>)
    requires LinksBuilt(guildId, matched)
    ensures var r := BossContents(matched);
            && (OnWeekday(matched, Saturday) != [] ==>
                  RoleOf(Msg(id, true, false, r[0]), BossPhrase) == EventRole)
            && (OnWeekday(matched, Sunday) != [] ==>
                  RoleOf(Msg(id, true, false, r[|r| - 1]), BossPhrase) == Unclassified)
  {
    var saturday := OnWeekday(matched, Saturday);
    var sunday := OnWeekday(matched, Sunday);
    if saturday != [] {
      SaturdayMessageRecovered(id, Join("\n", Links(saturday)));
    }
    if sunday != [] {
      SundayMessageLost(id, guildId, sunday);
    }
  }

  /** Recovery keeps every slot holding only the bot's own messages. */
  lemma RecoverExistingKeepsSlotsOwn(s: BotState, dp: History, boss: History, siege: History)
    requires SlotsWellFormed(s)
    ensures SlotsWellFormed(RecoverExistingMessages(s, dp, boss, siege))
  {
    var afterDp := RecoverDpMessages(s, dp).state;
    var bossMsgs := Window(boss, EventHistoryLimit);
    var siegeMsgs := Window(siege, EventHistoryLimit);
    ScanListAppends(afterDp.boss, bossMsgs, BossPhrase);
    ScanListAppends(afterDp.siege, siegeMsgs, SiegePhrase);
    ClassifiedOwn(bossMsgs, BossPhrase, EventRole);
    ClassifiedOwn(bossMsgs, BossPhrase, NotificationRole);
    ClassifiedOwn(siegeMsgs, SiegePhrase, EventRole);
    ClassifiedOwn(siegeMsgs, SiegePhrase, NotificationRole);
    OwnListAppend(afterDp.boss.eventMessages, Wrap(Classified(bossMsgs, BossPhrase, EventRole)));
    OwnListAppend(afterDp.boss.notificationMessages, Wrap(Classified(bossMsgs, BossPhrase, NotificationRole)));
    OwnListAppend(afterDp.siege.eventMessages, Wrap(Classified(siegeMsgs, SiegePhrase, EventRole)));
    OwnListAppend(afterDp.siege.notificationMessages, Wrap(Classified(siegeMsgs, SiegePhrase, NotificationRole)));
  }

  lemma OwnListAppend(a: seq<Option<Msg>>, b: seq<Option<Msg>>)
    requires OwnList(a) && OwnList(b)
    ensures OwnList(a + b)
  {
  }

  /** What a list scan keeps is the bot's own. */
  lemma ClassifiedOwn(msgs: seq<Msg>, phrase: string, role: Role)
    requires role != Unclassified
    ensures OwnList(Wrap(Classified(msgs, phrase, role)))
  {
    var c := Classified(msgs, phrase, role);
    ClassifiedMembers(msgs, phrase, role);
    forall x | x in Wrap(c) ensures x.Some? && x.value.fromSelf {
      var i :| 0 <= i < |c| && Wrap(c)[i] == x;
      assert c[i] in c;
    }
  }
}
