/**
 * EventBot.schedule_checker (discord-bot_v2.py:491-533), called once a
 * minute.  Poll creation and poll deletion are two independent guarded
 * rules keyed by calendar date; the weekly update (keyed by date), the boss
 * notification and the siege notification (keyed by the minute-truncated
 * instant) form one if/elif chain.  A rule whose time has come runs its
 * action unless the ledger already holds the current key, and the key is
 * written once the action returns.  Platform calls are modelled as always
 * returning (a failure is a result, not an exception), so no action raises
 * here and every rule that runs also records its key.
 */
module Scheduler {

  import opened Wrappers
  import opened Discord
  import opened EventManager
  import opened Config
  import opened State
  import opened Actions

  type Hour = h: int | 0 <= h < 24
  type Minute = m: int | 0 <= m < 60

  /**
   * The clock reading `get_current_time()` returns, reduced to what the
   * scheduler reads: a day number (the calendar date), its weekday, and the
   * hour and minute.  Seconds are dropped by the minute truncation.
   */
  datatype Instant = Instant(day: int, weekday: Weekday, hour: Hour, minute: Minute)

  /** `now.date()`. */
  function DateOf(now: Instant): Key
  {
    DateKey(now.day)
  }

  /** `now.replace(second=0, microsecond=0)`. */
  function MinuteOf(now: Instant): Key
  {
    MinuteKey(now.day, now.hour, now.minute)
  }

  /** `(now.hour, now.minute) == slot`. */
  predicate At(now: Instant, slot: TimeSlot)
  {
    now.hour == slot.hour && now.minute == slot.minute
  }

  /** The ledger key a rule is guarded by. */
  function KeyFor(rule: Rule, now: Instant): Key
  {
    match rule
    case PollCreation => DateOf(now)
    case PollDeletion => DateOf(now)
    case WeeklyUpdate => DateOf(now)
    case BossEvent => MinuteOf(now)
    case SiegeEvent => MinuteOf(now)
  }

  /** The time condition of each rule on its own, ignoring the ledger and the other rules. */
  predicate Due(rule: Rule, now: Instant)
  {
    match rule
    case PollCreation => At(now, PollCreationSlot)
    case PollDeletion => At(now, PollDeletionSlot)
    case WeeklyUpdate => now.weekday == WeeklyUpdateDay && At(now, WeeklyUpdateSlot)
    case BossEvent => now.weekday in [Saturday, Sunday] && At(now, BossNotificationSlot)
    case SiegeEvent => now.weekday == Sunday && At(now, SiegeNotificationSlot)
  }

  /** The order in which one tick considers the rules. */
  const RuleOrder := [PollCreation, PollDeletion, WeeklyUpdate, BossEvent, SiegeEvent]

  /** The rules of the if/elif chain. */
  predicate InChain(rule: Rule)
  {
    rule == WeeklyUpdate || rule == BossEvent || rule == SiegeEvent
  }

  /** What one tick decides: the rules whose actions run, in order, and the ledger afterwards. */
  datatype Decision = Decision(fired: seq<Rule>, ledger: Ledger)

  /** `if get_last_execution(rule) != key: run; update_last_execution(rule, key)`. */
  function Guard(d: Decision, rule: Rule, key: Key): Decision
  {
    if GetLastExecution(d.ledger, rule) != Some(key)
    then Decision(d.fired + [rule], UpdateLastExecution(d.ledger, rule, key))
    else d
  }

  /** The first two rules of a tick: two independent guarded ifs, poll creation then poll deletion. */
  function Daily(l: Ledger, now: Instant): (r: Decision)
    ensures forall rule :: rule in r.fired <==> !InChain(rule) && Due(rule, now) && GetLastExecution(l, rule) != Some(KeyFor(rule, now))
    ensures forall rule :: GetLastExecution(r.ledger, rule)
                           == if rule in r.fired then Some(KeyFor(rule, now)) else GetLastExecution(l, rule)
    ensures |r.fired| <= 1
  {
    var start := Decision([], l);
    var afterCreation := if At(now, PollCreationSlot) then Guard(start, PollCreation, DateOf(now)) else start;
    if At(now, PollDeletionSlot) then Guard(afterCreation, PollDeletion, DateOf(now)) else afterCreation
  }

  /** The rest of a tick: the if/elif chain of the weekly update, the boss and the siege notification. */
  function Chain(d: Decision, now: Instant): (r: Decision)
    ensures forall rule :: rule in r.fired <==>
              rule in d.fired || (InChain(rule) && Due(rule, now) && GetLastExecution(d.ledger, rule) != Some(KeyFor(rule, now)))
    ensures forall rule :: GetLastExecution(r.ledger, rule)
                           == if InChain(rule) && Due(rule, now) && GetLastExecution(d.ledger, rule) != Some(KeyFor(rule, now))
                              then Some(KeyFor(rule, now)) else GetLastExecution(d.ledger, rule)
    ensures |d.fired| <= |r.fired| <= |d.fired| + 1 && r.fired[..|d.fired|] == d.fired
    ensures forall k :: |d.fired| <= k < |r.fired| ==> InChain(r.fired[k])
  {
    if now.weekday == WeeklyUpdateDay && At(now, WeeklyUpdateSlot) then
      Guard(d, WeeklyUpdate, DateOf(now))
    else if now.weekday in [Saturday, Sunday] && At(now, BossNotificationSlot) then
      Guard(d, BossEvent, MinuteOf(now))
    else if now.weekday == Sunday && At(now, SiegeNotificationSlot) then
      Guard(d, SiegeEvent, MinuteOf(now))
    else
      d
  }

  /** The decisions of one tick at `now`, starting from ledger `l`. */
  function Tick(l: Ledger, now: Instant): (r: Decision)
    ensures forall rule :: rule in r.fired <==> Due(rule, now) && GetLastExecution(l, rule) != Some(KeyFor(rule, now))
    ensures forall rule :: GetLastExecution(r.ledger, rule)
                           == if rule in r.fired then Some(KeyFor(rule, now)) else GetLastExecution(l, rule)
    ensures forall i, j :: 0 <= i < j < |r.fired| ==> RankOf(r.fired[i]) < RankOf(r.fired[j])
  {
    var daily := Daily(l, now);
    var r := Chain(daily, now);
    assert forall rule :: InChain(rule) ==> GetLastExecution(daily.ledger, rule) == GetLastExecution(l, rule);
    assert forall k :: 0 <= k < |daily.fired| ==> r.fired[k] == daily.fired[k] && !InChain(r.fired[k]);
    r
  }

  /** The position of a rule in RuleOrder. */
  function RankOf(rule: Rule): (r: nat)
    ensures r < |RuleOrder| && RuleOrder[r] == rule
  {
    match rule
    case PollCreation => 0
    case PollDeletion => 1
    case WeeklyUpdate => 2
    case BossEvent => 3
    case SiegeEvent => 4
  }

  /** The chain never holds back a rule: its three times are pairwise disjoint. */
  lemma ChainRulesExclusive(now: Instant)
    ensures !(Due(WeeklyUpdate, now) && Due(BossEvent, now))
    ensures !(Due(WeeklyUpdate, now) && Due(SiegeEvent, now))
    ensures !(Due(BossEvent, now) && Due(SiegeEvent, now))
  {
  }

  /** At most one rule of the chain fires in a tick. */
  lemma TickFiresOneChainRule(l: Ledger, now: Instant)
    ensures forall a, b :: a in Tick(l, now).fired && b in Tick(l, now).fired && InChain(a) && InChain(b) ==> a == b
  {
    ChainRulesExclusive(now);
  }

  /** A second tick at the same instant fires nothing: every rule that fired has consumed its key. */
  lemma TickTwiceFiresNothing(l: Ledger, now: Instant)
    ensures Tick(Tick(l, now).ledger, now).fired == []
  {
  }

  /** When exactly one rule is due and not yet recorded for its key, a tick fires that rule alone. */
  lemma TickFiresOnly(l: Ledger, now: Instant, rule: Rule)
    requires forall other :: Due(other, now) && GetLastExecution(l, other) != Some(KeyFor(other, now)) <==> other == rule
    ensures Tick(l, now).fired == [rule]
  {
    var d := Tick(l, now);
    RankedSingleton(d.fired, rule);
  }

  /** A rank-ordered sequence of rules holding exactly one rule is that rule alone. */
  lemma RankedSingleton(f: seq<Rule>, rule: Rule)
    requires forall x :: x in f <==> x == rule
    requires forall i, j :: 0 <= i < j < |f| ==> RankOf(f[i]) < RankOf(f[j])
    ensures f == [rule]
  {
    assert |f| >= 2 ==> RankOf(f[0]) < RankOf(f[1]);
    assert rule in f;
    forall k | 0 <= k < |f| ensures f[k] == rule {
      assert f[k] in f;
    }
  }

  /** Monday 00:00 with a fresh ledger: the poll deletion, then the weekly update. */
  lemma MondayMidnight(day: int)
    ensures Tick(map[], Instant(day, 0, 0, 0)).fired == [PollDeletion, WeeklyUpdate]
  {
  }

  /**
   * The weekend boss notification: Saturday 20:30 fires it, a second tick in
   * the same minute does not, and Sunday 20:30 fires it again.
   */
  lemma WeekendBossNotifications(l: Ledger, day: int)
    requires GetLastExecution(l, BossEvent).None?
    ensures var saturday := Tick(l, Instant(day, Saturday, 20, 30));
            var again := Tick(saturday.ledger, Instant(day, Saturday, 20, 30));
            var sunday := Tick(again.ledger, Instant(day + 1, Sunday, 20, 30));
            && saturday.fired == [BossEvent]
            && again.fired == []
            && sunday.fired == [BossEvent]
  {
    var sat := Instant(day, Saturday, 20, 30);
    var sun := Instant(day + 1, Sunday, 20, 30);
    TickFiresOnly(l, sat, BossEvent);
    var saturday := Tick(l, sat);
    var again := Tick(saturday.ledger, sat);
    TickTwiceFiresNothing(l, sat);
    assert GetLastExecution(again.ledger, BossEvent) == Some(MinuteKey(day, 20, 30));
    TickFiresOnly(again.ledger, sun, BossEvent);
  }

  // ======================== Runs of ticks ========================

  /** `a` is not later than `b`, comparing (day, hour, minute). */
  predicate NotAfter(a: Instant, b: Instant)
  {
    a.day < b.day || (a.day == b.day && (a.hour < b.hour || (a.hour == b.hour && a.minute <= b.minute)))
  }

  /** The clock never goes back. */
  predicate Monotone(nows: seq<Instant>)
  {
    forall i, j :: 0 <= i < j < |nows| ==> NotAfter(nows[i], nows[j])
  }

  /** `a` is not later than `b`, comparing keys of the same kind. */
  predicate KeyNotAfter(a: Key, b: Key)
  {
    match (a, b)
    case (DateKey(d1), DateKey(d2)) => d1 <= d2
    case (MinuteKey(d1, h1, m1), MinuteKey(d2, h2, m2)) =>
      d1 < d2 || (d1 == d2 && (h1 < h2 || (h1 == h2 && m1 <= m2)))
    case _ => false
  }

  lemma KeyForMonotone(rule: Rule, a: Instant, b: Instant)
    requires NotAfter(a, b)
    ensures KeyNotAfter(KeyFor(rule, a), KeyFor(rule, b))
  {
  }

  lemma KeyNotAfterAntisymmetric(a: Key, b: Key)
    requires KeyNotAfter(a, b) && KeyNotAfter(b, a)
    ensures a == b
  {
  }

  /** The rules fired at each tick of a run, and the ledger it ends with. */
  datatype Run = Run(fired: seq<seq<Rule>>, ledger: Ledger)

  function RunTicks(l: Ledger, nows: seq<Instant>): (r: Run)
    ensures |r.fired| == |nows|
    decreases |nows|
  {
    if nows == [] then Run([], l)
    else
      var first := Tick(l, nows[0]);
      var rest := RunTicks(first.ledger, nows[1..]);
      Run([first.fired] + rest.fired, rest.ledger)
  }

  /**
   * Once the ledger holds the key of `rule` at `prev`, no later tick of a
   * monotone run fires `rule` for that key again.
   */
  lemma {:induction false} NoRefire(l: Ledger, nows: seq<Instant>, rule: Rule, prev: Instant)
    requires Monotone(nows)
    requires GetLastExecution(l, rule) == Some(KeyFor(rule, prev))
    requires forall j :: 0 <= j < |nows| ==> NotAfter(prev, nows[j])
    ensures forall j :: 0 <= j < |nows| && KeyFor(rule, nows[j]) == KeyFor(rule, prev) ==> rule !in RunTicks(l, nows).fired[j]
    decreases |nows|
  {
    if nows != [] {
      var first := Tick(l, nows[0]);
      var run := RunTicks(l, nows);
      assert run.fired[1..] == RunTicks(first.ledger, nows[1..]).fired;
      if KeyFor(rule, nows[0]) == KeyFor(rule, prev) {
        assert rule !in first.fired;
        NoRefire(first.ledger, nows[1..], rule, prev);
        forall j | 1 <= j < |nows| && KeyFor(rule, nows[j]) == KeyFor(rule, prev)
          ensures rule !in run.fired[j]
        {
          assert nows[1..][j - 1] == nows[j];
          assert run.fired[j] == run.fired[1..][j - 1];
        }
      } else {
        forall j | 1 <= j < |nows|
          ensures KeyFor(rule, nows[j]) != KeyFor(rule, prev)
        {
          KeyForMonotone(rule, prev, nows[0]);
          KeyForMonotone(rule, nows[0], nows[j]);
          if KeyFor(rule, nows[j]) == KeyFor(rule, prev) {
            KeyNotAfterAntisymmetric(KeyFor(rule, nows[0]), KeyFor(rule, prev));
          }
        }
      }
    }
  }

  /**
   * Over a run whose clock never goes back, each rule fires at most once
   * per key: at most once per calendar date for the date-keyed rules, at
   * most once per minute for the notifications.
   */
  lemma {:induction false} FiresOncePerKey(l: Ledger, nows: seq<Instant>)
    requires Monotone(nows)
    ensures var fired := RunTicks(l, nows).fired;
            forall i, j, rule :: 0 <= i < j < |nows| && rule in fired[i] && rule in fired[j] ==>
              KeyFor(rule, nows[i]) != KeyFor(rule, nows[j])
    decreases |nows|
  {
    if nows != [] {
      var first := Tick(l, nows[0]);
      var run := RunTicks(l, nows);
      var rest := RunTicks(first.ledger, nows[1..]);
      assert run.fired[1..] == rest.fired;
      assert Monotone(nows[1..]);
      FiresOncePerKey(first.ledger, nows[1..]);
      forall i, j, rule | 0 <= i < j < |nows| && rule in run.fired[i] && rule in run.fired[j]
        ensures KeyFor(rule, nows[i]) != KeyFor(rule, nows[j])
      {
        assert run.fired[j] == rest.fired[j - 1];
        assert nows[1..][j - 1] == nows[j];
        if i == 0 {
          NoRefire(first.ledger, nows[1..], rule, nows[0]);
        } else {
          assert run.fired[i] == rest.fired[i - 1];
          assert nows[1..][i - 1] == nows[i];
        }
      }
    }
  }

  /**
   * With a clock that goes back, a date-keyed rule fires twice for the same
   * date: the ledger keeps only the last key.
   */
  lemma ClockBackRefires(l: Ledger)
    requires GetLastExecution(l, PollDeletion).None?
    ensures var nows := [Instant(10, 3, 0, 0), Instant(11, 4, 0, 0), Instant(10, 3, 0, 0)];
            var fired := RunTicks(l, nows).fired;
            && PollDeletion in fired[0] && PollDeletion in fired[2]
            && KeyFor(PollDeletion, nows[0]) == KeyFor(PollDeletion, nows[2])
  {
    var nows := [Instant(10, 3, 0, 0), Instant(11, 4, 0, 0), Instant(10, 3, 0, 0)];
    var t0 := Tick(l, nows[0]);
    var t1 := Tick(t0.ledger, nows[1]);
    var t2 := Tick(t1.ledger, nows[2]);
    assert PollDeletion in t0.fired;
    assert GetLastExecution(t1.ledger, PollDeletion) == Some(DateKey(11));
    assert PollDeletion in t2.fired;
    assert RunTicks(t1.ledger, [nows[2]]).fired == [t2.fired];
    assert RunTicks(t0.ledger, [nows[1], nows[2]]).fired == [t1.fired, t2.fired] by {
      assert [nows[1], nows[2]][1..] == [nows[2]];
    }
    assert RunTicks(l, nows).fired == [t0.fired, t1.fired, t2.fired] by {
      assert nows[1..] == [nows[1], nows[2]];
    }
  }

  // ======================== Running the actions ========================

  /** The catalogs the platform returns during a weekly update, and the lowercasing it applies. */
  datatype Env = Env(bossCatalog: seq<EventData>, siegeCatalog: seq<EventData>, lower: string -> string)

  /** The action behind each rule. */
  function Execute(rule: Rule, s: BotState, t: Transport, env: Env): (r: Step)
    ensures r.state.lastExecutions == s.lastExecutions
  {
    match rule
    case PollCreation => CreateDailyPoll(s, t)
    case PollDeletion => DeletePollMessages(s, t)
    case WeeklyUpdate => Actions.WeeklyUpdate(s, t, env.bossCatalog, env.siegeCatalog, env.lower)
    case BossEvent => SendNotification(s, t, Boss)
    case SiegeEvent => SendNotification(s, t, Siege)
  }

  /** Something that runs the action of a rule. */
  type Executor = (Rule, BotState, Transport) -> Step

  /** The bot's own actions. */
  function BotActions(env: Env): Executor
  {
    (rule: Rule, s: BotState, t: Transport) => Execute(rule, s, t, env)
  }

  /** An executor that neither reads nor writes the ledger. */
  ghost predicate LedgerBlind(exec: Executor)
  {
    forall rule, s: BotState, t, l :: exec(rule, s.(lastExecutions := l), t)
                                       == Step(exec(rule, s, t).state.(lastExecutions := l), exec(rule, s, t).transport)
  }

  /** The bot's actions never read the ledger, and leave it as it was. */
  lemma BotActionsLedgerBlind(env: Env)
    ensures LedgerBlind(BotActions(env))
  {
    forall rule, s: BotState, t, l
      ensures Execute(rule, s.(lastExecutions := l), t, env)
              == Step(Execute(rule, s, t, env).state.(lastExecutions := l), Execute(rule, s, t, env).transport)
    {
      ExecuteIgnoresLedger(rule, s, t, env, l);
    }
  }

  lemma ExecuteIgnoresLedger(rule: Rule, s: BotState, t: Transport, env: Env, l: Ledger)
    ensures var done := Execute(rule, s, t, env);
            Execute(rule, s.(lastExecutions := l), t, env) == Step(done.state.(lastExecutions := l), done.transport)
  {
    var s' := s.(lastExecutions := l);
    match rule {
      case PollCreation =>
      case PollDeletion =>
      case WeeklyUpdate =>
        var boss := UpdateBossMessages(s, t, env.bossCatalog, env.lower);
        var boss' := UpdateBossMessages(s', t, env.bossCatalog, env.lower);
        assert boss' == Step(boss.state.(lastExecutions := l), boss.transport);
      case BossEvent =>
        assert Notifications(s', Boss) == Notifications(s, Boss);
      case SiegeEvent =>
        assert Notifications(s', Siege) == Notifications(s, Siege);
    }
  }

  /** Run the actions of `rules` one after the other. */
  function ExecuteAll(exec: Executor, rules: seq<Rule>, s: BotState, t: Transport): Step
  {
    if rules == [] then Step(s, t)
    else
      var first := exec(rules[0], s, t);
      ExecuteAll(exec, rules[1..], first.state, first.transport)
  }

  /** One guarded rule of schedule_checker: run the action, then record the key. */
  function RunGuarded(exec: Executor, rule: Rule, key: Key, s: BotState, t: Transport): Step
  {
    if GetLastExecution(s.lastExecutions, rule) != Some(key) then
      var done := exec(rule, s, t);
      Step(done.state.(lastExecutions := UpdateLastExecution(done.state.lastExecutions, rule, key)), done.transport)
    else Step(s, t)
  }

  /** `schedule_checker` at `now`: the guarded rules of Tick, each action run before its key is recorded. */
  function ScheduleChecker(exec: Executor, s: BotState, t: Transport, now: Instant): Step
  {
    var afterCreation := if At(now, PollCreationSlot) then RunGuarded(exec, PollCreation, DateOf(now), s, t) else Step(s, t);
    var afterDeletion :=
      if At(now, PollDeletionSlot) then RunGuarded(exec, PollDeletion, DateOf(now), afterCreation.state, afterCreation.transport)
      else afterCreation;
    if now.weekday == WeeklyUpdateDay && At(now, WeeklyUpdateSlot) then
      RunGuarded(exec, WeeklyUpdate, DateOf(now), afterDeletion.state, afterDeletion.transport)
    else if now.weekday in [Saturday, Sunday] && At(now, BossNotificationSlot) then
      RunGuarded(exec, BossEvent, MinuteOf(now), afterDeletion.state, afterDeletion.transport)
    else if now.weekday == Sunday && At(now, SiegeNotificationSlot) then
      RunGuarded(exec, SiegeEvent, MinuteOf(now), afterDeletion.state, afterDeletion.transport)
    else afterDeletion
  }

  lemma {:induction false} ExecuteAllSnoc(exec: Executor, rules: seq<Rule>, rule: Rule, s: BotState, t: Transport)
    ensures var done := ExecuteAll(exec, rules, s, t);
            ExecuteAll(exec, rules + [rule], s, t) == exec(rule, done.state, done.transport)
    decreases |rules|
  {
    if rules == [] {
      assert [] + [rule] == [rule];
      assert [rule][1..] == [];
    } else {
      var first := exec(rules[0], s, t);
      assert (rules + [rule])[0] == rules[0];
      assert (rules + [rule])[1..] == rules[1..] + [rule];
      ExecuteAllSnoc(exec, rules[1..], rule, first.state, first.transport);
    }
  }

  /** `step` is where running the fired actions of `d` from (s0, t0) leads, with the ledger of `d`. */
  predicate Tracks(exec: Executor, step: Step, d: Decision, s0: BotState, t0: Transport)
  {
    var done := ExecuteAll(exec, d.fired, s0, t0);
    step == Step(done.state.(lastExecutions := d.ledger), done.transport)
  }

  /** A guarded rule of schedule_checker does to the state what Guard decides. */
  lemma GuardTracks(exec: Executor, rule: Rule, key: Key, step: Step, d: Decision, s0: BotState, t0: Transport)
    requires LedgerBlind(exec)
    requires Tracks(exec, step, d, s0, t0)
    ensures Tracks(exec, RunGuarded(exec, rule, key, step.state, step.transport), Guard(d, rule, key), s0, t0)
  {
    if GetLastExecution(d.ledger, rule) != Some(key) {
      var done := ExecuteAll(exec, d.fired, s0, t0);
      var next := exec(rule, done.state, done.transport);
      assert exec(rule, step.state, step.transport) == Step(next.state.(lastExecutions := d.ledger), next.transport);
      assert next.state.(lastExecutions := done.state.lastExecutions) == next.state by {
        assert exec(rule, done.state.(lastExecutions := done.state.lastExecutions), done.transport)
               == Step(next.state.(lastExecutions := done.state.lastExecutions), next.transport);
      }
      ExecuteAllSnoc(exec, d.fired, rule, s0, t0);
    }
  }

  /**
   * schedule_checker runs, in order, exactly the actions of the rules Tick
   * fires, and ends with Tick's ledger whatever the platform did: the
   * interleaved loop is the same as deciding first and acting afterwards.
   */
  lemma ScheduleCheckerRunsFired(exec: Executor, s: BotState, t: Transport, now: Instant)
    requires LedgerBlind(exec)
    ensures var d := Tick(s.lastExecutions, now);
            var done := ExecuteAll(exec, d.fired, s, t);
            ScheduleChecker(exec, s, t, now) == Step(done.state.(lastExecutions := d.ledger), done.transport)
  {
    var d0 := Decision([], s.lastExecutions);
    var step0 := Step(s, t);
    assert Tracks(exec, step0, d0, s, t);
    var d1 := if At(now, PollCreationSlot) then Guard(d0, PollCreation, DateOf(now)) else d0;
    var step1 := if At(now, PollCreationSlot) then RunGuarded(exec, PollCreation, DateOf(now), s, t) else step0;
    GuardTracks(exec, PollCreation, DateOf(now), step0, d0, s, t);
    var d2 := if At(now, PollDeletionSlot) then Guard(d1, PollDeletion, DateOf(now)) else d1;
    var step2 := if At(now, PollDeletionSlot) then RunGuarded(exec, PollDeletion, DateOf(now), step1.state, step1.transport) else step1;
    GuardTracks(exec, PollDeletion, DateOf(now), step1, d1, s, t);
    var d3, step3;
    if now.weekday == WeeklyUpdateDay && At(now, WeeklyUpdateSlot) {
      d3, step3 := Guard(d2, WeeklyUpdate, DateOf(now)), RunGuarded(exec, WeeklyUpdate, DateOf(now), step2.state, step2.transport);
      GuardTracks(exec, WeeklyUpdate, DateOf(now), step2, d2, s, t);
    } else if now.weekday in [Saturday, Sunday] && At(now, BossNotificationSlot) {
      d3, step3 := Guard(d2, BossEvent, MinuteOf(now)), RunGuarded(exec, BossEvent, MinuteOf(now), step2.state, step2.transport);
      GuardTracks(exec, BossEvent, MinuteOf(now), step2, d2, s, t);
    } else if now.weekday == Sunday && At(now, SiegeNotificationSlot) {
      d3, step3 := Guard(d2, SiegeEvent, MinuteOf(now)), RunGuarded(exec, SiegeEvent, MinuteOf(now), step2.state, step2.transport);
      GuardTracks(exec, SiegeEvent, MinuteOf(now), step2, d2, s, t);
    } else {
      d3, step3 := d2, step2;
    }
    assert Tracks(exec, step3, d3, s, t);
    assert Tick(s.lastExecutions, now) == d3;
    assert ScheduleChecker(exec, s, t, now) == step3;
  }

  /** The bot's schedule_checker: its ledger afterwards is Tick's, whatever its actions met on the platform. */
  lemma BotScheduleCheckerLedger(env: Env, s: BotState, t: Transport, now: Instant)
    ensures ScheduleChecker(BotActions(env), s, t, now).state.lastExecutions == Tick(s.lastExecutions, now).ledger
  {
    BotActionsLedgerBlind(env);
    ScheduleCheckerRunsFired(BotActions(env), s, t, now);
  }

  /** Every action keeps the slots holding only the bot's own messages. */
  lemma ExecuteKeepsSlotsOwn(rule: Rule, s: BotState, t: Transport, env: Env)
    requires SlotsWellFormed(s)
    ensures SlotsWellFormed(Execute(rule, s, t, env).state)
  {
    match rule {
      case PollCreation => CreateDailyPollKeepsSlotsOwn(s, t);
      case PollDeletion =>
      case WeeklyUpdate => WeeklyUpdateKeepsSlotsOwn(s, t, env.bossCatalog, env.siegeCatalog, env.lower);
      case BossEvent => SendNotificationKeepsSlotsOwn(s, t, Boss);
      case SiegeEvent => SendNotificationKeepsSlotsOwn(s, t, Siege);
    }
  }

  lemma {:induction false} ExecuteAllKeepsSlotsOwn(rules: seq<Rule>, s: BotState, t: Transport, env: Env)
    requires SlotsWellFormed(s)
    ensures SlotsWellFormed(ExecuteAll(BotActions(env), rules, s, t).state)
    decreases |rules|
  {
    if rules != [] {
      var first := Execute(rules[0], s, t, env);
      ExecuteKeepsSlotsOwn(rules[0], s, t, env);
      ExecuteAllKeepsSlotsOwn(rules[1..], first.state, first.transport, env);
    }
  }

  /** A tick of the bot keeps the slots holding only the bot's own messages. */
  lemma ScheduleCheckerKeepsSlotsOwn(env: Env, s: BotState, t: Transport, now: Instant)
    requires SlotsWellFormed(s)
    ensures SlotsWellFormed(ScheduleChecker(BotActions(env), s, t, now).state)
  {
    BotActionsLedgerBlind(env);
    ScheduleCheckerRunsFired(BotActions(env), s, t, now);
    ExecuteAllKeepsSlotsOwn(Tick(s.lastExecutions, now).fired, s, t, env);
  }
}
