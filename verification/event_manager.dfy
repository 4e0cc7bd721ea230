/**
 * EventManager (discord-bot_v2.py:148-224): links to scheduled events and the
 * weekday/keyword filter that selects the boss and siege events.
 */
module EventManager {

  import opened Wrappers
  import opened Strings
  import opened Seqs

  /** Python's `datetime.weekday()`: Monday is 0, Sunday is 6. */
  type Weekday = d: int | 0 <= d < 7

  const Saturday: Weekday := 5
  const Sunday: Weekday := 6

  /**
   * One entry of the catalog `get_all_events` builds: the event's name, the
   * weekday of its start time (`None` when the event has no start time) and
   * its link.
   */
  datatype EventData = EventData(id: nat, name: string, start: Option<Weekday>, link: string)

  const LinkPrefix := "https://discord.com/events/"

  /** `construct_event_link(guild_id, event_id)`. */
  function ConstructEventLink(guildId: nat, eventId: nat): (r: string)
    ensures IsPrefix(LinkPrefix, r)
    ensures IsAscii(r)
  {
    LinkPrefix + Decimal(guildId) + "/" + Decimal(eventId)
  }

  /** Reads the guild and event ids back out of a link. */
  function ParseEventLink(s: string): Option<(nat, nat)>
  {
    if !IsPrefix(LinkPrefix, s) then None
    else
      var rest := s[|LinkPrefix|..];
      match IndexOf(rest, '/')
      case None => None
      case Some(i) =>
        var g := rest[..i];
        var e := rest[i + 1..];
        if g != [] && e != [] && AllDigits(g) && AllDigits(e) then Some((ParseDecimal(g), ParseDecimal(e)))
        else None
  }

  lemma ParseEventLinkInverts(guildId: nat, eventId: nat)
    ensures ParseEventLink(ConstructEventLink(guildId, eventId)) == Some((guildId, eventId))
  {
    var g := Decimal(guildId);
    var e := Decimal(eventId);
    var s := ConstructEventLink(guildId, eventId);
    var rest := g + "/" + e;
    assert s[|LinkPrefix|..] == rest;
    assert '/' !in g;
    IndexOfAfter(g, e);
    assert rest[..|g|] == g;
    assert rest[|g| + 1..] == e;
    ParseDecimalInvertsDecimal(guildId);
    ParseDecimalInvertsDecimal(eventId);
  }

  /** Every link of a catalog built for a guild reads back as that guild and the event's id. */
  lemma LinksReadBack(guildId: nat, events: seq<EventData>)
    requires LinksBuilt(guildId, events)
    ensures forall i :: 0 <= i < |events| ==> ParseEventLink(Links(events)[i]) == Some((guildId, events[i].id))
  {
    forall i | 0 <= i < |events| ensures ParseEventLink(Links(events)[i]) == Some((guildId, events[i].id)) {
      assert events[i] in events;
      ParseEventLinkInverts(guildId, events[i].id);
    }
  }

  lemma {:induction false} IndexOfAfter(g: string, e: string)
    requires '/' !in g
    ensures IndexOf(g + "/" + e, '/') == Some(|g|)
  {
    if g != [] {
      assert (g + "/" + e)[1..] == g[1..] + "/" + e;
      IndexOfAfter(g[1..], e);
    }
  }

  /** Distinct (guild, event) pairs get distinct links. */
  lemma ConstructEventLinkInjective(g1: nat, e1: nat, g2: nat, e2: nat)
    ensures ConstructEventLink(g1, e1) == ConstructEventLink(g2, e2) ==> g1 == g2 && e1 == e2
  {
    ParseEventLinkInverts(g1, e1);
    ParseEventLinkInverts(g2, e2);
  }

  /**
   * The test of `filter_events_by_criteria` for one event: it has a start
   * time, that start falls on one of `weekdays`, and some keyword, lowered,
   * occurs in the lowered name.  `lower` stands for Python's `str.lower`.
   */
  predicate Matches(e: EventData, weekdays: seq<int>, keywords: seq<string>, lower: string -> string)
  {
    && e.start.Some?
    && e.start.value in weekdays
    && exists k :: k in keywords && Contains(lower(e.name), lower(k))
  }

  /** `filter_events_by_criteria(events, weekdays, keywords)`. */
  function FilterEventsByCriteria(events: seq<EventData>, weekdays: seq<int>, keywords: seq<string>,
                                  lower: string -> string): (r: seq<EventData>)
    ensures forall e :: e in r ==> e.start.Some? && e.start.value in weekdays
    ensures forall e :: e in r ==> exists k :: k in keywords && Contains(lower(e.name), lower(k))
    ensures forall e :: e in events && e.start.None? ==> e !in r
    ensures forall e :: e in events && Matches(e, weekdays, keywords, lower) ==> e in r
    ensures forall e :: multiset(r)[e] == if Matches(e, weekdays, keywords, lower) then multiset(events)[e] else 0
    ensures IsSubsequence(r, events)
  {
    Select(events, (e: EventData) => Matches(e, weekdays, keywords, lower))
  }

  /** `[e['link'] for e in events]`. */
  function Links(events: seq<EventData>): (r: seq<string>)
    ensures |r| == |events|
    ensures forall i :: 0 <= i < |events| ==> r[i] == events[i].link
  {
    seq(|events|, i requires 0 <= i < |events| => events[i].link)
  }

  /** The events of the catalog that start on weekday `d`. */
  function OnWeekday(events: seq<EventData>, d: Weekday): (r: seq<EventData>)
    ensures forall e :: multiset(r)[e] == if e.start == Some(d) then multiset(events)[e] else 0
    ensures forall e :: e in r <==> e in events && e.start == Some(d)
    ensures IsSubsequence(r, events)
  {
    Select(events, (e: EventData) => e.start == Some(d))
  }

  /** Every link of the catalog was built by `construct_event_link` for this guild. */
  ghost predicate LinksBuilt(guildId: nat, events: seq<EventData>)
  {
    forall e :: e in events ==> e.link == ConstructEventLink(guildId, e.id)
  }
}
