/**
 * The messaging platform, seen only through what the bot asks of it.
 * A message is reduced to the facts the bot reads back: its id, whether
 * the bot wrote it, whether it is a poll, and its text.  The transport is
 * an oracle: the outcome of each delete and each send is read, in call
 * order, from a prescribed sequence, and every call is appended to a log.
 */
module Discord {

  import opened Wrappers

  type MsgId = nat

  datatype Msg = Msg(id: MsgId, fromSelf: bool, isPoll: bool, content: string)

  /** The three configured channels (CHANNEL_ID_DP, CHANNEL_ID_BOSS, CHANNEL_ID_SIEGE). */
  datatype Channel = DpChannel | BossChannel | SiegeChannel

  /** A request issued to the platform. */
  datatype Call = DeleteCall(id: MsgId) | SendCall(channel: Channel, content: string) | PollCall(channel: Channel)

  /**
   * `deletes[k]` is whether the k-th delete request succeeds; `sends[k]` is
   * the id the platform gives the k-th created message, or `None` when the
   * send fails (a missing channel or a platform error).  An exhausted
   * sequence reads as failure.
   */
  datatype Transport = Transport(deletes: seq<bool>, sends: seq<Option<MsgId>>, log: seq<Call>)

  /** The outcomes left after `k` have been consumed. */
  function Drop<T>(s: seq<T>, k: nat): (r: seq<T>)
    ensures |r| == if k <= |s| then |s| - k else 0
  {
    if k <= |s| then s[k..] else []
  }

  /** The next send outcome. */
  function NextSend(t: Transport): Option<MsgId>
  {
    if |t.sends| > 0 then t.sends[0] else None
  }

  /** `await msg.delete()`: true when it returned, false when it raised. */
  function Delete(t: Transport, m: Msg): (r: (bool, Transport))
    ensures r.0 <==> |t.deletes| > 0 && t.deletes[0]
    ensures r.1 == Transport(Drop(t.deletes, 1), t.sends, t.log + [DeleteCall(m.id)])
  {
    (|t.deletes| > 0 && t.deletes[0], Transport(Drop(t.deletes, 1), t.sends, t.log + [DeleteCall(m.id)]))
  }

  /** `channel.send(content)`: the created message, authored by the bot. */
  function Send(t: Transport, ch: Channel, content: string): (r: (Option<Msg>, Transport))
    ensures r.0.Some? <==> NextSend(t).Some?
    ensures r.0.Some? ==> r.0.value == Msg(NextSend(t).value, true, false, content)
    ensures r.1 == Transport(t.deletes, Drop(t.sends, 1), t.log + [SendCall(ch, content)])
  {
    var m := match NextSend(t)
      case None => None
      case Some(id) => Some(Msg(id, true, false, content));
    (m, Transport(t.deletes, Drop(t.sends, 1), t.log + [SendCall(ch, content)]))
  }

  /** `channel.send(poll=poll)`: a poll message; its text content is empty. */
  function SendPoll(t: Transport, ch: Channel): (r: (Option<Msg>, Transport))
    ensures r.0.Some? <==> NextSend(t).Some?
    ensures r.0.Some? ==> r.0.value == Msg(NextSend(t).value, true, true, "")
    ensures r.1 == Transport(t.deletes, Drop(t.sends, 1), t.log + [PollCall(ch)])
  {
    var m := match NextSend(t)
      case None => None
      case Some(id) => Some(Msg(id, true, true, ""));
    (m, Transport(t.deletes, Drop(t.sends, 1), t.log + [PollCall(ch)]))
  }
}
