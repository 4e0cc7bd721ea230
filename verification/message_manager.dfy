/**
 * MessageManager.delete_messages (discord-bot_v2.py:233-242): walk a copy of
 * the list, delete every non-None entry, and remove from the list only the
 * entries whose delete returned.  Entries whose delete raised stay.
 */
module MessageManager {

  import opened Wrappers
  import opened Seqs
  import opened Discord

  /** The delete requests issued for a list: one per non-None entry, in list order. */
  function DeleteCalls(xs: seq<Option<Msg>>): (r: seq<Call>)
    ensures |r| == SomeCount(xs)
  {
    if xs == [] then []
    else match xs[0]
      case None => DeleteCalls(xs[1..])
      case Some(m) => [DeleteCall(m.id)] + DeleteCalls(xs[1..])
  }

  function SomeCount(xs: seq<Option<Msg>>): nat
  {
    if xs == [] then 0 else (if xs[0].Some? then 1 else 0) + SomeCount(xs[1..])
  }

  function NoneCount(xs: seq<Option<Msg>>): (r: nat)
    ensures r + SomeCount(xs) == |xs|
  {
    if xs == [] then 0 else (if xs[0].None? then 1 else 0) + NoneCount(xs[1..])
  }

  /** How many entries of the list are a message with id `k`. */
  function IdCount(xs: seq<Option<Msg>>, k: MsgId): nat
  {
    if xs == [] then 0 else (if xs[0].Some? && xs[0].value.id == k then 1 else 0) + IdCount(xs[1..], k)
  }

  /** No two messages of the list share an id. */
  ghost predicate DistinctIds(xs: seq<Option<Msg>>)
  {
    forall i, j :: 0 <= i < j < |xs| && xs[i].Some? && xs[j].Some? ==> xs[i].value.id != xs[j].value.id
  }

  /**
   * Python's `messages.remove(msg)`: drop the first entry equal to `msg`.
   * Discord messages compare equal when their ids are equal.
   */
  function RemoveFirst(l: seq<Option<Msg>>, m: Msg): seq<Option<Msg>>
  {
    if l == [] then []
    else if l[0].Some? && l[0].value.id == m.id then l[1..]
    else [l[0]] + RemoveFirst(l[1..], m)
  }

  /** `remove` only takes entries out, and never a None entry. */
  lemma {:induction false} RemoveFirstShrinks(l: seq<Option<Msg>>, m: Msg)
    ensures forall x :: x in RemoveFirst(l, m) ==> x in l
    ensures NoneCount(RemoveFirst(l, m)) == NoneCount(l)
  {
    if l != [] {
      RemoveFirstShrinks(l[1..], m);
      if !(l[0].Some? && l[0].value.id == m.id) {
        assert RemoveFirst(l, m)[1..] == RemoveFirst(l[1..], m);
      }
    }
  }

  /** `remove` takes out one message with the id when there is one, and nothing else. */
  lemma {:induction false} RemoveFirstCounts(l: seq<Option<Msg>>, m: Msg)
    ensures IdCount(l, m.id) > 0 ==> |RemoveFirst(l, m)| == |l| - 1
    ensures forall k :: IdCount(RemoveFirst(l, m), k) == IdCount(l, k) - (if k == m.id && IdCount(l, k) > 0 then 1 else 0)
  {
    if l != [] && !(l[0].Some? && l[0].value.id == m.id) {
      RemoveFirstCounts(l[1..], m);
      var r := RemoveFirst(l, m);
      assert r == [l[0]] + RemoveFirst(l[1..], m);
      assert r[1..] == RemoveFirst(l[1..], m);
    }
  }

  datatype Deleted = Deleted(remaining: seq<Option<Msg>>, transport: Transport)

  /** The loop over `messages[:]`: `pending` is what the copy has left, `current` the list. */
  function DeleteFrom(pending: seq<Option<Msg>>, current: seq<Option<Msg>>, t: Transport): Deleted
    decreases |pending|
  {
    if pending == [] then Deleted(current, t)
    else match pending[0]
      case None => DeleteFrom(pending[1..], current, t)
      case Some(m) =>
        var (ok, t') := Delete(t, m);
        DeleteFrom(pending[1..], if ok then RemoveFirst(current, m) else current, t')
  }

  /** The loop issues one delete per non-None pending entry and sends nothing. */
  lemma {:induction false} DeleteFromTransport(pending: seq<Option<Msg>>, current: seq<Option<Msg>>, t: Transport)
    ensures DeleteFrom(pending, current, t).transport.deletes == Drop(t.deletes, SomeCount(pending))
    ensures DeleteFrom(pending, current, t).transport.sends == t.sends
    ensures DeleteFrom(pending, current, t).transport.log == t.log + DeleteCalls(pending)
    decreases |pending|
  {
    if pending != [] {
      match pending[0]
      case None =>
        DeleteFromTransport(pending[1..], current, t);
        assert DeleteCalls(pending) == DeleteCalls(pending[1..]);
      case Some(m) =>
        var (ok, t') := Delete(t, m);
        DeleteFromTransport(pending[1..], if ok then RemoveFirst(current, m) else current, t');
        DropDrop(t.deletes, SomeCount(pending[1..]));
        assert DeleteCalls(pending) == [DeleteCall(m.id)] + DeleteCalls(pending[1..]);
        Associative(t.log, [DeleteCall(m.id)], DeleteCalls(pending[1..]));
    }
  }

  lemma DropDrop<T>(s: seq<T>, k: nat)
    ensures Drop(Drop(s, 1), k) == Drop(s, k + 1)
  {
  }

  /** `delete_messages(messages)`: the list afterwards, and the transport after the requests. */
  function DeleteMessages(messages: seq<Option<Msg>>, t: Transport): (r: Deleted)
    ensures r.transport.deletes == Drop(t.deletes, SomeCount(messages))
    ensures r.transport.sends == t.sends
    ensures r.transport.log == t.log + DeleteCalls(messages)
  {
    DeleteFromTransport(messages, messages, t);
    DeleteFrom(messages, messages, t)
  }

  lemma {:induction false} DeleteFromShrinks(pending: seq<Option<Msg>>, current: seq<Option<Msg>>, t: Transport)
    ensures forall x :: x in DeleteFrom(pending, current, t).remaining ==> x in current
    ensures NoneCount(DeleteFrom(pending, current, t).remaining) == NoneCount(current)
    decreases |pending|
  {
    if pending != [] {
      match pending[0]
      case None =>
        DeleteFromShrinks(pending[1..], current, t);
      case Some(m) =>
        var (ok, t') := Delete(t, m);
        if ok {
          RemoveFirstShrinks(current, m);
          DeleteFromShrinks(pending[1..], RemoveFirst(current, m), t');
        } else {
          DeleteFromShrinks(pending[1..], current, t');
        }
    }
  }

  /**
   * delete_messages never adds an entry, and keeps every None entry: only
   * messages are ever deleted.
   */
  lemma DeleteMessagesShrinks(messages: seq<Option<Msg>>, t: Transport)
    ensures forall x :: x in DeleteMessages(messages, t).remaining ==> x in messages
    ensures NoneCount(DeleteMessages(messages, t).remaining) == NoneCount(messages)
  {
    DeleteFromShrinks(messages, messages, t);
  }

  /**
   * The reference reading of delete_messages: an entry survives exactly when
   * it is None or its own delete request failed.
   */
  function Survivors(xs: seq<Option<Msg>>, deletes: seq<bool>): seq<Option<Msg>>
  {
    if xs == [] then []
    else if xs[0].None? then [xs[0]] + Survivors(xs[1..], deletes)
    else
      var ok := |deletes| > 0 && deletes[0];
      (if ok then [] else [xs[0]]) + Survivors(xs[1..], Drop(deletes, 1))
  }

  /** No message of `s` has the id of a message of `p`. */
  ghost predicate IdsDisjoint(s: seq<Option<Msg>>, p: seq<Option<Msg>>)
  {
    forall i, j :: 0 <= i < |s| && 0 <= j < |p| && s[i].Some? && p[j].Some? ==> s[i].value.id != p[j].value.id
  }

  /** Removing by id skips a prefix that holds no message with that id. */
  lemma {:induction false} RemoveFirstSkips(s: seq<Option<Msg>>, rest: seq<Option<Msg>>, m: Msg)
    requires forall i :: 0 <= i < |s| && s[i].Some? ==> s[i].value.id != m.id
    ensures RemoveFirst(s + rest, m) == s + RemoveFirst(rest, m)
  {
    if s != [] {
      var l := s + rest;
      assert l[0] == s[0] && l[1..] == s[1..] + rest;
      assert s[0].None? || s[0].value.id != m.id;
      RemoveFirstSkips(s[1..], rest, m);
      calc {
        RemoveFirst(l, m);
        [s[0]] + RemoveFirst(s[1..] + rest, m);
        [s[0]] + (s[1..] + RemoveFirst(rest, m));
        { assert s == [s[0]] + s[1..]; }
        s + RemoveFirst(rest, m);
      }
    } else {
      assert s + rest == rest;
    }
  }

  lemma {:induction false} DeleteFromPositional(s: seq<Option<Msg>>, p: seq<Option<Msg>>, t: Transport)
    requires DistinctIds(p) && IdsDisjoint(s, p)
    ensures DeleteFrom(p, s + p, t).remaining == s + Survivors(p, t.deletes)
    decreases |p|
  {
    if p == [] {
      assert s + p == s;
    } else if p[0].None? || !Delete(t, p[0].value).0 {
      KeepFirst(s, p, t);
    } else {
      var m := p[0].value;
      var t' := Delete(t, m).1;
      assert forall i :: 0 <= i < |s| && s[i].Some? ==> s[i].value.id != m.id;
      RemoveFirstSkips(s, p, m);
      assert RemoveFirst(p, m) == p[1..];
      assert DeleteFrom(p, s + p, t) == DeleteFrom(p[1..], s + p[1..], t');
      assert Survivors(p, t.deletes) == Survivors(p[1..], t'.deletes);
      DeleteFromPositional(s, p[1..], t');
    }
  }

  /** The step of DeleteFromPositional where the first pending entry stays in the list. */
  lemma {:induction false} KeepFirst(s: seq<Option<Msg>>, p: seq<Option<Msg>>, t: Transport)
    requires DistinctIds(p) && IdsDisjoint(s, p)
    requires p != [] && (p[0].None? || !Delete(t, p[0].value).0)
    ensures DeleteFrom(p, s + p, t).remaining == s + Survivors(p, t.deletes)
    decreases |p|, 0
  {
    var s' := s + [p[0]];
    var t' := if p[0].None? then t else Delete(t, p[0].value).1;
    assert s + p == s' + p[1..];
    assert DeleteFrom(p, s + p, t) == DeleteFrom(p[1..], s' + p[1..], t');
    assert IdsDisjoint(s', p[1..]) by {
      forall i, j | 0 <= i < |s'| && 0 <= j < |p[1..]| && s'[i].Some? && p[1..][j].Some?
        ensures s'[i].value.id != p[1..][j].value.id
      {
        assert p[1..][j] == p[j + 1];
        if i == |s| {
          assert s'[i] == p[0];
        } else {
          assert s'[i] == s[i];
        }
      }
    }
    DeleteFromPositional(s', p[1..], t');
    calc {
      s + Survivors(p, t.deletes);
      s + ([p[0]] + Survivors(p[1..], t'.deletes));
      s' + Survivors(p[1..], t'.deletes);
    }
  }

  /**
   * When the ids in the list are distinct (Discord ids are unique), the list
   * after delete_messages is the original minus exactly the entries whose
   * delete succeeded, in the original order.
   */
  lemma DeleteMessagesKeepsSurvivors(messages: seq<Option<Msg>>, t: Transport)
    requires DistinctIds(messages)
    ensures DeleteMessages(messages, t).remaining == Survivors(messages, t.deletes)
  {
    var none: seq<Option<Msg>> := [];
    assert none + messages == messages;
    assert IdsDisjoint(none, messages);
    DeleteFromPositional(none, messages, t);
    assert none + Survivors(messages, t.deletes) == Survivors(messages, t.deletes);
  }

  lemma {:induction false} DeleteFromLength(p: seq<Option<Msg>>, c: seq<Option<Msg>>, t: Transport)
    requires forall k :: IdCount(p, k) <= IdCount(c, k)
    ensures |DeleteFrom(p, c, t).remaining| == |c| - (|p| - |Survivors(p, t.deletes)|)
    decreases |p|
  {
    if p != [] {
      assert forall k :: IdCount(p, k) == (if p[0].Some? && p[0].value.id == k then 1 else 0) + IdCount(p[1..], k);
      if p[0].None? {
        DeleteFromLength(p[1..], c, t);
      } else {
        var m := p[0].value;
        var (ok, t') := Delete(t, m);
        if ok {
          assert IdCount(p, m.id) > 0;
          RemoveFirstCounts(c, m);
          DeleteFromLength(p[1..], RemoveFirst(c, m), t');
        } else {
          DeleteFromLength(p[1..], c, t');
        }
      }
    }
  }

  /**
   * Whatever the ids, every delete that succeeds removes exactly one entry
   * from the list: the list shrinks by the number of successful deletes.
   */
  lemma DeleteMessagesLength(messages: seq<Option<Msg>>, t: Transport)
    ensures |DeleteMessages(messages, t).remaining| == |Survivors(messages, t.deletes)|
  {
    DeleteFromLength(messages, messages, t);
  }

  /** The first `n` delete requests all succeed. */
  predicate AllDeleted(deletes: seq<bool>, n: nat)
  {
    n <= |deletes| && forall k :: 0 <= k < n ==> deletes[k]
  }

  /** When every delete succeeds, only the None entries survive. */
  lemma {:induction false} SurvivorsAllDeleted(xs: seq<Option<Msg>>, deletes: seq<bool>)
    requires AllDeleted(deletes, SomeCount(xs))
    ensures |Survivors(xs, deletes)| == NoneCount(xs)
    decreases |xs|
  {
    if xs != [] {
      if xs[0].None? {
        SurvivorsAllDeleted(xs[1..], deletes);
      } else {
        assert AllDeleted(Drop(deletes, 1), SomeCount(xs[1..])) by {
          forall k | 0 <= k < SomeCount(xs[1..]) ensures Drop(deletes, 1)[k] {
            assert Drop(deletes, 1)[k] == deletes[k + 1];
          }
        }
        SurvivorsAllDeleted(xs[1..], Drop(deletes, 1));
      }
    }
  }

  /** Every message of the list gets a delete request. */
  lemma {:induction false} DeleteCallsCover(xs: seq<Option<Msg>>)
    ensures forall i :: 0 <= i < |xs| && xs[i].Some? ==> DeleteCall(xs[i].value.id) in DeleteCalls(xs)
    decreases |xs|
  {
    if xs != [] {
      DeleteCallsCover(xs[1..]);
      forall i | 1 <= i < |xs| && xs[i].Some?
        ensures DeleteCall(xs[i].value.id) in DeleteCalls(xs)
      {
        assert xs[1..][i - 1] == xs[i];
      }
    }
  }

  /** Consuming outcomes from a stream of successes leaves successes. */
  lemma AllDeletedDrop(deletes: seq<bool>, j: nat, n: nat)
    requires AllDeleted(deletes, j + n)
    ensures AllDeleted(Drop(deletes, j), n)
  {
    forall k | 0 <= k < n ensures Drop(deletes, j)[k] {
      assert Drop(deletes, j)[k] == deletes[j + k];
    }
  }
}
