/**
 * The one piece of pure logic in the command handlers: the event listing
 * is split for the platform's message size limit (discord-bot_v2.py:632-633).
 */
module Commands {

  /** The chunk length the listing is cut into. */
  const ChunkSize: nat := 1900

  /** `[s[i:i+1900] for i in range(0, len(s), 1900)]`. */
  function SplitEvery(s: string): (r: seq<string>)
    ensures forall k :: 0 <= k < |r| ==> 0 < |r[k]| <= ChunkSize
    decreases |s|
  {
    if s == [] then []
    else if |s| <= ChunkSize then [s]
    else [s[..ChunkSize]] + SplitEvery(s[ChunkSize..])
  }

  /** What `list_events` sends: the whole text when it fits, its chunks otherwise. */
  function Chunks(s: string): (r: seq<string>)
    ensures |s| <= ChunkSize ==> r == [s]
    ensures forall k :: 0 <= k < |r| ==> |r[k]| <= ChunkSize
  {
    if |s| > ChunkSize then SplitEvery(s) else [s]
  }

  /** The concatenation of a sequence of strings. */
  function Concat(parts: seq<string>): string
    decreases |parts|
  {
    if parts == [] then "" else parts[0] + Concat(parts[1..])
  }

  /** The chunks put back together are the listing. */
  lemma {:induction false} SplitEveryConcat(s: string)
    ensures Concat(SplitEvery(s)) == s
    decreases |s|
  {
    if |s| > ChunkSize {
      SplitEveryConcat(s[ChunkSize..]);
      assert ([s[..ChunkSize]] + SplitEvery(s[ChunkSize..]))[1..] == SplitEvery(s[ChunkSize..]);
      assert s[..ChunkSize] + s[ChunkSize..] == s;
    } else if s != [] {
      assert [s][1..] == [];
      assert s + "" == s;
    }
  }

  /**
   * The k-th chunk is the slice starting at k * 1900, and there are
   * ceil(len / 1900) of them: the comprehension over range(0, len, 1900).
   */
  lemma {:induction false} SplitEverySlices(s: string)
    ensures |SplitEvery(s)| == (|s| + ChunkSize - 1) / ChunkSize
    ensures forall k :: 0 <= k < |SplitEvery(s)| ==>
              k * ChunkSize < |s| &&
              SplitEvery(s)[k] == s[k * ChunkSize .. if (k + 1) * ChunkSize <= |s| then (k + 1) * ChunkSize else |s|]
    decreases |s|
  {
    if |s| > ChunkSize {
      var rest := s[ChunkSize..];
      SplitEverySlices(rest);
      var r := SplitEvery(s);
      forall k | 1 <= k < |r|
        ensures k * ChunkSize < |s|
        ensures r[k] == s[k * ChunkSize .. if (k + 1) * ChunkSize <= |s| then (k + 1) * ChunkSize else |s|]
      {
        assert r[k] == SplitEvery(rest)[k - 1];
        assert (k - 1) * ChunkSize + ChunkSize == k * ChunkSize;
        assert k * ChunkSize + ChunkSize == (k + 1) * ChunkSize;
      }
    }
  }

  /** Every chunk but the last is exactly 1900 characters long. */
  lemma SplitEveryFull(s: string)
    ensures forall k :: 0 <= k < |SplitEvery(s)| - 1 ==> |SplitEvery(s)[k]| == ChunkSize
  {
    SplitEverySlices(s);
    var r := SplitEvery(s);
    forall k | 0 <= k < |r| - 1 ensures |r[k]| == ChunkSize {
      assert (k + 1) * ChunkSize < |s| by {
        assert r[k + 1] == s[(k + 1) * ChunkSize .. if (k + 2) * ChunkSize <= |s| then (k + 2) * ChunkSize else |s|];
      }
    }
  }

  /** Whatever is sent, put back together, is the listing. */
  lemma ChunksConcat(s: string)
    ensures Concat(Chunks(s)) == s
  {
    if |s| > ChunkSize {
      SplitEveryConcat(s);
    } else {
      assert [s][1..] == [];
      assert s + "" == s;
    }
  }
}
