/** Shared vocabulary: bytes, timestamped chunks, the joined byte stream, and lists
    with one element taken out. */
module Bytes {

  type byte = x: int | 0 <= x < 256

  datatype Option<+T> = None | Some(value: T)

  /** Bytes delivered together, with the capture timestamp of the segment that carried them. */
  datatype Chunk = Chunk(ts: int, bytes: seq<byte>)

  /** The byte stream a list of chunks spells. */
  function Join(chunks: seq<Chunk>): seq<byte> {
    if chunks == [] then [] else Join(chunks[..|chunks| - 1]) + chunks[|chunks| - 1].bytes
  }

  lemma {:induction false} JoinNil()
    ensures Join([]) == []
  {
  }

  lemma {:induction false} JoinSnoc(chunks: seq<Chunk>, c: Chunk)
    ensures Join(chunks + [c]) == Join(chunks) + c.bytes
  {
    assert (chunks + [c])[..|chunks|] == chunks;
  }

  lemma {:induction false} JoinAppend(a: seq<Chunk>, b: seq<Chunk>)
    ensures Join(a + b) == Join(a) + Join(b)
  {
    if b == [] {
      assert a + b == a;
    } else {
      var n := |b| - 1;
      assert (a + b)[..|a + b| - 1] == a + b[..n];
      JoinAppend(a, b[..n]);
    }
  }

  function Removed<T>(s: seq<T>, i: nat): seq<T>
    requires i < |s|
  {
    s[..i] + s[i + 1..]
  }

  lemma {:induction false} RemovedLast<T>(s: seq<T>, i: nat)
    requires i < |s| - 1
    ensures Removed(s, i)[..|s| - 2] == Removed(s[..|s| - 1], i) && Removed(s, i)[|s| - 2] == s[|s| - 1]
  {
  }

  lemma {:induction false} RemovedBag<T>(s: seq<T>, i: nat)
    requires i < |s|
    ensures multiset(Removed(s, i)) == multiset(s) - multiset{s[i]}
  {
    assert s == s[..i] + ([s[i]] + s[i + 1..]);
    assert multiset(s) == multiset(s[..i]) + (multiset{s[i]} + multiset(s[i + 1..]));
  }
}
