/** The "full chunks of nine, then one remainder chunk" slicing that
    generateFreeDrivingLog.py writes out before every `apply_batch_sync`
    pass, stated once for any element type. */
module Chunking {

  /** Commands per `apply_batch_sync` call; more at once crashes the server. */
  const ChunkSize: nat := 9

  /** The elements of the chunks, in order. */
  function Flatten<T>(ss: seq<seq<T>>): seq<T>
  {
    if ss == [] then [] else Flatten(ss[..|ss| - 1]) + ss[|ss| - 1]
  }

  /** Element-wise application of `f`, one element appended at a time. */
  function Map<A, B>(f: A -> B, xs: seq<A>): (ys: seq<B>)
    ensures |ys| == |xs|
  {
    if xs == [] then [] else Map(f, xs[..|xs| - 1]) + [f(xs[|xs| - 1])]
  }

  lemma MapSnoc<A, B>(f: A -> B, xs: seq<A>, x: A)
    ensures Map(f, xs + [x]) == Map(f, xs) + [f(x)]
  {
    assert (xs + [x])[..|xs|] == xs;
  }

  lemma {:induction false} MapIndex<A, B>(f: A -> B, xs: seq<A>, k: nat)
    requires k < |xs|
    ensures Map(f, xs)[k] == f(xs[k])
  {
    if k < |xs| - 1 {
      MapIndex(f, xs[..|xs| - 1], k);
    }
  }

  lemma {:induction false} MapConcat<A, B>(f: A -> B, xs: seq<A>, ys: seq<A>)
    ensures Map(f, xs + ys) == Map(f, xs) + Map(f, ys)
    decreases |ys|
  {
    if ys != [] {
      var n := |ys| - 1;
      assert (xs + ys)[..|xs + ys| - 1] == xs + ys[..n];
      assert (xs + ys)[|xs + ys| - 1] == ys[n];
      assert Map(f, ys) == Map(f, ys[..n]) + [f(ys[n])];
      MapConcat(f, xs, ys[..n]);
    } else {
      assert xs + ys == xs;
    }
  }

  /** Mapping commutes with slicing. */
  lemma MapSlice<A, B>(f: A -> B, xs: seq<A>, a: nat, b: nat)
    requires a <= b <= |xs|
    ensures Map(f, xs)[a..b] == Map(f, xs[a..b])
  {
    var ys, zs := Map(f, xs)[a..b], Map(f, xs[a..b]);
    forall k | 0 <= k < b - a
      ensures ys[k] == zs[k]
    {
      MapIndex(f, xs, a + k);
      MapIndex(f, xs[a..b], k);
    }
  }

  /** The slices the source submits: `numFullChunks = len // 9` slices of
      nine, then the `len % 9` leftovers when there are any. */
  function Chunks<T>(xs: seq<T>): (r: seq<seq<T>>)
    ensures |r| == |xs| / ChunkSize + (if |xs| % ChunkSize > 0 then 1 else 0)
  {
    var numFullChunks := |xs| / ChunkSize;
    var chunkRemainder := |xs| % ChunkSize;
    seq(numFullChunks, i requires 0 <= i < numFullChunks =>
          xs[ChunkSize * i .. ChunkSize * i + ChunkSize])
    + (if chunkRemainder > 0
       then [xs[ChunkSize * numFullChunks .. ChunkSize * numFullChunks + chunkRemainder]]
       else [])
  }

  /** No chunk is empty or longer than nine; all but the last hold nine. */
  lemma ChunkLengths<T>(xs: seq<T>)
    ensures |xs| == 0 <==> Chunks(xs) == []
    ensures forall k :: 0 <= k < |Chunks(xs)| ==> 0 < |Chunks(xs)[k]| <= ChunkSize
    ensures forall k :: 0 <= k < |Chunks(xs)| - 1 ==> |Chunks(xs)[k]| == ChunkSize
    ensures forall k :: 0 <= k < |xs| / ChunkSize ==> |Chunks(xs)[k]| == ChunkSize
  {
  }

  lemma FlattenAppend<T>(ss: seq<seq<T>>, s: seq<T>)
    ensures Flatten(ss + [s]) == Flatten(ss) + s
  {
    assert (ss + [s])[..|ss|] == ss;
  }

  /** The first `k` full chunks cover exactly the first `9k` elements. */
  lemma {:induction false} FlattenFullChunks<T>(xs: seq<T>, k: nat)
    requires k <= |xs| / ChunkSize
    ensures Flatten(Chunks(xs)[..k]) == xs[..ChunkSize * k]
  {
    if k > 0 {
      var c := Chunks(xs);
      assert c[..k] == c[..k - 1] + [c[k - 1]];
      FlattenAppend(c[..k - 1], c[k - 1]);
      FlattenFullChunks(xs, k - 1);
      assert xs[..ChunkSize * k] == xs[..ChunkSize * (k - 1)] + c[k - 1];
    }
  }

  /** The chunks concatenate back to exactly the input, in order. */
  lemma ChunksConcatenate<T>(xs: seq<T>)
    ensures Flatten(Chunks(xs)) == xs
  {
    var c := Chunks(xs);
    var numFullChunks := |xs| / ChunkSize;
    FlattenFullChunks(xs, numFullChunks);
    if |xs| % ChunkSize > 0 {
      assert c == c[..numFullChunks] + [c[numFullChunks]];
      FlattenAppend(c[..numFullChunks], c[numFullChunks]);
    } else {
      assert c == c[..numFullChunks];
    }
  }

  /** Slicing commutes with building one command per element: chunking the
      commands gives, chunk by chunk, the commands of the chunked elements. */
  lemma ChunksOfMap<A, B>(f: A -> B, xs: seq<A>)
    ensures |Chunks(Map(f, xs))| == |Chunks(xs)|
    ensures forall k :: 0 <= k < |Chunks(xs)| ==> Chunks(Map(f, xs))[k] == Map(f, Chunks(xs)[k])
  {
    var c, d := Chunks(xs), Chunks(Map(f, xs));
    forall k | 0 <= k < |c| ensures d[k] == Map(f, c[k]) {
      if k < |xs| / ChunkSize {
        MapSlice(f, xs, ChunkSize * k, ChunkSize * k + ChunkSize);
      } else {
        MapSlice(f, xs, ChunkSize * k, |xs|);
      }
    }
  }

  /** Flattening distributes over concatenation. */
  lemma {:induction false} FlattenConcat<T>(ss: seq<seq<T>>, tt: seq<seq<T>>)
    ensures Flatten(ss + tt) == Flatten(ss) + Flatten(tt)
    decreases |tt|
  {
    if tt == [] {
      assert ss + tt == ss;
    } else {
      var last := tt[|tt| - 1];
      var init := tt[..|tt| - 1];
      assert ss + tt == (ss + init) + [last];
      assert tt == init + [last];
      FlattenAppend(ss + init, last);
      FlattenAppend(init, last);
      FlattenConcat(ss, init);
    }
  }

  /** The chunks before chunk `c` flatten to a prefix of the whole. */
  lemma {:induction false} FlattenPrefix<T>(ss: seq<seq<T>>, c: nat)
    requires c < |ss|
    ensures Flatten(ss[..c + 1]) == Flatten(ss[..c]) + ss[c]
    ensures Flatten(ss[..c + 1]) <= Flatten(ss)
  {
    assert ss[..c + 1] == ss[..c] + [ss[c]];
    FlattenAppend(ss[..c], ss[c]);
    assert ss == ss[..c + 1] + ss[c + 1..];
    FlattenConcat(ss[..c + 1], ss[c + 1..]);
  }

  /** Chunks that all hold nine elements flatten to nine per chunk. */
  lemma {:induction false} FlattenFull<T>(ss: seq<seq<T>>, c: nat)
    requires c <= |ss|
    requires forall k :: 0 <= k < c ==> |ss[k]| == ChunkSize
    ensures |Flatten(ss[..c])| == ChunkSize * c
  {
    if c > 0 {
      FlattenPrefix(ss, c - 1);
      FlattenFull(ss, c - 1);
    }
  }

  /** Two chunk lists with the same chunk lengths flatten to the same length. */
  lemma {:induction false} FlattenSameShape<T, U>(ss: seq<seq<T>>, tt: seq<seq<U>>)
    requires |ss| == |tt|
    requires forall k :: 0 <= k < |ss| ==> |ss[k]| == |tt[k]|
    ensures |Flatten(ss)| == |Flatten(tt)|
  {
    if ss != [] {
      FlattenSameShape(ss[..|ss| - 1], tt[..|tt| - 1]);
    }
  }

  /** Element k of the input sits at position k mod 9 of chunk k div 9. */
  lemma ChunkElement<T>(xs: seq<T>, k: nat)
    requires k < |xs|
    ensures k / ChunkSize < |Chunks(xs)| && k % ChunkSize < |Chunks(xs)[k / ChunkSize]|
    ensures Chunks(xs)[k / ChunkSize][k % ChunkSize] == xs[k]
  {
    var c := k / ChunkSize;
    if c < |xs| / ChunkSize {
      assert Chunks(xs)[c] == xs[ChunkSize * c .. ChunkSize * c + ChunkSize];
    } else {
      assert Chunks(xs)[c] == xs[ChunkSize * c .. |xs|];
    }
  }

  /** Chunk lists shaped like `Chunks`' output (full chunks, then at most
      nine) are indexed the same way once flattened. */
  lemma {:induction false} FlattenIndex<T>(ss: seq<seq<T>>, k: nat)
    requires forall c :: 0 <= c < |ss| ==> |ss[c]| <= ChunkSize
    requires forall c :: 0 <= c < |ss| - 1 ==> |ss[c]| == ChunkSize
    requires k < |Flatten(ss)|
    ensures k / ChunkSize < |ss| && k % ChunkSize < |ss[k / ChunkSize]|
    ensures Flatten(ss)[k] == ss[k / ChunkSize][k % ChunkSize]
  {
    var n := |ss|;
    var init := ss[..n - 1];
    FlattenFull(ss, n - 1);
    assert Flatten(ss) == Flatten(init) + ss[n - 1];
    if k < ChunkSize * (n - 1) {
      FlattenIndex(init, k);
    }
  }

  /** `ceil(m / 9)`: the number of `apply_batch_sync` calls for `m` commands. */
  function Calls(m: nat): nat
  {
    (m + ChunkSize - 1) / ChunkSize
  }

  /** The chunker makes `ceil(|xs| / 9)` slices. */
  lemma ChunkCount<T>(xs: seq<T>)
    ensures |Chunks(xs)| == Calls(|xs|)
  {
    var n := |xs|;
    assert n == ChunkSize * (n / ChunkSize) + n % ChunkSize;
  }

  /** Position r of chunk c holds input element `9c + r`. */
  lemma ChunkPosition<T>(xs: seq<T>, c: nat, r: nat)
    requires c < |Chunks(xs)| && r < |Chunks(xs)[c]|
    ensures ChunkSize * c + r < |xs| && Chunks(xs)[c][r] == xs[ChunkSize * c + r]
  {
    if c < |xs| / ChunkSize {
      assert Chunks(xs)[c] == xs[ChunkSize * c .. ChunkSize * c + ChunkSize];
    } else {
      assert Chunks(xs)[c] == xs[ChunkSize * c .. |xs|];
    }
  }
}
