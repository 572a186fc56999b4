/** The in-order release of output chunks inside AppendOutputChunk. */
module ReorderBuffer {

  /** protocol.OutputChunkPayload */
  datatype Chunk = Chunk(request: string, stream: string, data: string, num: int, final: bool, exitCode: int)

  datatype Buffer = Buffer(next: nat, pending: map<int, Chunk>)

  const EMPTY := Buffer(1, map[])

  /** A chunk without a positive number takes the next one. */
  function Numbered(b: Buffer, c: Chunk): Chunk {
    if c.num <= 0 then c.(num := b.next) else c
  }

  /** Keep the first chunk that arrived under a number. */
  function Place(b: Buffer, c: Chunk): Buffer {
    if c.num in b.pending then b else b.(pending := b.pending[c.num := c])
  }

  /** Release chunks while the next number is there. */
  function Drain(b: Buffer): (r: (Buffer, seq<Chunk>))
    decreases |b.pending|
  {
    if b.next !in b.pending then (b, [])
    else
      var rest := b.pending - {b.next};
      assert rest.Keys == b.pending.Keys - {b.next} && |rest| == |rest.Keys| && |b.pending| == |b.pending.Keys|;
      var drained := Drain(Buffer(b.next + 1, rest));
      (drained.0, [b.pending[b.next]] + drained.1)
  }

  /** AppendOutputChunk without the event log: a late number is dropped. */
  function Accept(b: Buffer, chunk: Chunk): (Buffer, seq<Chunk>) {
    var c := Numbered(b, chunk);
    if c.num < b.next then (b, []) else Drain(Place(b, c))
  }

  // ---- whole histories of arrivals ----

  /** The buffer, the numbers the arrivals were taken under and everything released, after some arrivals. */
  datatype Fed = Fed(buffer: Buffer, arrived: seq<Chunk>, emitted: seq<Chunk>)

  function Feed(chunks: seq<Chunk>): Fed {
    if chunks == [] then Fed(EMPTY, [], [])
    else
      var before := Feed(chunks[..|chunks| - 1]);
      var c := chunks[|chunks| - 1];
      var (b, out) := Accept(before.buffer, c);
      Fed(b, before.arrived + [Numbered(before.buffer, c)], before.emitted + out)
  }

  /** The first arrival under each number. */
  function Firsts(arrived: seq<Chunk>): map<int, Chunk> {
    if arrived == [] then map[]
    else
      var m := Firsts(arrived[..|arrived| - 1]);
      var c := arrived[|arrived| - 1];
      if c.num in m then m else m[c.num := c]
  }

  ghost predicate FirstAt(arrived: seq<Chunk>, i: nat) {
    i < |arrived| && forall k :: 0 <= k < i ==> arrived[k].num != arrived[i].num
  }

  lemma {:induction false} FirstsAre(arrived: seq<Chunk>, n: int)
    ensures n in Firsts(arrived) <==> exists i :: 0 <= i < |arrived| && arrived[i].num == n
    ensures n in Firsts(arrived) ==> exists i: nat :: FirstAt(arrived, i) && arrived[i] == Firsts(arrived)[n] && arrived[i].num == n
  {
    if arrived != [] {
      var front, last := arrived[..|arrived| - 1], |arrived| - 1;
      FirstsAre(front, n);
      if n in Firsts(front) {
        var i: nat :| FirstAt(front, i) && front[i] == Firsts(front)[n] && front[i].num == n;
        assert FirstAt(arrived, i) && arrived[i] == front[i];
      } else if arrived[last].num == n {
        assert FirstAt(arrived, last) by {
          forall k | 0 <= k < last ensures arrived[k].num != n { assert arrived[k] == front[k]; }
        }
      }
    }
  }

  /** With `m` the first arrivals: the numbers below `next` are released in order, the others are pending. */
  ghost predicate Settled(b: Buffer, emitted: seq<Chunk>, m: map<int, Chunk>) {
    && b.next == |emitted| + 1
    && b.next !in m
    && (forall n :: n in m ==> n >= 1 && m[n].num == n)
    && (forall n :: 1 <= n < b.next ==> n in m && emitted[n - 1] == m[n])
    && (forall n :: n in b.pending <==> n in m && n >= b.next)
    && (forall n :: n in b.pending ==> b.pending[n] == m[n])
  }

  /** Draining releases the pending chunks from `next` on, up to the first hole. */
  lemma {:induction false} DrainReleases(b: Buffer)
    ensures Drain(b).0.next == b.next + |Drain(b).1| && Drain(b).0.next !in b.pending
    ensures forall n :: b.next <= n < Drain(b).0.next ==> n in b.pending && Drain(b).1[n - b.next] == b.pending[n]
    ensures Drain(b).0.pending == map n | n in b.pending && !(b.next <= n < Drain(b).0.next) :: b.pending[n]
    decreases |b.pending|
  {
    if b.next in b.pending {
      var rest := Buffer(b.next + 1, b.pending - {b.next});
      assert rest.pending.Keys == b.pending.Keys - {b.next};
      assert |rest.pending| == |rest.pending.Keys| && |b.pending| == |b.pending.Keys|;
      DrainReleases(rest);
      assert Drain(b).0 == Drain(rest).0 && Drain(b).1 == [b.pending[b.next]] + Drain(rest).1;
      forall n | b.next <= n < Drain(b).0.next ensures n in b.pending && Drain(b).1[n - b.next] == b.pending[n] {
        if n > b.next { assert n in rest.pending && Drain(rest).1[n - rest.next] == rest.pending[n]; }
      }
    } else {
      assert (map n | n in b.pending && !(b.next <= n < b.next) :: b.pending[n]) == b.pending;
    }
  }

  lemma {:induction false} AcceptSettles(b: Buffer, emitted: seq<Chunk>, m: map<int, Chunk>, chunk: Chunk)
    requires Settled(b, emitted, m)
    ensures var c := Numbered(b, chunk);
            Settled(Accept(b, chunk).0, emitted + Accept(b, chunk).1, if c.num in m then m else m[c.num := c])
  {
    var c := Numbered(b, chunk);
    if c.num < b.next {
      assert emitted + Accept(b, chunk).1 == emitted;
    } else {
      DrainSettles(Place(b, c), emitted, if c.num in m then m else m[c.num := c]);
    }
  }

  lemma {:induction false} DrainSettles(b: Buffer, emitted: seq<Chunk>, m: map<int, Chunk>)
    requires b.next == |emitted| + 1
    requires forall n :: n in m ==> n >= 1 && m[n].num == n
    requires forall n :: 1 <= n < b.next ==> n in m && emitted[n - 1] == m[n]
    requires forall n :: n in b.pending <==> n in m && n >= b.next
    requires forall n :: n in b.pending ==> b.pending[n] == m[n]
    ensures Settled(Drain(b).0, emitted + Drain(b).1, m)
  {
    DrainReleases(b);
    var next, out := Drain(b).0.next, Drain(b).1;
    forall n | 1 <= n < next ensures n in m && (emitted + out)[n - 1] == m[n] {
      if n >= b.next { assert (emitted + out)[n - 1] == out[n - b.next]; }
    }
  }

  lemma {:induction false} FeedSettles(chunks: seq<Chunk>)
    ensures Settled(Feed(chunks).buffer, Feed(chunks).emitted, Firsts(Feed(chunks).arrived))
  {
    if chunks != [] {
      var before, c := Feed(chunks[..|chunks| - 1]), chunks[|chunks| - 1];
      FeedSettles(chunks[..|chunks| - 1]);
      AcceptSettles(before.buffer, before.emitted, Firsts(before.arrived), c);
      var arrived := before.arrived + [Numbered(before.buffer, c)];
      assert arrived[..|arrived| - 1] == before.arrived;
    }
  }

  /** For every order of arrival, with repeats and holes: what was released is exactly the numbers 1..k in order,
      each with its first arrival, where k is the largest number such that all of 1..k have arrived. */
  lemma {:induction false} ReleasesTheArrivedPrefix(chunks: seq<Chunk>, j: nat)
    ensures var f := Feed(chunks);
            && (j < |f.emitted| ==> exists i: nat :: FirstAt(f.arrived, i) && f.arrived[i] == f.emitted[j] && f.arrived[i].num == j + 1)
            && (forall i :: 0 <= i < |f.arrived| ==> f.arrived[i].num != |f.emitted| + 1)
  {
    FeedSettles(chunks);
    FirstsAre(Feed(chunks).arrived, j + 1);
    NextIsMissing(chunks);
  }

  lemma {:induction false} NextIsMissing(chunks: seq<Chunk>)
    ensures var f := Feed(chunks); forall i :: 0 <= i < |f.arrived| ==> f.arrived[i].num != |f.emitted| + 1
  {
    FeedSettles(chunks);
    FirstsAre(Feed(chunks).arrived, |Feed(chunks).emitted| + 1);
  }

  /** A chunk that came with a positive number is taken under that number. */
  lemma {:induction false} ArrivedAsNumbered(chunks: seq<Chunk>, i: nat)
    requires i < |chunks|
    ensures |Feed(chunks).arrived| == |chunks|
    ensures chunks[i].num > 0 ==> Feed(chunks).arrived[i] == chunks[i]
  {
    var front := chunks[..|chunks| - 1];
    if i < |front| {
      ArrivedAsNumbered(front, i);
    } else if front != [] {
      ArrivedAsNumbered(front, 0);
    }
  }

  /** A chunk without a number takes the next one and is released at once. */
  lemma {:induction false} UnnumberedGoesNext(b: Buffer, chunk: Chunk)
    requires chunk.num <= 0 && b.next !in b.pending
    ensures Accept(b, chunk).1 != [] && Accept(b, chunk).1[0] == chunk.(num := b.next)
  {
    DrainReleases(Place(b, Numbered(b, chunk)));
  }

  /** A chunk that comes too late changes nothing. */
  lemma {:induction false} LateIsDropped(b: Buffer, chunk: Chunk)
    requires 0 < chunk.num < b.next
    ensures Accept(b, chunk) == (b, [])
  {}
}
