/** The receive-side jitter buffer: a bounded FIFO of (queued-at, frame)
    pairs that drops the oldest frame on overflow and releases the head only
    once it has waited the target delay. The clock is the `now` parameter. */
module JitterBuffer {
  import opened Basics

  datatype Entry = Entry(queuedAt: real, frame: Bytes)

  datatype Jitter = Jitter(maxFrames: nat, entries: seq<Entry>)

  const DefaultMaxFrames := 50

  function NewJitter(maxFrames: nat): (b: Jitter)
    ensures b.maxFrames == maxFrames && Depth(b) == 0
  {
    Jitter(maxFrames, [])
  }

  /** The frames in queue order. */
  function Frames(es: seq<Entry>): (fs: seq<Bytes>)
    ensures |fs| == |es| && forall i :: 0 <= i < |es| ==> fs[i] == es[i].frame
  {
    seq(|es|, i requires 0 <= i < |es| => es[i].frame)
  }

  /** The last `n` elements of `s` (all of them when there are fewer). */
  function LastN<T>(s: seq<T>, n: nat): (r: seq<T>)
    ensures |r| == if |s| <= n then |s| else n
    ensures r == s[|s| - |r|..]
  {
    if |s| <= n then s else s[|s| - n..]
  }

  /** Appends a frame stamped `now`; a full buffer loses its oldest frame. */
  function Push(b: Jitter, frame: Bytes, now: real): (r: Jitter)
    ensures r.maxFrames == b.maxFrames
    ensures |b.entries| <= b.maxFrames ==> |r.entries| <= r.maxFrames
    ensures b.maxFrames > 0 ==> r.entries != [] && r.entries[|r.entries| - 1] == Entry(now, frame)
    ensures |b.entries| < b.maxFrames ==> r.entries == b.entries + [Entry(now, frame)]
    ensures |b.entries| == b.maxFrames > 0 ==> r.entries == b.entries[1..] + [Entry(now, frame)]
  {
    b.(entries := LastN(b.entries + [Entry(now, frame)], b.maxFrames))
  }

  /** The head has waited at least `targetMs` milliseconds. */
  predicate HeadReady(b: Jitter, targetMs: int, now: real)
    requires b.entries != []
  {
    (now - b.entries[0].queuedAt) * 1000.0 >= targetMs as real
  }

  /** Releases the head frame when it is ready; otherwise nothing changes. */
  function PopReady(b: Jitter, targetMs: int, now: real): (r: (Option<Bytes>, Jitter))
    ensures r.0.None? <==> b.entries == [] || !HeadReady(b, targetMs, now)
    ensures r.0.None? ==> r.1 == b
    ensures r.0.Some? ==> r.0.value == b.entries[0].frame && r.1 == b.(entries := b.entries[1..])
  {
    if b.entries == [] then (None, b)
    else if !HeadReady(b, targetMs, now) then (None, b)
    else (Some(b.entries[0].frame), b.(entries := b.entries[1..]))
  }

  function Depth(b: Jitter): (n: nat)
    ensures n == |b.entries|
  {
    |b.entries|
  }

  function Clear(b: Jitter): (r: Jitter)
    ensures Depth(r) == 0 && r.maxFrames == b.maxFrames
  {
    b.(entries := [])
  }

  /** The entries a run of arrivals would queue: frame `fs[i]` stamped
      `ts[i]`. */
  function Stamped(fs: seq<Bytes>, ts: seq<real>): (es: seq<Entry>)
    requires |fs| == |ts|
    ensures |es| == |fs| && forall i :: 0 <= i < |fs| ==> es[i] == Entry(ts[i], fs[i])
  {
    seq(|fs|, i requires 0 <= i < |fs| => Entry(ts[i], fs[i]))
  }

  /** Pushes a run of frames, frame `fs[i]` arriving at time `ts[i]`. */
  function PushTimed(b: Jitter, fs: seq<Bytes>, ts: seq<real>): Jitter
    requires |fs| == |ts|
    decreases |fs|
  {
    if fs == [] then b else PushTimed(Push(b, fs[0], ts[0]), fs[1..], ts[1..])
  }

  /** Pops until the buffer is empty or its head is not ready. */
  function Drain(b: Jitter, targetMs: int, now: real): seq<Bytes>
    decreases |b.entries|
  {
    var (f, b') := PopReady(b, targetMs, now);
    if f.None? then [] else [f.value] + Drain(b', targetMs, now)
  }

  /** Pushing keeps queue order: whatever the arrival times, the buffer
      holds the last `maxFrames` of everything queued, each frame with the
      time it arrived. */
  lemma {:induction false} PushTimedKeepsOrder(b: Jitter, fs: seq<Bytes>, ts: seq<real>)
    requires |fs| == |ts| && |b.entries| <= b.maxFrames
    ensures PushTimed(b, fs, ts).maxFrames == b.maxFrames
    ensures PushTimed(b, fs, ts).entries == LastN(b.entries + Stamped(fs, ts), b.maxFrames)
    decreases |fs|
  {
    if fs == [] {
      assert b.entries + Stamped(fs, ts) == b.entries;
    } else {
      var e := Entry(ts[0], fs[0]);
      var b1 := Push(b, fs[0], ts[0]);
      var rest := Stamped(fs[1..], ts[1..]);
      assert PushTimed(b, fs, ts) == PushTimed(b1, fs[1..], ts[1..]);
      PushTimedKeepsOrder(b1, fs[1..], ts[1..]);
      StampedCons(fs, ts);
      PushThenRest(b.entries, e, rest, b.maxFrames);
    }
  }

  /** Pushing one entry and then the rest sees the same window as queuing
      them all at once. */
  lemma PushThenRest(es: seq<Entry>, e: Entry, rest: seq<Entry>, n: nat)
    ensures LastN(LastN(es + [e], n) + rest, n) == LastN(es + ([e] + rest), n)
  {
    LastNTwice(es + [e], rest, n);
    assert (es + [e]) + rest == es + ([e] + rest);
  }

  lemma StampedCons(fs: seq<Bytes>, ts: seq<real>)
    requires |fs| == |ts| && fs != []
    ensures Stamped(fs, ts) == [Entry(ts[0], fs[0])] + Stamped(fs[1..], ts[1..])
  {
  }

  /** The same, seen through the frames: the buffered frames are the last
      `maxFrames` of everything pushed, in order. */
  lemma PushTimedFrames(b: Jitter, fs: seq<Bytes>, ts: seq<real>)
    requires |fs| == |ts| && |b.entries| <= b.maxFrames
    ensures Frames(PushTimed(b, fs, ts).entries) == LastN(Frames(b.entries) + fs, b.maxFrames)
  {
    PushTimedKeepsOrder(b, fs, ts);
    var all := b.entries + Stamped(fs, ts);
    assert Frames(all) == Frames(b.entries) + fs;
    FramesLastN(all, b.maxFrames);
  }

  /** Truncation commutes with projecting the frames. */
  lemma FramesLastN(es: seq<Entry>, n: nat)
    ensures Frames(LastN(es, n)) == LastN(Frames(es), n)
  {
  }

  /** Truncating early and truncating once at the end agree. */
  lemma LastNTwice<T>(a: seq<T>, rest: seq<T>, n: nat)
    ensures LastN(LastN(a, n) + rest, n) == LastN(a + rest, n)
  {
    var x := LastN(a, n) + rest;
    var y := a + rest;
    assert forall i :: 0 <= i < |LastN(x, n)| ==> LastN(x, n)[i] == LastN(y, n)[i];
  }

  /** Once everything buffered is ready, draining yields the buffered frames
      in order and leaves the buffer empty. */
  lemma {:induction false} DrainReady(b: Jitter, targetMs: int, now: real)
    requires forall e :: e in b.entries ==> (now - e.queuedAt) * 1000.0 >= targetMs as real
    ensures Drain(b, targetMs, now) == Frames(b.entries)
    decreases |b.entries|
  {
    if b.entries != [] {
      assert b.entries[0] in b.entries;
      var b' := b.(entries := b.entries[1..]);
      assert forall e :: e in b'.entries ==> e in b.entries;
      DrainReady(b', targetMs, now);
      assert Frames(b.entries) == [b.entries[0].frame] + Frames(b'.entries);
    }
  }

  /** The FIFO promise end to end: frames pushed into an empty buffer at
      any arrival times, drained once the newest of them has waited the
      target delay, come out in the order they went in, minus the oldest
      ones an overflow dropped. */
  lemma FifoOrder(maxFrames: nat, fs: seq<Bytes>, ts: seq<real>, targetMs: int, now: real)
    requires |fs| == |ts|
    requires forall i :: 0 <= i < |ts| ==> (now - ts[i]) * 1000.0 >= targetMs as real
    ensures Drain(PushTimed(NewJitter(maxFrames), fs, ts), targetMs, now) == LastN(fs, maxFrames)
  {
    var b0 := NewJitter(maxFrames);
    var all := Stamped(fs, ts);
    PushTimedKeepsOrder(b0, fs, ts);
    PushTimedFrames(b0, fs, ts);
    assert b0.entries + all == all;
    assert Frames(b0.entries) + fs == fs;
    StampedReady(fs, ts, targetMs, now);
    LastNWithin(all, maxFrames);
    DrainReady(PushTimed(b0, fs, ts), targetMs, now);
  }

  /** Every queued entry of a run whose arrivals have all waited the target
      is ready. */
  lemma StampedReady(fs: seq<Bytes>, ts: seq<real>, targetMs: int, now: real)
    requires |fs| == |ts|
    requires forall i :: 0 <= i < |ts| ==> (now - ts[i]) * 1000.0 >= targetMs as real
    ensures forall e :: e in Stamped(fs, ts) ==> (now - e.queuedAt) * 1000.0 >= targetMs as real
  {
    forall e | e in Stamped(fs, ts)
      ensures (now - e.queuedAt) * 1000.0 >= targetMs as real
    {
      var i :| 0 <= i < |fs| && Stamped(fs, ts)[i] == e;
    }
  }

  lemma LastNWithin<T>(s: seq<T>, n: nat)
    ensures forall x :: x in LastN(s, n) ==> x in s
  {
  }

  /** Nothing is released before the target delay has passed. */
  lemma NotBeforeTarget(b: Jitter, targetMs: int, now: real)
    requires b.entries != [] && (now - b.entries[0].queuedAt) * 1000.0 < targetMs as real
    ensures PopReady(b, targetMs, now) == (None, b)
  {
  }
}
