/** Per-peer sliding-window admission of incoming calls: a cap per trailing
    minute, a cap per trailing hour, and a periodic sweep of idle peers. */
module RateLimiter {
  import opened Basics

  const MinuteWindow: real := 60.0
  const HourWindow: real := 3600.0

  datatype Limiter = Limiter(
    maxPerMinute: int,
    maxPerHour: int,
    cleanupInterval: real,
    calls: map<string, seq<real>>,  // per peer, the times of admitted calls, oldest first
    lastCleanup: real)

  /** A fresh limiter; the source's defaults are 5, 20 and 300 seconds. */
  function NewLimiter(maxPerMinute: int, maxPerHour: int, cleanupInterval: real, now: real): (l: Limiter)
    ensures l.calls == map[] && l.lastCleanup == now
  {
    Limiter(maxPerMinute, maxPerHour, cleanupInterval, map[], now)
  }

  function DefaultLimiter(now: real): Limiter {
    NewLimiter(5, 20, 300.0, now)
  }

  /** How many timestamps the pruning loop pops off the front: it stops at
      the first one not older than `cutoff`. */
  function OlderPrefix(ts: seq<real>, cutoff: real): (k: nat)
    ensures k <= |ts|
    ensures forall i :: 0 <= i < k ==> ts[i] < cutoff
    ensures k < |ts| ==> ts[k] >= cutoff
  {
    if ts != [] && ts[0] < cutoff then 1 + OlderPrefix(ts[1..], cutoff) else 0
  }

  /** The peer's sequence after the pruning loop. */
  function DropOlder(ts: seq<real>, cutoff: real): seq<real> {
    ts[OlderPrefix(ts, cutoff)..]
  }

  /** Whatever the order, pruning drops a leading run of timestamps older
      than the cutoff and stops at the first one that is not. */
  lemma DropOlderPrefix(ts: seq<real>, cutoff: real)
    ensures var r := DropOlder(ts, cutoff);
      && |r| <= |ts| && r == ts[|ts| - |r|..]
      && (forall i :: 0 <= i < |ts| - |r| ==> ts[i] < cutoff)
      && (r != [] ==> r[0] >= cutoff)
  {
  }

  predicate Sorted(ts: seq<real>) {
    forall i, j :: 0 <= i < j < |ts| ==> ts[i] <= ts[j]
  }

  /** On a time-ordered sequence, pruning leaves a time-ordered sequence
      holding exactly the timestamps not older than the cutoff. */
  lemma DropOlderOnSorted(ts: seq<real>, cutoff: real)
    requires Sorted(ts)
    ensures Sorted(DropOlder(ts, cutoff))
    ensures forall t :: t in DropOlder(ts, cutoff) <==> t in ts && t >= cutoff
  {
    var k := OlderPrefix(ts, cutoff);
    var r := ts[k..];
    forall i | k <= i < |ts| ensures ts[i] >= cutoff {
      assert ts[k] <= ts[i];
    }
    forall t | t in ts && t >= cutoff ensures t in r {
      var i :| 0 <= i < |ts| && ts[i] == t;
      assert r[i - k] == t;
    }
  }

  /** How many timestamps are at or after `cutoff`. */
  function CountSince(ts: seq<real>, cutoff: real): (n: nat)
    ensures n <= |ts|
    ensures n == |ts| <==> forall i :: 0 <= i < |ts| ==> ts[i] >= cutoff
  {
    if ts == [] then 0
    else (if ts[0] >= cutoff then 1 else 0) + CountSince(ts[1..], cutoff)
  }

  /** The periodic sweep: prunes every peer's sequence to the trailing hour
      and forgets the peers left with nothing. */
  function Sweep(l: Limiter, now: real): (r: Limiter)
    ensures r.lastCleanup == now
    ensures r.(calls := l.calls, lastCleanup := l.lastCleanup) == l
    ensures forall p :: p in r.calls <==> p in l.calls && DropOlder(l.calls[p], now - HourWindow) != []
    ensures forall p :: p in r.calls ==> r.calls[p] == DropOlder(l.calls[p], now - HourWindow)
  {
    var cutoff := now - HourWindow;
    l.(calls := map p | p in l.calls && DropOlder(l.calls[p], cutoff) != [] :: DropOlder(l.calls[p], cutoff),
       lastCleanup := now)
  }

  /** The sweep runs only when more than the interval has passed since the last one. */
  function MaybeSweep(l: Limiter, now: real): (r: Limiter)
    ensures now - l.lastCleanup > l.cleanupInterval ==> r == Sweep(l, now)
    ensures now - l.lastCleanup <= l.cleanupInterval ==> r == l
  {
    if now - l.lastCleanup > l.cleanupInterval then Sweep(l, now) else l
  }

  /** A peer's sequence as `is_allowed` sees it: after the optional sweep,
      then pruned to the trailing hour. */
  function Window(l: Limiter, peer: string, now: real): seq<real> {
    var l1 := MaybeSweep(l, now);
    DropOlder(if peer in l1.calls then l1.calls[peer] else [], now - HourWindow)
  }

  /** Decides one incoming call from `peer` at time `now`. A refused call is
      not recorded; the peer's pruned sequence is stored either way. */
  function IsAllowed(l: Limiter, peer: string, now: real): (r: (bool, Limiter))
    ensures var w := Window(l, peer, now);
      && (r.0 <==> CountSince(w, now - MinuteWindow) < l.maxPerMinute && |w| < l.maxPerHour)
      && peer in r.1.calls
      && r.1.calls[peer] == (if r.0 then w + [now] else w)
    ensures forall p :: p != peer ==> (p in r.1.calls <==> p in MaybeSweep(l, now).calls)
    ensures forall p :: p != peer && p in r.1.calls ==> r.1.calls[p] == MaybeSweep(l, now).calls[p]
    ensures r.1.(calls := l.calls, lastCleanup := l.lastCleanup) == l
  {
    var l1 := MaybeSweep(l, now);
    var w := Window(l, peer, now);
    var inMinute := CountSince(w, now - MinuteWindow);
    if inMinute >= l.maxPerMinute || |w| >= l.maxPerHour then
      (false, l1.(calls := l1.calls[peer := w]))
    else
      (true, l1.(calls := l1.calls[peer := w + [now]]))
  }

  /** What the limiter keeps between calls when the clock never runs
      backwards: every sequence is time-ordered, holds nothing later than the
      last call, and never grows beyond the hourly cap. */
  predicate WellFormed(l: Limiter, now: real) {
    && 0 <= l.maxPerHour
    && l.lastCleanup <= now
    && forall p :: p in l.calls ==>
         && Sorted(l.calls[p])
         && |l.calls[p]| <= l.maxPerHour
         && forall i :: 0 <= i < |l.calls[p]| ==> l.calls[p][i] <= now
  }

  lemma SweepWellFormed(l: Limiter, now: real)
    requires WellFormed(l, now)
    ensures WellFormed(Sweep(l, now), now)
  {
    var r := Sweep(l, now);
    forall p | p in r.calls
      ensures Sorted(r.calls[p]) && |r.calls[p]| <= r.maxPerHour
      ensures forall i :: 0 <= i < |r.calls[p]| ==> r.calls[p][i] <= now
    {
      DropOlderOnSorted(l.calls[p], now - HourWindow);
    }
  }

  /** Storing a well-behaved sequence for one peer keeps the limiter well formed. */
  lemma StoreWellFormed(l: Limiter, peer: string, ts: seq<real>, now: real)
    requires WellFormed(l, now)
    requires Sorted(ts) && |ts| <= l.maxPerHour
    requires forall i :: 0 <= i < |ts| ==> ts[i] <= now
    ensures WellFormed(l.(calls := l.calls[peer := ts]), now)
  {
  }

  lemma AppendSorted(ts: seq<real>, t: real)
    requires Sorted(ts) && forall i :: 0 <= i < |ts| ==> ts[i] <= t
    ensures Sorted(ts + [t]) && forall i :: 0 <= i < |ts + [t]| ==> (ts + [t])[i] <= t
  {
    var s := ts + [t];
    forall i, j | 0 <= i < j < |s| ensures s[i] <= s[j] {
      if j < |ts| {
        assert s[i] == ts[i] && s[j] == ts[j];
      }
    }
  }

  lemma ClockAdvance(l: Limiter, then_: real, now: real)
    requires WellFormed(l, then_) && then_ <= now
    ensures WellFormed(l, now)
  {
  }

  /** With a non-decreasing clock, admission keeps every sequence sorted,
      no later than the current time, and within the hourly cap. */
  lemma IsAllowedWellFormed(l: Limiter, peer: string, then_: real, now: real)
    requires WellFormed(l, then_) && then_ <= now
    ensures WellFormed(IsAllowed(l, peer, now).1, now)
  {
    ClockAdvance(l, then_, now);
    MaybeSweepWellFormed(l, now);
    var l1 := MaybeSweep(l, now);
    var w := Window(l, peer, now);
    WindowWellFormed(l1, peer, now);
    var stored := if IsAllowed(l, peer, now).0 then w + [now] else w;
    IsAllowedStores(l, peer, now);
    if IsAllowed(l, peer, now).0 {
      AppendSorted(w, now);
    }
    StoreWellFormed(l1, peer, stored, now);
  }

  lemma MaybeSweepWellFormed(l: Limiter, now: real)
    requires WellFormed(l, now)
    ensures WellFormed(MaybeSweep(l, now), now)
  {
    if now - l.lastCleanup > l.cleanupInterval {
      SweepWellFormed(l, now);
    }
  }

  /** What `is_allowed` leaves behind: the swept limiter with the peer's
      pruned sequence, plus the new call when it is admitted. */
  lemma IsAllowedStores(l: Limiter, peer: string, now: real)
    ensures var w := Window(l, peer, now);
      IsAllowed(l, peer, now).1 == MaybeSweep(l, now).(calls := MaybeSweep(l, now).calls[peer := if IsAllowed(l, peer, now).0 then w + [now] else w])
  {
  }

  /** The pruned sequence of a well-formed limiter is itself well behaved. */
  lemma WindowWellFormed(l1: Limiter, peer: string, now: real)
    requires WellFormed(l1, now)
    ensures var w := DropOlder(if peer in l1.calls then l1.calls[peer] else [], now - HourWindow);
      && Sorted(w) && |w| <= l1.maxPerHour
      && forall i :: 0 <= i < |w| ==> w[i] <= now
  {
    var ts := if peer in l1.calls then l1.calls[peer] else [];
    var w := DropOlder(ts, now - HourWindow);
    DropOlderOnSorted(ts, now - HourWindow);
    var k := OlderPrefix(ts, now - HourWindow);
    assert forall i :: 0 <= i < |w| ==> w[i] == ts[k + i];
  }

  /** The default caps, no sweep due at `t`, and the peer holding exactly
      `n` calls, all at `t`. */
  predicate BurstReady(l: Limiter, peer: string, t: real, n: nat) {
    && l.maxPerMinute == 5 && l.maxPerHour == 20 && l.cleanupInterval == 300.0 && l.lastCleanup == t
    && (if peer in l.calls then l.calls[peer] else []) == seq(n, _ => t)
  }

  /** One more call at the same instant, from a peer that already has `n`
      calls at that instant, under the default caps and with no sweep due:
      it is allowed exactly while fewer than five are recorded, and then
      recorded. */
  lemma BurstStep(l: Limiter, peer: string, t: real, n: nat)
    requires BurstReady(l, peer, t, n)
    ensures var r := IsAllowed(l, peer, t);
      && (r.0 <==> n < 5)
      && peer in r.1.calls
      && r.1.calls[peer] == (if n < 5 then seq(n + 1, _ => t) else seq(n, _ => t))
      && BurstReady(r.1, peer, t, if n < 5 then n + 1 else n)
  {
    var ts := if peer in l.calls then l.calls[peer] else [];
    assert MaybeSweep(l, t) == l;
    AllRecent(ts, t, t - HourWindow);
    AllRecent(ts, t, t - MinuteWindow);
    assert Window(l, peer, t) == ts;
    ConstantAppend(n, t);
  }

  /** Timestamps all equal to `t`, with the cutoff at or before `t`: the
      pruning keeps them all and all of them count. */
  lemma AllRecent(ts: seq<real>, t: real, cutoff: real)
    requires forall i :: 0 <= i < |ts| ==> ts[i] == t
    requires cutoff <= t
    ensures OlderPrefix(ts, cutoff) == 0 && DropOlder(ts, cutoff) == ts
    ensures CountSince(ts, cutoff) == |ts|
  {
  }

  lemma ConstantAppend(n: nat, t: real)
    ensures seq(n, _ => t) + [t] == seq(n + 1, _ => t)
  {
  }

  /** The verdicts of `k` calls from one peer, all at time `t`. */
  function Burst(l: Limiter, peer: string, t: real, k: nat): (vs: seq<bool>)
    ensures |vs| == k
    decreases k
  {
    if k == 0 then []
    else
      var r := IsAllowed(l, peer, t);
      [r.0] + Burst(r.1, peer, t, k - 1)
  }

  /** Under the default caps, from `n` calls at the same instant, the i-th of
      `k` further calls at that instant is allowed exactly when n + i < 5. */
  lemma {:induction false} BurstRun(l: Limiter, peer: string, t: real, n: nat, k: nat)
    requires BurstReady(l, peer, t, n)
    ensures Burst(l, peer, t, k) == seq(k, i => n + i < 5)
    decreases k
  {
    if k > 0 {
      var r := IsAllowed(l, peer, t);
      var n' := if n < 5 then n + 1 else n;
      assert (r.0 <==> n < 5) && BurstReady(r.1, peer, t, n') by { BurstStep(l, peer, t, n); }
      BurstRun(r.1, peer, t, n', k - 1);
      VerdictsShift(n, k);
    }
  }

  /** The verdict pattern after one call, shifted by one. */
  lemma VerdictsShift(n: nat, k: nat)
    requires k > 0
    ensures seq(k, i => n + i < 5) == [n < 5] + seq(k - 1, i => (if n < 5 then n + 1 else n) + i < 5)
  {
  }

  /** Six calls within one second with the default caps: five pass, the
      sixth is refused. */
  lemma SixCallsInOneSecond(peer: string, t: real)
    ensures Burst(DefaultLimiter(t), peer, t, 6) == [true, true, true, true, true, false]
  {
    BurstRun(DefaultLimiter(t), peer, t, 0, 6);
  }

  /** Forgets one peer and nothing else. */
  function ResetPeer(l: Limiter, peer: string): (r: Limiter)
    ensures peer !in r.calls
    ensures forall p :: p != peer ==> (p in r.calls <==> p in l.calls)
    ensures forall p :: p != peer && p in r.calls ==> r.calls[p] == l.calls[p]
    ensures r.(calls := l.calls) == l
  {
    l.(calls := l.calls - {peer})
  }

  datatype PeerStats = PeerStats(callsLastMinute: nat, callsLastHour: nat, totalCalls: nat)

  /** Reports on the peer's stored sequence as it stands (it is not pruned here). */
  function GetPeerStats(l: Limiter, peer: string, now: real): (s: PeerStats)
    ensures peer !in l.calls ==> s == PeerStats(0, 0, 0)
    ensures peer in l.calls ==> s.totalCalls == |l.calls[peer]|
    ensures s.callsLastHour == s.totalCalls && s.callsLastMinute <= s.callsLastHour
  {
    if peer !in l.calls then PeerStats(0, 0, 0)
    else
      var ts := l.calls[peer];
      PeerStats(CountSince(ts, now - MinuteWindow), |ts|, |ts|)
  }

  /** The sum of all the stored sequence lengths. */
  ghost function TotalCalls(m: map<string, seq<real>>): nat
    decreases |m|
  {
    if m == map[] then 0
    else
      var p :| p in m;
      |m[p]| + TotalCalls(m - {p})
  }

  /** The sum does not depend on the order the peers are taken in. */
  lemma {:induction false} TotalCallsRemove(m: map<string, seq<real>>, q: string)
    requires q in m
    ensures TotalCalls(m) == |m[q]| + TotalCalls(m - {q})
    decreases |m|
  {
    var p :| p in m && TotalCalls(m) == |m[p]| + TotalCalls(m - {p});
    if p != q {
      TotalCallsRemove(m - {p}, q);
      TotalCallsRemove(m - {q}, p);
      assert m - {p} - {q} == m - {q} - {p};
    }
  }

  /** Forgetting one peer takes exactly that peer's calls out of the total. */
  lemma ResetPeerTotal(l: Limiter, peer: string)
    ensures TotalCalls(ResetPeer(l, peer).calls) == TotalCalls(l.calls) - (if peer in l.calls then |l.calls[peer]| else 0)
  {
    if peer in l.calls {
      TotalCallsRemove(l.calls, peer);
    } else {
      assert l.calls - {peer} == l.calls;
    }
  }

  /** Overall statistics: how many peers are tracked and how many calls
      they hold between them. */
  method GetAllStats(l: Limiter) returns (trackedPeers: nat, totalCallsTracked: nat)
    ensures trackedPeers == |l.calls|
    ensures totalCallsTracked == TotalCalls(l.calls)
  {
    trackedPeers := |l.calls|;
    totalCallsTracked := 0;
    var rest := l.calls;
    while rest != map[]
      invariant totalCallsTracked + TotalCalls(rest) == TotalCalls(l.calls)
      decreases |rest|
    {
      var p :| p in rest;
      TotalCallsRemove(rest, p);
      totalCallsTracked := totalCallsTracked + |rest[p]|;
      rest := rest - {p};
    }
  }
}
