/** The in-memory call log: appending with the keep-last-1000 truncation that
    every save applies, the newest-first queries, and the summary
    statistics. Timestamps are ISO text and are ordered as text, the way the
    source sorts them. */
module CallHistory {
  datatype CallRecord = CallRecord(
    timestamp: string,
    direction: string,
    peerId: string,
    displayName: string,
    durationSec: int,
    answered: bool,
    callId: string)

  const MaxEntries := 1000
  const DefaultRecentLimit := 50
  const DefaultPeerLimit := 10

  // ---------------------------------------------------------------------
  // String order (Python compares str by code point, lexicographically)

  predicate LexLess(a: string, b: string)
    decreases |a|
  {
    b != [] && (a == [] || a[0] < b[0] || (a[0] == b[0] && LexLess(a[1..], b[1..])))
  }

  predicate LexLe(a: string, b: string) {
    a == b || LexLess(a, b)
  }

  lemma {:induction false} LexTotal(a: string, b: string)
    ensures LexLess(a, b) || a == b || LexLess(b, a)
    decreases |a|
  {
    if a != [] && b != [] && a[0] == b[0] {
      LexTotal(a[1..], b[1..]);
      if a[1..] == b[1..] {
        assert a == [a[0]] + a[1..] && b == [b[0]] + b[1..];
      }
    }
  }

  lemma {:induction false} LexLessTrans(a: string, b: string, c: string)
    requires LexLess(a, b) && LexLess(b, c)
    ensures LexLess(a, c)
    decreases |a|
  {
    if a != [] && a[0] == b[0] && b[0] == c[0] {
      LexLessTrans(a[1..], b[1..], c[1..]);
    }
  }

  lemma LexLeTrans(a: string, b: string, c: string)
    requires LexLe(a, b) && LexLe(b, c)
    ensures LexLe(a, c)
  {
    if a != b && b != c {
      LexLessTrans(a, b, c);
    }
  }

  // ---------------------------------------------------------------------
  // Newest-first sort

  /** Pairwise newest first. */
  predicate NewestFirst(s: seq<CallRecord>) {
    forall i, j :: 0 <= i < j < |s| ==> LexLe(s[j].timestamp, s[i].timestamp)
  }

  /** Inserts `x` after every record at least as new, which keeps records
      with equal timestamps in their original order. */
  function Insert(sorted: seq<CallRecord>, x: CallRecord): (r: seq<CallRecord>)
    ensures multiset(r) == multiset(sorted) + multiset{x}
    ensures |r| == |sorted| + 1
    decreases |sorted|
  {
    if sorted == [] then [x]
    else if !LexLess(sorted[0].timestamp, x.timestamp) then
      assert sorted == [sorted[0]] + sorted[1..];
      [sorted[0]] + Insert(sorted[1..], x)
    else [x] + sorted
  }

  /** Every record in `s` is no newer than `t`. */
  predicate AllAtMost(s: seq<CallRecord>, t: string) {
    forall i :: 0 <= i < |s| ==> LexLe(s[i].timestamp, t)
  }

  lemma ConsSorted(h: CallRecord, rest: seq<CallRecord>)
    requires NewestFirst(rest) && AllAtMost(rest, h.timestamp)
    ensures NewestFirst([h] + rest)
  {
    var r := [h] + rest;
    forall i, j | 0 <= i < j < |r|
      ensures LexLe(r[j].timestamp, r[i].timestamp)
    {
      assert r[j] == rest[j - 1];
      if i > 0 {
        assert r[i] == rest[i - 1];
      }
    }
  }

  lemma {:induction false} InsertAtMost(sorted: seq<CallRecord>, x: CallRecord, t: string)
    requires AllAtMost(sorted, t) && LexLe(x.timestamp, t)
    ensures AllAtMost(Insert(sorted, x), t)
    decreases |sorted|
  {
    if sorted != [] && !LexLess(sorted[0].timestamp, x.timestamp) {
      InsertAtMost(sorted[1..], x, t);
      var r := Insert(sorted, x);
      assert r == [sorted[0]] + Insert(sorted[1..], x);
      forall i | 0 <= i < |r|
        ensures LexLe(r[i].timestamp, t)
      {
        if i > 0 {
          assert r[i] == Insert(sorted[1..], x)[i - 1];
        }
      }
    } else if sorted != [] {
      var r := Insert(sorted, x);
      forall i | 0 <= i < |r|
        ensures LexLe(r[i].timestamp, t)
      {
        if i > 0 {
          assert r[i] == sorted[i - 1];
        }
      }
    }
  }

  lemma {:induction false} InsertSorted(sorted: seq<CallRecord>, x: CallRecord)
    requires NewestFirst(sorted)
    ensures NewestFirst(Insert(sorted, x))
    decreases |sorted|
  {
    if sorted == [] {
    } else if !LexLess(sorted[0].timestamp, x.timestamp) {
      var tail := sorted[1..];
      InsertSorted(tail, x);
      LexTotal(sorted[0].timestamp, x.timestamp);
      assert AllAtMost(tail, sorted[0].timestamp) by {
        forall i | 0 <= i < |tail|
          ensures LexLe(tail[i].timestamp, sorted[0].timestamp)
        {
          assert tail[i] == sorted[i + 1];
        }
      }
      InsertAtMost(tail, x, sorted[0].timestamp);
      ConsSorted(sorted[0], Insert(tail, x));
    } else {
      assert AllAtMost(sorted, x.timestamp) by {
        forall i | 0 <= i < |sorted|
          ensures LexLe(sorted[i].timestamp, x.timestamp)
        {
          if i > 0 {
            LexLeTrans(sorted[i].timestamp, sorted[0].timestamp, x.timestamp);
          }
        }
      }
      ConsSorted(x, sorted);
    }
  }

  /** The order of `sorted(calls, key=timestamp, reverse=True)`. */
  function SortNewestFirst(s: seq<CallRecord>): (r: seq<CallRecord>)
    ensures multiset(r) == multiset(s) && |r| == |s|
    decreases |s|
  {
    if s == [] then []
    else
      assert s == s[..|s| - 1] + [s[|s| - 1]];
      Insert(SortNewestFirst(s[..|s| - 1]), s[|s| - 1])
  }

  lemma {:induction false} SortIsSorted(s: seq<CallRecord>)
    ensures NewestFirst(SortNewestFirst(s))
    decreases |s|
  {
    if s != [] {
      SortIsSorted(s[..|s| - 1]);
      InsertSorted(SortNewestFirst(s[..|s| - 1]), s[|s| - 1]);
    }
  }

  /** `s[:limit]` with Python's reading of a negative bound (counted from
      the end). */
  function PyTake<T>(s: seq<T>, limit: int): (r: seq<T>)
    ensures limit >= 0 ==> |r| == (if limit < |s| then limit else |s|)
    ensures limit < 0 ==> |r| == (if |s| + limit > 0 then |s| + limit else 0)
    ensures r == s[..|r|]
  {
    if limit >= 0 then (if limit < |s| then s[..limit] else s)
    else if |s| + limit > 0 then s[..|s| + limit]
    else []
  }

  // ---------------------------------------------------------------------
  // The log

  /** What every save does first: keep only the newest `MaxEntries` in
      their original order. */
  function Truncate(calls: seq<CallRecord>): (r: seq<CallRecord>)
    ensures |r| == if |calls| > MaxEntries then MaxEntries else |calls|
    ensures r == calls[|calls| - |r|..]
  {
    if |calls| > MaxEntries then calls[|calls| - MaxEntries..] else calls
  }

  /** Appends one record stamped `now`, then saves (and so truncates). */
  function AddCall(calls: seq<CallRecord>, direction: string, peerId: string, displayName: string,
                   durationSec: int, answered: bool, callId: string, now: string): (r: seq<CallRecord>)
    ensures r != [] && r[|r| - 1] == CallRecord(now, direction, peerId, displayName, durationSec, answered, callId)
    ensures |calls| < MaxEntries ==> r == calls + [r[|r| - 1]]
    ensures |r| <= MaxEntries
  {
    Truncate(calls + [CallRecord(now, direction, peerId, displayName, durationSec, answered, callId)])
  }

  /** A full log stays full: the oldest record makes way for the new one. */
  lemma AddToFullLog(calls: seq<CallRecord>, rec: CallRecord)
    requires |calls| == MaxEntries
    ensures AddCall(calls, rec.direction, rec.peerId, rec.displayName, rec.durationSec, rec.answered, rec.callId, rec.timestamp)
         == calls[1..] + [rec]
  {
  }

  /** The newest `limit` records, newest first. */
  function GetRecentCalls(calls: seq<CallRecord>, limit: int): (r: seq<CallRecord>)
    ensures |r| <= |calls|
    ensures r == SortNewestFirst(calls)[..|r|]
    ensures limit >= 0 ==> |r| == (if limit < |calls| then limit else |calls|)
    ensures multiset(r) <= multiset(calls)
    ensures NewestFirst(r)
  {
    var sorted := SortNewestFirst(calls);
    SortIsSorted(calls);
    var r := PyTake(sorted, limit);
    PrefixSub(sorted, |r|);
    r
  }

  /** The calls with one peer, in log order. */
  function ForPeer(calls: seq<CallRecord>, peerId: string): (r: seq<CallRecord>)
    ensures forall i :: 0 <= i < |r| ==> r[i].peerId == peerId
    decreases |calls|
  {
    if calls == [] then []
    else if calls[0].peerId == peerId then [calls[0]] + ForPeer(calls[1..], peerId)
    else ForPeer(calls[1..], peerId)
  }

  /** The filter keeps every call with the peer, as often as it occurs, and
      nothing else. */
  lemma {:induction false} ForPeerExact(calls: seq<CallRecord>, peerId: string, c: CallRecord)
    ensures multiset(ForPeer(calls, peerId))[c] == if c.peerId == peerId then multiset(calls)[c] else 0
    decreases |calls|
  {
    if calls != [] {
      ForPeerExact(calls[1..], peerId, c);
      assert calls == [calls[0]] + calls[1..];
    }
  }

  lemma ForPeerSub(calls: seq<CallRecord>, peerId: string)
    ensures multiset(ForPeer(calls, peerId)) <= multiset(calls)
  {
    forall c | c in multiset(ForPeer(calls, peerId))
      ensures multiset(ForPeer(calls, peerId))[c] <= multiset(calls)[c]
    {
      ForPeerExact(calls, peerId, c);
    }
  }

  /** A prefix's multiset is contained in the whole's. */
  lemma PrefixSub<T>(s: seq<T>, n: nat)
    requires n <= |s|
    ensures multiset(s[..n]) <= multiset(s)
  {
    assert s == s[..n] + s[n..];
  }

  /** The newest `limit` calls with one peer, newest first. */
  function GetCallsForPeer(calls: seq<CallRecord>, peerId: string, limit: int): (r: seq<CallRecord>)
    ensures forall i :: 0 <= i < |r| ==> r[i].peerId == peerId
    ensures multiset(r) <= multiset(calls)
    ensures NewestFirst(r)
    ensures |r| <= |ForPeer(calls, peerId)|
    ensures r == SortNewestFirst(ForPeer(calls, peerId))[..|r|]
    ensures limit >= 0 ==> |r| == (if limit < |ForPeer(calls, peerId)| then limit else |ForPeer(calls, peerId)|)
    ensures limit >= |calls| ==> multiset(r) == multiset(ForPeer(calls, peerId))
  {
    var mine := ForPeer(calls, peerId);
    var sorted := SortNewestFirst(mine);
    SortIsSorted(mine);
    ForPeerSub(calls, peerId);
    ForPeerShorter(calls, peerId);
    var r := PyTake(sorted, limit);
    PrefixSub(sorted, |r|);
    DrawnFromPeer(r, mine, peerId);
    r
  }

  /** Records drawn from one peer's calls are that peer's. */
  lemma DrawnFromPeer(r: seq<CallRecord>, mine: seq<CallRecord>, peerId: string)
    requires multiset(r) <= multiset(mine)
    requires forall i :: 0 <= i < |mine| ==> mine[i].peerId == peerId
    ensures forall i :: 0 <= i < |r| ==> r[i].peerId == peerId
  {
    forall i | 0 <= i < |r|
      ensures r[i].peerId == peerId
    {
      assert r[i] in multiset(mine);
      var k :| 0 <= k < |mine| && mine[k] == r[i];
    }
  }

  lemma {:induction false} ForPeerShorter(calls: seq<CallRecord>, peerId: string)
    ensures |ForPeer(calls, peerId)| <= |calls|
    decreases |calls|
  {
    if calls != [] {
      ForPeerShorter(calls[1..], peerId);
    }
  }

  // ---------------------------------------------------------------------
  // Statistics

  datatype Stats = Stats(totalCalls: nat, answeredCalls: nat, missedCalls: int,
                         totalDurationSec: int, incomingCalls: nat, outgoingCalls: nat)

  function CountAnswered(calls: seq<CallRecord>): (n: nat)
    ensures n <= |calls|
  {
    if calls == [] then 0 else (if calls[0].answered then 1 else 0) + CountAnswered(calls[1..])
  }

  function CountDirection(calls: seq<CallRecord>, direction: string): (n: nat)
    ensures n <= |calls|
  {
    if calls == [] then 0 else (if calls[0].direction == direction then 1 else 0) + CountDirection(calls[1..], direction)
  }

  function TotalDuration(calls: seq<CallRecord>): int {
    if calls == [] then 0 else calls[0].durationSec + TotalDuration(calls[1..])
  }

  function GetStatistics(calls: seq<CallRecord>): (st: Stats)
    ensures st.totalCalls == |calls|
    ensures st.missedCalls == st.totalCalls - st.answeredCalls && st.missedCalls >= 0
    ensures st.incomingCalls + st.outgoingCalls <= st.totalCalls
  {
    DirectionsDisjoint(calls);
    Stats(|calls|, CountAnswered(calls), |calls| - CountAnswered(calls), TotalDuration(calls),
          CountDirection(calls, "incoming"), CountDirection(calls, "outgoing"))
  }

  /** No call is both incoming and outgoing. */
  lemma {:induction false} DirectionsDisjoint(calls: seq<CallRecord>)
    ensures CountDirection(calls, "incoming") + CountDirection(calls, "outgoing") <= |calls|
  {
    if calls != [] {
      DirectionsDisjoint(calls[1..]);
    }
  }

  /** Adding a call below the cap raises the total by one, and the answered
      and per-direction counts by exactly its own contribution. */
  lemma {:induction false} StatsAfterAdd(calls: seq<CallRecord>, rec: CallRecord)
    requires |calls| < MaxEntries
    ensures var after := GetStatistics(AddCall(calls, rec.direction, rec.peerId, rec.displayName,
                                                rec.durationSec, rec.answered, rec.callId, rec.timestamp));
      && after.totalCalls == |calls| + 1
      && after.answeredCalls == CountAnswered(calls) + (if rec.answered then 1 else 0)
      && after.incomingCalls == CountDirection(calls, "incoming") + (if rec.direction == "incoming" then 1 else 0)
      && after.totalDurationSec == TotalDuration(calls) + rec.durationSec
  {
    CountsAppend(calls, rec);
  }

  lemma {:induction false} CountsAppend(calls: seq<CallRecord>, rec: CallRecord)
    ensures CountAnswered(calls + [rec]) == CountAnswered(calls) + (if rec.answered then 1 else 0)
    ensures CountDirection(calls + [rec], "incoming") == CountDirection(calls, "incoming") + (if rec.direction == "incoming" then 1 else 0)
    ensures TotalDuration(calls + [rec]) == TotalDuration(calls) + rec.durationSec
    decreases |calls|
  {
    if calls != [] {
      assert (calls + [rec])[1..] == calls[1..] + [rec];
      CountsAppend(calls[1..], rec);
    }
  }

  /** `clear_history`. */
  function ClearHistory(calls: seq<CallRecord>): (r: seq<CallRecord>)
    ensures r == [] && GetStatistics(r).totalCalls == 0
  {
    []
  }
}
