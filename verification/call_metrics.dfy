/** Call-quality bookkeeping: packet counters with sequence-gap loss
    accounting, the RTT window, and the derived quality label. Quantities the
    source keeps as floats are exact reals here. */
module CallMetrics {
  import opened Basics

  const RttWindow := 100

  datatype Metrics = Metrics(
    rttSamples: seq<real>,
    rttMin: Option<real>,
    rttMax: Option<real>,
    rttAvg: Option<real>,
    packetsSent: nat,
    packetsReceived: nat,
    packetsExpected: nat,
    packetsLost: nat,
    lastSeqReceived: Option<U16>,
    bytesSent: int,
    bytesReceived: int)

  const Fresh := Metrics([], None, None, None, 0, 0, 0, 0, None, 0, 0)

  /** Every expected packet was either received or counted as lost. */
  predicate Balanced(m: Metrics) {
    m.packetsExpected == m.packetsReceived + m.packetsLost
  }

  /** The packets skipped between the last sequence number and `seqNo`,
      computed the way the source does it, with an explicit wrap branch. */
  function Gap(last: U16, seqNo: U16): (g: nat)
    ensures g < 0x1_0000
    ensures g == 0 <==> seqNo == (last + 1) % 0x1_0000
    ensures ((last + 1) % 0x1_0000 + g) % 0x1_0000 == seqNo
  {
    var expected := (last + 1) % 0x1_0000;
    if seqNo == expected then 0
    else if seqNo > expected then seqNo - expected
    else (0x1_0000 - expected) + seqNo
  }

  /** The branchy gap is the forward distance modulo 65536. */
  lemma GapIsForwardDistance(last: U16, seqNo: U16)
    ensures Gap(last, seqNo) == (seqNo - (last + 1)) % 0x1_0000
  {
  }

  function RecordPacketReceived(m: Metrics, seqNo: U16, size: int): (r: Metrics)
    ensures r.packetsReceived == m.packetsReceived + 1
    ensures r.packetsLost - m.packetsLost ==
      (if m.lastSeqReceived.None? then 0 else (seqNo - (m.lastSeqReceived.value + 1)) % 0x1_0000)
    ensures r.packetsExpected - r.packetsReceived - r.packetsLost
         == m.packetsExpected - m.packetsReceived - m.packetsLost
    ensures r.lastSeqReceived == Some(seqNo) && r.bytesReceived == m.bytesReceived + size
    ensures r.packetsSent == m.packetsSent && r.rttSamples == m.rttSamples
  {
    var gap := if m.lastSeqReceived.None? then 0 else Gap(m.lastSeqReceived.value, seqNo);
    GapIsForwardDistance(if m.lastSeqReceived.None? then 0 else m.lastSeqReceived.value, seqNo);
    m.(packetsReceived := m.packetsReceived + 1,
       bytesReceived := m.bytesReceived + size,
       packetsLost := m.packetsLost + gap,
       packetsExpected := m.packetsExpected + gap + 1,
       lastSeqReceived := Some(seqNo))
  }

  /** Feeds a run of sequence numbers in arrival order. */
  function ReceiveAll(m: Metrics, seqs: seq<U16>): Metrics
    decreases |seqs|
  {
    if seqs == [] then m else ReceiveAll(RecordPacketReceived(m, seqs[0], 0), seqs[1..])
  }

  /** The accounting invariant survives any run of arrivals. */
  lemma {:induction false} ReceiveAllBalanced(m: Metrics, seqs: seq<U16>)
    requires Balanced(m)
    ensures Balanced(ReceiveAll(m, seqs))
    ensures ReceiveAll(m, seqs).packetsReceived == m.packetsReceived + |seqs|
    decreases |seqs|
  {
    if seqs != [] {
      ReceiveAllBalanced(RecordPacketReceived(m, seqs[0], 0), seqs[1..]);
    }
  }

  /** Sequence numbers 0, 1, 2, 5: two packets lost, six expected. */
  lemma LossExample()
    ensures ReceiveAll(Fresh, [0, 1, 2, 5]).packetsLost == 2
    ensures ReceiveAll(Fresh, [0, 1, 2, 5]).packetsExpected == 6
  {
    var m1 := RecordPacketReceived(Fresh, 0, 0);
    var m2 := RecordPacketReceived(m1, 1, 0);
    var m3 := RecordPacketReceived(m2, 2, 0);
    var m4 := RecordPacketReceived(m3, 5, 0);
    assert ReceiveAll(Fresh, [0, 1, 2, 5]) == ReceiveAll(m1, [1, 2, 5]);
    assert ReceiveAll(m1, [1, 2, 5]) == ReceiveAll(m2, [2, 5]);
    assert ReceiveAll(m2, [2, 5]) == ReceiveAll(m3, [5]);
    assert ReceiveAll(m3, [5]) == m4;
  }

  /** Wrap-around: after 65535, sequence number 0 is the next packet, not a
      loss of 65535 packets. */
  lemma WrapIsNotLoss(m: Metrics)
    requires m.lastSeqReceived == Some(0xFFFF)
    ensures RecordPacketReceived(m, 0, 0).packetsLost == m.packetsLost
  {
  }

  function RecordPacketSent(m: Metrics, size: int): (r: Metrics)
    ensures r.packetsSent == m.packetsSent + 1 && r.bytesSent == m.bytesSent + size
    ensures r.(packetsSent := m.packetsSent, bytesSent := m.bytesSent) == m
  {
    m.(packetsSent := m.packetsSent + 1, bytesSent := m.bytesSent + size)
  }

  function Sum(xs: seq<real>): real {
    if xs == [] then 0.0 else xs[0] + Sum(xs[1..])
  }

  /** Adds an RTT sample to the bounded window; min and max are over all
      samples ever seen, the average over the window. */
  function RecordRtt(m: Metrics, rtt: real): (r: Metrics)
    ensures |m.rttSamples| <= RttWindow ==> |r.rttSamples| <= RttWindow
    ensures r.rttSamples != [] && r.rttSamples[|r.rttSamples| - 1] == rtt
    ensures r.rttMin.Some? && r.rttMin.value <= rtt && (m.rttMin.Some? ==> r.rttMin.value <= m.rttMin.value)
    ensures r.rttMax.Some? && r.rttMax.value >= rtt && (m.rttMax.Some? ==> r.rttMax.value >= m.rttMax.value)
    ensures r.rttAvg == Some(Sum(r.rttSamples) / (|r.rttSamples| as real))
    ensures r.packetsExpected == m.packetsExpected && r.packetsLost == m.packetsLost
  {
    var appended := m.rttSamples + [rtt];
    var window := if |appended| > RttWindow then appended[|appended| - RttWindow..] else appended;
    var lo := if m.rttMin.None? || rtt < m.rttMin.value then rtt else m.rttMin.value;
    var hi := if m.rttMax.None? || rtt > m.rttMax.value then rtt else m.rttMax.value;
    m.(rttSamples := window, rttMin := Some(lo), rttMax := Some(hi),
       rttAvg := Some(Sum(window) / (|window| as real)))
  }

  /** Loss as a percentage of expected packets (zero before anything is expected). */
  function LossPercentage(m: Metrics): real {
    if m.packetsExpected > 0 then (m.packetsLost as real) / (m.packetsExpected as real) * 100.0 else 0.0
  }

  datatype Quality = Good | Fair | Poor | Unknown

  function RttScore(avg: real): nat {
    if avg < 200.0 then 2 else if avg < 500.0 then 1 else 0
  }

  function LossScore(lossPct: real): nat {
    if lossPct < 2.0 then 2 else if lossPct < 5.0 then 1 else 0
  }

  /** The quality label; the two scores are averaged, so "at least 1.5" is a
      score sum of at least 3 and "at least 0.5" a sum of at least 1. */
  function ConnectionQuality(m: Metrics): (q: Quality)
    ensures q == Unknown <==> m.rttAvg.None? || m.packetsExpected < 10
    ensures q == Good <==> (m.rttAvg.Some? && m.packetsExpected >= 10
      && ((m.rttAvg.value < 200.0 && LossPercentage(m) < 5.0) || (m.rttAvg.value < 500.0 && LossPercentage(m) < 2.0)))
    ensures q == Poor <==> (m.rttAvg.Some? && m.packetsExpected >= 10
      && m.rttAvg.value >= 500.0 && LossPercentage(m) >= 5.0)
  {
    if m.rttAvg.None? || m.packetsExpected < 10 then Unknown
    else
      var combined := RttScore(m.rttAvg.value) + LossScore(LossPercentage(m));
      if combined >= 3 then Good
      else if combined >= 1 then Fair
      else Poor
  }
}
