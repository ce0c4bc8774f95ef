/** One call's media session: the transport link it owns, the handshake
    timeout flag, the outgoing audio sequence counter, the ping handler and
    the security fields. Side effects on the link come back as a list of
    `Effect`s; the audio pipeline is not part of this model. */
module MediaSession {
  import opened Basics
  import opened Framing
  import opened CallMetrics
  import opened Sas
  import CallState

  /** RNS `Link.ACTIVE`. */
  const LinkActive := 2

  /** Where a link's SAS material comes from: its `hash`, else its `link_id`
      when that is a byte string, else nowhere. */
  datatype SasSource = FromHash(hash: Bytes) | FromLinkId(linkId: Option<Bytes>) | NoSasSource

  /** The link as the session sees it: an identity for effects, an optional
      `status`, the optional encryption flag (absent reads as encrypted) and
      the SAS source. */
  datatype Link = Link(id: nat, status: Option<int>, encryption: Option<bool>, sas: SasSource)

  datatype Effect = Send(packet: Bytes) | Teardown(linkId: nat) | Close(linkId: nat)

  datatype Session = Session(
    callId: string,
    initiatedByLocal: bool,
    remoteMediaDest: Option<string>,
    remoteIdentityKey: Option<string>,
    link: Option<Link>,
    active: bool,
    timeoutArmed: bool,
    txSeq: U16,
    isEncrypted: bool,
    sasCode: Option<string>,
    sasVerified: bool,
    metrics: Metrics)

  /** A fresh session for a call: no link, inactive, sequence 0, unverified. */
  function NewSession(call: CallState.CallInfo): (s: Session)
    ensures s.callId == call.callId && s.initiatedByLocal == call.initiatedByLocal
    ensures s.remoteMediaDest == call.remoteMediaDest && s.remoteIdentityKey == call.remoteIdentityKey
    ensures s.link.None? && !s.active && !s.timeoutArmed && s.txSeq == 0
    ensures !s.isEncrypted && s.sasCode.None? && !s.sasVerified && s.metrics == Fresh
  {
    Session(call.callId, call.initiatedByLocal, call.remoteMediaDest, call.remoteIdentityKey,
            None, false, false, 0, false, None, false, Fresh)
  }

  /** The session's structural invariant: it is active only over a link, and
      a pending handshake timeout always has a link to tear down. */
  predicate Coherent(s: Session) {
    (s.active ==> s.link.Some?) && (s.timeoutArmed ==> s.link.Some?)
  }

  /** Starts the handshake. The initiator needs a non-empty destination and
      key, and otherwise logs the gap and waits; `created` is what the
      transport returned (None when it raised). The responder just waits.
      This is the evidently intended behaviour; `InitiateLinkAsWritten` is
      the source's. */
  function InitiateLink(s: Session, created: Option<Link>): (r: Session)
    ensures !s.initiatedByLocal || !Truthy(s.remoteMediaDest) || !Truthy(s.remoteIdentityKey) ==> r == s
    ensures s.initiatedByLocal && Truthy(s.remoteMediaDest) && Truthy(s.remoteIdentityKey) ==>
      r == s.(link := created, timeoutArmed := created.Some? || s.timeoutArmed)
  {
    if !s.initiatedByLocal then s
    else if !Truthy(s.remoteMediaDest) || !Truthy(s.remoteIdentityKey) then s
    else if created.None? then s.(link := None)
    else s.(link := created, timeoutArmed := true)
  }

  /** What escapes the handshake: the initiator's log line for a missing
      identity key reads a `remote_id` attribute the session never sets. */
  datatype Raised = AttributeError

  /** The handshake as the source writes it: an initiator with a destination
      but no identity key raises before it can log and return; every other
      case is the intended handshake. */
  function InitiateLinkAsWritten(s: Session, created: Option<Link>): (r: Result<Session, Raised>)
    ensures r.Err? <==> s.initiatedByLocal && Truthy(s.remoteMediaDest) && !Truthy(s.remoteIdentityKey)
    ensures r.Ok? ==> r.value == InitiateLink(s, created)
  {
    if s.initiatedByLocal && Truthy(s.remoteMediaDest) && !Truthy(s.remoteIdentityKey) then Err(AttributeError)
    else Ok(InitiateLink(s, created))
  }

  /** An outgoing call to a peer whose media destination is known but whose
      identity key is not: the source raises, where the intended handshake
      leaves the fresh session waiting, untouched. */
  lemma MissingKeyRaises(call: CallState.CallInfo, created: Option<Link>)
    requires call.initiatedByLocal && Truthy(call.remoteMediaDest) && !Truthy(call.remoteIdentityKey)
    ensures InitiateLinkAsWritten(NewSession(call), created) == Err(AttributeError)
    ensures InitiateLink(NewSession(call), created) == NewSession(call)
  {
  }

  /** The handshake timer fired: an unestablished link is torn down and
      forgotten; an active one is left alone. */
  function OnLinkTimeout(s: Session): (r: (Session, seq<Effect>))
    ensures !r.0.timeoutArmed
    ensures !s.active && s.link.Some? ==> r == (s.(timeoutArmed := false, link := None), [Teardown(s.link.value.id)])
    ensures s.active || s.link.None? ==> r == (s.(timeoutArmed := false), [])
  {
    var s' := s.(timeoutArmed := false);
    if !s.active && s.link.Some? then (s'.(link := None), [Teardown(s.link.value.id)])
    else (s', [])
  }

  /** The ping request sent when a link comes up: direction 0 then the
      8-byte timestamp. */
  function PingRequest(stamp: Bytes): Bytes
    requires |stamp| == 8
  {
    Frame(PacketPing, [0] + stamp, None).value
  }

  /** The link is up: disarm the timeout, adopt the link, record whether it
      is encrypted, derive the SAS from its key material, and send the
      initial ping. `sha256` is the hash oracle and `stamp` the encoded
      send time. */
  function OnLinkEstablished(s: Session, l: Link, sha256: Bytes -> Digest, stamp: Bytes): (r: (Session, seq<Effect>))
    requires |stamp| == 8
    ensures r.0.link == Some(l) && r.0.active && !r.0.timeoutArmed
    ensures r.0.isEncrypted == (l.encryption.None? || l.encryption.value)
    ensures l.sas.FromHash? ==> r.0.sasCode == Some(GenerateSas(sha256(l.sas.hash), 4))
    ensures l.sas.FromLinkId? && l.sas.linkId.Some? ==> r.0.sasCode == Some(GenerateSas(sha256(l.sas.linkId.value), 4))
    ensures l.sas.NoSasSource? || l.sas == FromLinkId(None) ==> r.0.sasCode == s.sasCode
    ensures r.0.txSeq == s.txSeq && r.0.sasVerified == s.sasVerified && r.0.callId == s.callId
    ensures r.1 == [Send(PingRequest(stamp))]
  {
    var code := match l.sas
      case FromHash(h) => Some(GenerateSas(sha256(h), 4))
      case FromLinkId(Some(id)) => Some(GenerateSas(sha256(id), 4))
      case _ => s.sasCode;
    var s' := s.(timeoutArmed := false, link := Some(l), active := true,
                 isEncrypted := l.encryption.None? || l.encryption.value, sasCode := code);
    (s', [Send(PingRequest(stamp))])
  }

  /** An inbound link: the initiator ignores it, the responder adopts it. */
  function OnIncomingLink(s: Session, l: Link, sha256: Bytes -> Digest, stamp: Bytes): (r: (Session, seq<Effect>))
    requires |stamp| == 8
    ensures s.initiatedByLocal ==> r == (s, [])
    ensures !s.initiatedByLocal ==> r == OnLinkEstablished(s, l, sha256, stamp)
  {
    if s.initiatedByLocal then (s, []) else OnLinkEstablished(s, l, sha256, stamp)
  }

  /** The link closed: disarm the timeout and go inactive. The link
      reference itself is kept. */
  function OnLinkClosed(s: Session): (r: Session)
    ensures !r.active && !r.timeoutArmed
    ensures r.link == s.link && r.txSeq == s.txSeq && r.metrics == s.metrics && r.sasCode == s.sasCode
  {
    s.(timeoutArmed := false, active := false)
  }

  /** The link may carry audio: active, present, and not reporting a status
      other than ACTIVE. */
  predicate CanSend(s: Session): (b: bool)
    ensures b ==> s.active && s.link.Some?
  {
    s.active && s.link.Some? && (s.link.value.status.None? || s.link.value.status.value == LinkActive)
  }

  /** Frames one audio frame with the current sequence number and advances
      the counter modulo 65536; returns the packet handed to the link. */
  function SendAudioFrame(s: Session, frame: Bytes): (r: (Session, Option<Bytes>))
    ensures !CanSend(s) ==> r == (s, None)
    ensures CanSend(s) ==> r.1 == Some(AudioPacket(frame, s.txSeq))
    ensures CanSend(s) ==> r.0.txSeq == (s.txSeq + 1) % 0x1_0000
    ensures CanSend(s) ==> r.0.metrics == RecordPacketSent(s.metrics, |r.1.value|)
    ensures CanSend(s) ==> r.0.(txSeq := s.txSeq, metrics := s.metrics) == s
  {
    if !CanSend(s) then (s, None)
    else
      var packet := AudioPacket(frame, s.txSeq);
      (s.(txSeq := (s.txSeq + 1) % 0x1_0000, metrics := RecordPacketSent(s.metrics, |packet|)), Some(packet))
  }

  /** The packet handed to the link parses back to the frame and the
      counter's value before the send. */
  lemma SentPacketParses(s: Session, frame: Bytes)
    requires CanSend(s)
    ensures SendAudioFrame(s, frame).1.Some?
    ensures Parse(SendAudioFrame(s, frame).1.value) == Ok(Parsed(PacketAudio, frame, Some(s.txSeq)))
  {
    AudioPacketParses(frame, s.txSeq);
  }

  /** Sends a run of frames and collects the packets that went out. */
  function SendAll(s: Session, frames: seq<Bytes>): (Session, seq<Bytes>)
    decreases |frames|
  {
    if frames == [] then (s, [])
    else
      var (s1, p) := SendAudioFrame(s, frames[0]);
      var (s2, ps) := SendAll(s1, frames[1..]);
      (s2, (if p.Some? then [p.value] else []) + ps)
  }

  /** On a sendable link every frame goes out: the packets are the run
      numbered consecutively from the counter's value, and the counter moves
      on by the number of frames, modulo 65536. */
  lemma {:induction false} ConsecutiveSequenceNumbers(s: Session, frames: seq<Bytes>)
    requires CanSend(s)
    ensures SendAll(s, frames).1 == Numbered(frames, s.txSeq)
    ensures SendAll(s, frames).0.txSeq == Wrap16(s.txSeq + |frames|)
    decreases |frames|
  {
    if frames == [] {
      WrapSmall(s.txSeq);
    } else {
      var s1 := SendAudioFrame(s, frames[0]).0;
      SendStep(s, frames);
      ConsecutiveSequenceNumbers(s1, frames[1..]);
      assert SendAll(s, frames).1 == Numbered(frames, s.txSeq) by {
        WrapSmall(s.txSeq);
        NumberedWrap(frames[1..], s.txSeq + 1);
      }
      assert SendAll(s, frames).0.txSeq == Wrap16(s.txSeq + |frames|) by {
        WrapAdd(s.txSeq + 1, |frames| - 1);
      }
    }
  }

  /** One step of `SendAll` on a sendable link: the first frame goes out,
      the link stays sendable, and the counter moves on by one. */
  lemma SendStep(s: Session, frames: seq<Bytes>)
    requires CanSend(s) && frames != []
    ensures var r := SendAudioFrame(s, frames[0]);
      && CanSend(r.0)
      && r.0.txSeq == Wrap16(s.txSeq + 1)
      && SendAll(s, frames) == (SendAll(r.0, frames[1..]).0, [AudioPacket(frames[0], s.txSeq)] + SendAll(r.0, frames[1..]).1)
  {
    var r := SendAudioFrame(s, frames[0]);
    assert r.0.(txSeq := s.txSeq, metrics := s.metrics) == s;
  }

  /** A ping payload: direction 0 asks for an echo, direction 1 is an echo
      whose timestamp gives the round trip. `decodeStamp` turns the 8-byte
      big-endian double into seconds; `now` is the clock. A request is
      answered only while the session is active and has a link. */
  function HandlePing(s: Session, payload: Bytes, decodeStamp: Bytes -> real, now: real): (r: (Session, seq<Effect>))
    ensures |payload| < 9 ==> r == (s, [])
    ensures |payload| >= 9 && payload[0] == 0 ==> r.0 == s
    ensures |payload| >= 9 && payload[0] == 0 && s.active && s.link.Some? ==>
      r.1 == [Send([PacketPing, 1] + payload[1..9])]
    ensures |payload| >= 9 && payload[0] == 0 && !(s.active && s.link.Some?) ==> r.1 == []
    ensures |payload| >= 9 && payload[0] == 1 ==>
      r == (s.(metrics := RecordRtt(s.metrics, (now - decodeStamp(payload[1..9])) * 1000.0)), [])
    ensures |payload| >= 9 && payload[0] > 1 ==> r == (s, [])
  {
    if |payload| < 9 then (s, [])
    else if payload[0] == 0 then
      var framed := Frame(PacketPing, [1] + payload[1..9], None).value;
      assert framed == [PacketPing, 1] + payload[1..9];
      if s.active && s.link.Some? then (s, [Send(framed)]) else (s, [])
    else if payload[0] == 1 then
      (s.(metrics := RecordRtt(s.metrics, (now - decodeStamp(payload[1..9])) * 1000.0)), [])
    else (s, [])
  }

  /** An echo reply carries back exactly the 8 timestamp bytes it was asked
      with, so the requester can compute the round trip from its own stamp. */
  lemma PingEcho(s: Session, stamp: Bytes, decodeStamp: Bytes -> real, now: real)
    requires |stamp| == 8 && s.active && s.link.Some?
    ensures var reply := HandlePing(s, [0] + stamp, decodeStamp, now).1;
      && |reply| == 1 && reply[0].Send?
      && Parse(reply[0].packet) == Ok(Parsed(PacketPing, [1] + stamp, None))
  {
    var payload: Bytes := [0] + stamp;
    assert payload[1..9] == stamp;
    OtherRoundTrip(PacketPing, [1] + stamp, None);
  }

  /** Raw bytes from the link: unparseable data is dropped; audio updates
      loss accounting (counting the whole packet's length), pings go to the
      ping handler, control and unknown types change nothing. */
  function OnLinkData(s: Session, data: Bytes, decodeStamp: Bytes -> real, now: real): (r: (Session, seq<Effect>))
    ensures data == [] ==> r == (s, [])
    ensures data != [] && data[0] == PacketAudio && |data| >= 3 ==>
      r == (s.(metrics := RecordPacketReceived(s.metrics, FromBigEndian16(data[1], data[2]), |data|)), [])
    ensures data != [] && data[0] == PacketAudio && |data| < 3 ==> r == (s, [])
    ensures data != [] && data[0] == PacketPing ==> r == HandlePing(s, data[1..], decodeStamp, now)
    ensures data != [] && data[0] != PacketAudio && data[0] != PacketPing ==> r == (s, [])
  {
    match Parse(data)
    case Err(_) => (s, [])
    case Ok(p) =>
      if p.packetType == PacketAudio then
        if p.seqNo.Some? then (s.(metrics := RecordPacketReceived(s.metrics, p.seqNo.value, |data|)), [])
        else (s, [])
      else if p.packetType == PacketPing then HandlePing(s, p.payload, decodeStamp, now)
      else (s, [])
  }

  /** The link events a live session reacts to. */
  datatype LinkEvent =
    | Timeout
    | Established(l: Link, stamp: Bytes)
    | Incoming(l: Link, stamp: Bytes)
    | Closed
    | SendFrame(frame: Bytes)
    | Data(data: Bytes)

  function ApplyEvent(s: Session, e: LinkEvent, sha256: Bytes -> Digest, decodeStamp: Bytes -> real, now: real): Session {
    match e
    case Timeout => OnLinkTimeout(s).0
    case Established(l, stamp) => if |stamp| == 8 then OnLinkEstablished(s, l, sha256, stamp).0 else s
    case Incoming(l, stamp) => if |stamp| == 8 then OnIncomingLink(s, l, sha256, stamp).0 else s
    case Closed => OnLinkClosed(s)
    case SendFrame(f) => SendAudioFrame(s, f).0
    case Data(d) => OnLinkData(s, d, decodeStamp, now).0
  }

  /** Starting the handshake on a fresh session leaves it coherent, and every
      link event keeps it so. */
  lemma InitiateCoherent(call: CallState.CallInfo, created: Option<Link>)
    ensures Coherent(InitiateLink(NewSession(call), created))
  {
  }

  lemma EventKeepsCoherent(s: Session, e: LinkEvent, sha256: Bytes -> Digest, decodeStamp: Bytes -> real, now: real)
    requires Coherent(s)
    ensures Coherent(ApplyEvent(s, e, sha256, decodeStamp, now))
  {
  }
}
