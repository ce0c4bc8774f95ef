/** The signaling message model: the message record, its mapping to and
    from the JSON object sent on the wire, codec negotiation, and the
    builders for each message kind. */
module Signaling {
  import opened Basics

  /** The message kinds. The type field is a plain string on the wire and
      `from_payload` does not check it, so it stays a string here. */
  const CallInvite := "CALL_INVITE"
  const CallRinging := "CALL_RINGING"
  const CallAccept := "CALL_ACCEPT"
  const CallReject := "CALL_REJECT"
  const CallEnd := "CALL_END"
  const PresenceAnnounce := "PRESENCE_ANNOUNCE"

  datatype CallMessage = CallMessage(
    msgType: string,
    callId: string,
    fromId: string,
    toId: string,
    displayName: Option<string>,
    callDest: Option<string>,
    callIdentityKey: Option<string>,
    codecType: Option<string>,
    codecBitrate: Option<int>,
    timestamp: real)

  /** The optional string fields all survive the wire only when they are
      absent or non-empty: an empty string is dropped by `to_payload`. */
  predicate NoEmptyOptionals(m: CallMessage) {
    && m.displayName != Some("")
    && m.callDest != Some("")
    && m.callIdentityKey != Some("")
    && m.codecType != Some("")
  }

  /** The keys of the JSON object a message travels as. `from_payload`
      ignores every other key, so a payload is a map over these. */
  datatype Field =
    | Type | CallId | From | To | DisplayName | CallDest | CallIdentityKey
    | CodecType | CodecBitrate | Timestamp
    | MediaDest | MediaIdentityKey  // legacy spellings still read

  /** The JSON key each field is written under. */
  function WireName(f: Field): string {
    match f
    case Type => "type"
    case CallId => "call_id"
    case From => "from"
    case To => "to"
    case DisplayName => "display_name"
    case CallDest => "call_dest"
    case CallIdentityKey => "call_identity_key"
    case CodecType => "codec_type"
    case CodecBitrate => "codec_bitrate"
    case Timestamp => "timestamp"
    case MediaDest => "media_dest"
    case MediaIdentityKey => "media_identity_key"
  }

  type Payload = map<Field, Value>

  const AllFields: set<Field> :=
    {Type, CallId, From, To, DisplayName, CallDest, CallIdentityKey,
     CodecType, CodecBitrate, Timestamp, MediaDest, MediaIdentityKey}

  /** A truthy optional string as a JSON string; anything else is left out. */
  function StrIfTruthy(v: Option<string>): Option<Value> {
    if Truthy(v) then Some(Str(v.value)) else None
  }

  /** What `to_payload` writes under one key, if anything. */
  function Written(m: CallMessage, f: Field): Option<Value> {
    match f
    case Type => Some(Str(m.msgType))
    case CallId => Some(Str(m.callId))
    case From => Some(Str(m.fromId))
    case To => Some(Str(m.toId))
    case DisplayName => StrIfTruthy(m.displayName)
    case CallDest => StrIfTruthy(m.callDest)
    case CallIdentityKey => StrIfTruthy(m.callIdentityKey)
    case CodecType => StrIfTruthy(m.codecType)
    case CodecBitrate => if m.codecBitrate.Some? then Some(Int(m.codecBitrate.value)) else None
    case Timestamp => if m.timestamp != 0.0 then Some(Num(m.timestamp)) else None
    case MediaDest => None
    case MediaIdentityKey => None
  }

  function ToPayload(m: CallMessage): (p: Payload)
    ensures Type in p && CallId in p && From in p && To in p
    ensures p[Type] == Str(m.msgType) && p[CallId] == Str(m.callId)
    ensures p[From] == Str(m.fromId) && p[To] == Str(m.toId)
    ensures DisplayName in p <==> Truthy(m.displayName)
    ensures CallDest in p <==> Truthy(m.callDest)
    ensures CallIdentityKey in p <==> Truthy(m.callIdentityKey)
    ensures CodecType in p <==> Truthy(m.codecType)
    ensures CodecBitrate in p <==> m.codecBitrate.Some?
    ensures Timestamp in p <==> m.timestamp != 0.0
    ensures MediaDest !in p && MediaIdentityKey !in p
  {
    map f | f in AllFields && Written(m, f).Some? :: Written(m, f).value
  }

  /** A payload that could not be read; names the offending key. */
  datatype ProtocolError = Missing(key: Field) | WrongType(key: Field)

  /** A required string field: absent raises `KeyError`. */
  function Required(p: Payload, key: Field): (r: Result<string, ProtocolError>)
    ensures r.Ok? <==> key in p && p[key].Str?
    ensures r.Ok? ==> r.value == p[key].s
  {
    if key !in p then Err(Missing(key))
    else if p[key].Str? then Ok(p[key].s)
    else Err(WrongType(key))
  }

  /** An optional string field. */
  function Optional(p: Payload, key: Field): Result<Option<string>, ProtocolError> {
    match GetStr(p, key)
    case Ok(v) => Ok(v)
    case Err(k) => Err(WrongType(k))
  }

  /** `a or b` on optional strings: the first when it is truthy, else the second. */
  function OrElse(a: Option<string>, b: Option<string>): Option<string> {
    if Truthy(a) then a else b
  }

  /** The timestamp: absent reads as 0.0, a JSON integer is widened. */
  function ReadTimestamp(p: Payload): Result<real, ProtocolError> {
    if Timestamp !in p then Ok(0.0)
    else match p[Timestamp]
      case Num(x) => Ok(x)
      case Int(i) => Ok(i as real)
      case _ => Err(WrongType(Timestamp))
  }

  /** The optional integer bitrate. */
  function ReadBitrate(p: Payload): Result<Option<int>, ProtocolError> {
    if CodecBitrate !in p then Ok(None)
    else match p[CodecBitrate]
      case Null => Ok(None)
      case Int(i) => Ok(Some(i))
      case _ => Err(WrongType(CodecBitrate))
  }

  function FromPayload(p: Payload): (r: Result<CallMessage, ProtocolError>)
    ensures (forall k :: k in [Type, CallId, From, To] ==> k in p && p[k].Str?) || r.Err?
    ensures Type !in p ==> r == Err(Missing(Type))
  {
    var t :- Required(p, Type);
    var c :- Required(p, CallId);
    var f :- Required(p, From);
    var to :- Required(p, To);
    var dest :- Optional(p, CallDest);
    var legacyDest :- Optional(p, MediaDest);
    var key :- Optional(p, CallIdentityKey);
    var legacyKey :- Optional(p, MediaIdentityKey);
    var name :- Optional(p, DisplayName);
    var codec :- Optional(p, CodecType);
    var rate :- ReadBitrate(p);
    var ts :- ReadTimestamp(p);
    Ok(CallMessage(t, c, f, to, name, OrElse(dest, legacyDest), OrElse(key, legacyKey), codec, rate, ts))
  }

  /** Reading back what was written gives the same message, provided no
      optional string was the empty string (those are dropped on the wire). */
  lemma RoundTrip(m: CallMessage)
    requires NoEmptyOptionals(m)
    ensures FromPayload(ToPayload(m)) == Ok(m)
  {
  }

  /** The dropped empty strings are exactly what the round trip loses: they
      come back absent, and nothing else changes. */
  lemma RoundTripDropsEmptyStrings(m: CallMessage)
    ensures FromPayload(ToPayload(m)) == Ok(m.(
      displayName := if Truthy(m.displayName) then m.displayName else None,
      callDest := if Truthy(m.callDest) then m.callDest else None,
      callIdentityKey := if Truthy(m.callIdentityKey) then m.callIdentityKey else None,
      codecType := if Truthy(m.codecType) then m.codecType else None))
  {
  }

  /** Older peers send `media_dest` and `media_identity_key`; they are used
      whenever the current key is absent, null or empty. */
  lemma LegacyKeysFallback(p: Payload)
    requires FromPayload(p).Ok?
    ensures var r := FromPayload(p).value;
      && (!Truthy(GetStr(p, CallDest).value) ==> r.callDest == GetStr(p, MediaDest).value)
      && (Truthy(GetStr(p, CallDest).value) ==> r.callDest == GetStr(p, CallDest).value)
      && (!Truthy(GetStr(p, CallIdentityKey).value) ==> r.callIdentityKey == GetStr(p, MediaIdentityKey).value)
      && (Truthy(GetStr(p, CallIdentityKey).value) ==> r.callIdentityKey == GetStr(p, CallIdentityKey).value)
  {
  }

  const Opus := "opus"
  const Codec2 := "codec2"

  /** The fallback rate used for a codec this system does not know. */
  const FallbackBitrate := 24000

  /** Puts a codec's bitrate-or-mode on a bits-per-second scale. Both known
      codecs already use bits per second (a Codec2 mode is its bitrate). */
  function NormalizeCodecBitrate(codecType: string, bitrateOrMode: int): (bps: int)
    ensures codecType == Opus || codecType == Codec2 ==> bps == bitrateOrMode
    ensures codecType != Opus && codecType != Codec2 ==> bps == FallbackBitrate
  {
    if codecType == Opus then bitrateOrMode
    else if codecType == Codec2 then bitrateOrMode
    else FallbackBitrate
  }

  /** Chooses the (codec, bitrate) pair a call uses from both peers' offers. */
  function NegotiateCodec(localCodec: string, localBitrate: int,
                          remoteCodec: Option<string>, remoteBitrate: Option<int>): (r: (string, int))
    // An offer the remote does not fully state is ignored.
    ensures remoteCodec.None? || remoteBitrate.None? ==> r == (localCodec, localBitrate)
    // The result is always one of the two offers.
    ensures r == (localCodec, localBitrate)
         || (remoteCodec.Some? && remoteBitrate.Some? && r == (remoteCodec.value, remoteBitrate.value))
  {
    if remoteCodec.None? || remoteBitrate.None? then (localCodec, localBitrate)
    else
      var localBps := NormalizeCodecBitrate(localCodec, localBitrate);
      var remoteBps := NormalizeCodecBitrate(remoteCodec.value, remoteBitrate.value);
      if localCodec == Codec2 && remoteCodec.value == Opus then (localCodec, localBitrate)
      else if remoteCodec.value == Codec2 && localCodec == Opus then (remoteCodec.value, remoteBitrate.value)
      else if localBps <= remoteBps then (localCodec, localBitrate)
      else (remoteCodec.value, remoteBitrate.value)
  }

  /** Bandwidth-first policy: against Opus, the Codec2 side's offer wins
      whatever the two bitrates are. */
  lemma Codec2BeatsOpus(localBitrate: int, remoteBitrate: int)
    ensures NegotiateCodec(Codec2, localBitrate, Some(Opus), Some(remoteBitrate)) == (Codec2, localBitrate)
    ensures NegotiateCodec(Opus, localBitrate, Some(Codec2), Some(remoteBitrate)) == (Codec2, remoteBitrate)
  {
  }

  /** Outside the Codec2-versus-Opus case the lower normalized bitrate wins,
      ties going to the local offer. */
  lemma LowerBitrateWins(localCodec: string, localBitrate: int, remoteCodec: string, remoteBitrate: int)
    requires !(localCodec == Codec2 && remoteCodec == Opus) && !(localCodec == Opus && remoteCodec == Codec2)
    ensures var r := NegotiateCodec(localCodec, localBitrate, Some(remoteCodec), Some(remoteBitrate));
      var lb := NormalizeCodecBitrate(localCodec, localBitrate);
      var rb := NormalizeCodecBitrate(remoteCodec, remoteBitrate);
      && (lb <= rb ==> r == (localCodec, localBitrate))
      && (lb > rb ==> r == (remoteCodec, remoteBitrate))
      && NormalizeCodecBitrate(r.0, r.1) == if lb <= rb then lb else rb
  {
  }

  /** The worked examples of the negotiation policy. */
  lemma NegotiationExamples()
    ensures NegotiateCodec(Codec2, 1200, Some(Opus), Some(64000)) == (Codec2, 1200)
    ensures NegotiateCodec(Opus, 64000, Some(Codec2), Some(700)) == (Codec2, 700)
    ensures NegotiateCodec(Opus, 32000, Some(Opus), Some(16000)) == (Opus, 16000)
  {
  }

  /** `call_id or new_call_id()`: a supplied non-empty id, else a fresh one. */
  function ChooseCallId(callId: Option<string>, freshId: string): (id: string)
    ensures Truthy(callId) ==> id == callId.value
    ensures !Truthy(callId) ==> id == freshId
  {
    if Truthy(callId) then callId.value else freshId
  }

  function BuildInvite(fromId: string, toId: string, displayName: Option<string>,
                       callDest: Option<string>, callIdentityKey: Option<string>,
                       codecType: Option<string>, codecBitrate: Option<int>,
                       callId: Option<string>, freshId: string, now: real): (m: CallMessage)
    ensures m.msgType == CallInvite && m.fromId == fromId && m.toId == toId
    ensures m.callId == ChooseCallId(callId, freshId)
    ensures m.displayName == displayName && m.callDest == callDest && m.callIdentityKey == callIdentityKey
    ensures m.codecType == codecType && m.codecBitrate == codecBitrate && m.timestamp == now
  {
    CallMessage(CallInvite, ChooseCallId(callId, freshId), fromId, toId, displayName,
                callDest, callIdentityKey, codecType, codecBitrate, now)
  }

  function BuildAccept(fromId: string, toId: string, callId: string,
                       callDest: Option<string>, callIdentityKey: Option<string>,
                       codecType: Option<string>, codecBitrate: Option<int>, now: real): (m: CallMessage)
    ensures m.msgType == CallAccept && m.callId == callId && m.fromId == fromId && m.toId == toId
    ensures m.displayName.None? && m.callDest == callDest && m.callIdentityKey == callIdentityKey
    ensures m.codecType == codecType && m.codecBitrate == codecBitrate && m.timestamp == now
  {
    CallMessage(CallAccept, callId, fromId, toId, None, callDest, callIdentityKey, codecType, codecBitrate, now)
  }

  /** A message that carries only its kind, the call, the two ends and the time. */
  predicate Bare(m: CallMessage) {
    m.displayName.None? && m.callDest.None? && m.callIdentityKey.None?
    && m.codecType.None? && m.codecBitrate.None?
  }

  function BuildReject(fromId: string, toId: string, callId: string, now: real): (m: CallMessage)
    ensures m.msgType == CallReject && m.callId == callId && m.fromId == fromId && m.toId == toId
    ensures Bare(m) && m.timestamp == now
  {
    CallMessage(CallReject, callId, fromId, toId, None, None, None, None, None, now)
  }

  function BuildEnd(fromId: string, toId: string, callId: string, now: real): (m: CallMessage)
    ensures m.msgType == CallEnd && m.callId == callId && m.fromId == fromId && m.toId == toId
    ensures Bare(m) && m.timestamp == now
  {
    CallMessage(CallEnd, callId, fromId, toId, None, None, None, None, None, now)
  }

  /** A presence broadcast: no call and no recipient. */
  function BuildAnnounce(fromId: string, displayName: Option<string>,
                         callDest: Option<string>, callIdentityKey: Option<string>, now: real): (m: CallMessage)
    ensures m.msgType == PresenceAnnounce && m.callId == "" && m.toId == "" && m.fromId == fromId
    ensures m.displayName == displayName && m.callDest == callDest && m.callIdentityKey == callIdentityKey
    ensures m.codecType.None? && m.codecBitrate.None? && m.timestamp == now
  {
    CallMessage(PresenceAnnounce, "", fromId, toId := "", displayName := displayName, callDest := callDest,
                callIdentityKey := callIdentityKey, codecType := None, codecBitrate := None, timestamp := now)
  }

  /** What the builders produce survives the wire: reject and end messages
      always, invites and announces whenever their optional strings are
      absent or non-empty. */
  lemma BuiltMessagesTravel(fromId: string, toId: string, callId: string, name: Option<string>,
                            dest: Option<string>, key: Option<string>, codec: Option<string>,
                            rate: Option<int>, freshId: string, now: real)
    ensures var m := BuildReject(fromId, toId, callId, now); FromPayload(ToPayload(m)) == Ok(m)
    ensures var m := BuildEnd(fromId, toId, callId, now); FromPayload(ToPayload(m)) == Ok(m)
    ensures name != Some("") && dest != Some("") && key != Some("") && codec != Some("") ==>
      var m := BuildInvite(fromId, toId, name, dest, key, codec, rate, Some(callId), freshId, now);
      FromPayload(ToPayload(m)) == Ok(m)
    ensures name != Some("") && dest != Some("") && key != Some("") ==>
      var m := BuildAnnounce(fromId, name, dest, key, now);
      FromPayload(ToPayload(m)) == Ok(m)
  {
    RoundTrip(BuildReject(fromId, toId, callId, now));
    RoundTrip(BuildEnd(fromId, toId, callId, now));
    if name != Some("") && dest != Some("") && key != Some("") && codec != Some("") {
      RoundTrip(BuildInvite(fromId, toId, name, dest, key, codec, rate, Some(callId), freshId, now));
    }
    if name != Some("") && dest != Some("") && key != Some("") {
      RoundTrip(BuildAnnounce(fromId, name, dest, key, now));
    }
  }
}
