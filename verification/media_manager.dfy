/** The process-wide media manager: at most one media session, tied to the
    call id it serves, plus whether the transport client's inbound-link hook
    points at the manager. */
module MediaManager {
  import opened Basics
  import opened Sas
  import opened MediaSession
  import CallState

  datatype Manager = Manager(activeCallId: Option<string>, session: Option<Session>, hooked: bool)

  const Empty := Manager(None, None, false)

  /** The call id and the session come and go together and agree. */
  predicate Consistent(m: Manager) {
    && (m.session.Some? <==> m.activeCallId.Some?)
    && (m.session.Some? ==> m.activeCallId.value == m.session.value.callId)
  }

  /** Closes the session (if any), tears down its link (if any), and clears
      every field. */
  function StopSession(m: Manager): (r: (Manager, seq<Effect>))
    ensures r.0 == Empty
    ensures m.session.None? || m.session.value.link.None? ==> r.1 == []
    ensures m.session.Some? && m.session.value.link.Some? ==> r.1 == [Teardown(m.session.value.link.value.id)]
  {
    if m.session.Some? && m.session.value.link.Some? then (Empty, [Teardown(m.session.value.link.value.id)])
    else (Empty, [])
  }

  /** Stopping twice is stopping once: the second stop finds nothing to
      close. */
  lemma StopIdempotent(m: Manager)
    ensures StopSession(StopSession(m).0) == (StopSession(m).0, [])
  {
  }

  /** Starts a session for `call`, first stopping any existing one; the new
      session begins its handshake with the link the transport created.
      `hasHook` says whether the client exposes the inbound-link hook. */
  function StartSession(m: Manager, call: CallState.CallInfo, created: Option<Link>, hasHook: bool): (r: (Manager, seq<Effect>))
    ensures Consistent(r.0)
    ensures r.0.activeCallId == Some(call.callId)
    ensures r.0.session == Some(InitiateLink(NewSession(call), created))
    ensures r.0.hooked == hasHook
    ensures m.session.Some? ==> r.1 == StopSession(m).1
    ensures m.session.None? ==> r.1 == []
  {
    var (stopped, effects) := if m.session.Some? then StopSession(m) else (m, []);
    (Manager(Some(call.callId), Some(InitiateLink(NewSession(call), created)), hasHook), effects)
  }

  /** The outcome of `start_session` as the source writes it: the manager
      and effects left behind, and the exception that escaped, if any. */
  datatype Started = Started(manager: Manager, effects: seq<Effect>, raised: Option<Raised>)

  /** `start_session` over the source's handshake. When the handshake raises,
      the stop has happened and the new call id and fresh session are already
      stored, but the inbound-link hook is never installed and the caller
      sees the exception. Otherwise it is `StartSession`. */
  function StartSessionAsWritten(m: Manager, call: CallState.CallInfo, created: Option<Link>, hasHook: bool): (r: Started)
    ensures Consistent(r.manager) && r.manager.activeCallId == Some(call.callId)
    ensures r.effects == (if m.session.Some? then StopSession(m).1 else [])
    ensures r.raised.Some? <==> call.initiatedByLocal && Truthy(call.remoteMediaDest) && !Truthy(call.remoteIdentityKey)
    ensures r.raised.Some? ==> r.manager.session == Some(NewSession(call))
    ensures r.raised.Some? ==> r.manager.hooked == (m.session.None? && m.hooked)
    ensures r.raised.None? ==> (r.manager, r.effects) == StartSession(m, call, created, hasHook)
  {
    var (stopped, effects) := if m.session.Some? then StopSession(m) else (m, []);
    match InitiateLinkAsWritten(NewSession(call), created)
    case Err(e) => Started(Manager(Some(call.callId), Some(NewSession(call)), stopped.hooked), effects, Some(e))
    case Ok(s) => Started(Manager(Some(call.callId), Some(s), hasHook), effects, None)
  }

  /** Replacing a live call with an outgoing call to a peer whose identity
      key is unknown: the source raises and leaves the new session without
      the hook, where the intended start installs it and raises nothing. */
  lemma StartRaisesWithoutHook(m: Manager, call: CallState.CallInfo, created: Option<Link>)
    requires m.session.Some?
    requires call.initiatedByLocal && Truthy(call.remoteMediaDest) && !Truthy(call.remoteIdentityKey)
    ensures var r := StartSessionAsWritten(m, call, created, true);
      r.raised == Some(AttributeError) && !r.manager.hooked
    ensures StartSession(m, call, created, true).0.hooked
  {
  }

  /** An inbound media link: with no session it is closed; otherwise the
      session decides whether to adopt it. */
  function HandleIncomingLink(m: Manager, l: Link, sha256: Bytes -> Digest, stamp: Bytes): (r: (Manager, seq<Effect>))
    requires |stamp| == 8
    ensures m.session.None? ==> r == (m, [Close(l.id)])
    ensures m.session.Some? ==> r.0.activeCallId == m.activeCallId && r.0.hooked == m.hooked
    ensures m.session.Some? ==> r.0.session.Some? && (r.0.session.value, r.1) == OnIncomingLink(m.session.value, l, sha256, stamp)
    ensures Consistent(m) ==> Consistent(r.0)
  {
    if m.session.None? then (m, [Close(l.id)])
    else
      var (s', effects) := OnIncomingLink(m.session.value, l, sha256, stamp);
      (m.(session := Some(s')), effects)
  }

  /** Marks the active session's SAS as verified; without a session nothing
      happens. */
  function VerifySas(m: Manager): (r: Manager)
    ensures m.session.None? ==> r == m
    ensures m.session.Some? ==> r.session == Some(m.session.value.(sasVerified := true))
    ensures r.activeCallId == m.activeCallId && r.hooked == m.hooked
  {
    if m.session.None? then m else m.(session := Some(m.session.value.(sasVerified := true)))
  }

  datatype Command =
    | Start(call: CallState.CallInfo, created: Option<Link>, hasHook: bool)
    | Stop
    | IncomingLink(l: Link, stamp: Bytes)
    | Verify

  function Apply(m: Manager, c: Command, sha256: Bytes -> Digest): Manager {
    match c
    case Start(call, created, hasHook) => StartSession(m, call, created, hasHook).0
    case Stop => StopSession(m).0
    case IncomingLink(l, stamp) => if |stamp| == 8 then HandleIncomingLink(m, l, sha256, stamp).0 else m
    case Verify => VerifySas(m)
  }

  function Run(m: Manager, cs: seq<Command>, sha256: Bytes -> Digest): Manager
    decreases |cs|
  {
    if cs == [] then m else Run(Apply(m, cs[0], sha256), cs[1..], sha256)
  }

  /** The single-session rule: from an empty manager, any sequence of
      commands leaves at most one session, and it belongs to the call the
      manager reports. */
  lemma {:induction false} RunConsistent(m: Manager, cs: seq<Command>, sha256: Bytes -> Digest)
    requires Consistent(m)
    ensures Consistent(Run(m, cs, sha256))
    decreases |cs|
  {
    if cs != [] {
      RunConsistent(Apply(m, cs[0], sha256), cs[1..], sha256);
    }
  }

  /** Starting a second call while one is live tears down the first call's
      link before the new session exists, and only the new session
      remains. */
  lemma SecondStartReplacesFirst(m: Manager, call: CallState.CallInfo, created: Option<Link>, hasHook: bool)
    requires m.session.Some? && m.session.value.link.Some?
    ensures var (m', effects) := StartSession(m, call, created, hasHook);
      && effects == [Teardown(m.session.value.link.value.id)]
      && m'.session.value.callId == call.callId
      && !m'.session.value.active
  {
  }

  /** Verification touches only the active session's SAS flag. */
  lemma VerifyOnlyFlag(m: Manager)
    requires m.session.Some?
    ensures VerifySas(m).session.value.(sasVerified := m.session.value.sasVerified) == m.session.value
    ensures VerifySas(m).session.value.sasVerified
  {
  }
}
