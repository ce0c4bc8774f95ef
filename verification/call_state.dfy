/** The single-call phase tracker. Every public operation is a pure step
    from one machine to the next; the observer callback is modelled by the
    sequence of notices the step emits, in the order the observer sees them. */
module CallState {
  import opened Basics

  datatype Phase = Idle | OutgoingCall | Ringing | IncomingCall | InCall | Ended

  datatype CallInfo = CallInfo(
    callId: string,
    localId: string,
    remoteId: string,
    displayName: Option<string>,
    initiatedByLocal: bool,
    remoteMediaDest: Option<string>,
    remoteIdentityKey: Option<string>,
    negotiatedCodecType: Option<string>,
    negotiatedCodecBitrate: Option<int>)

  datatype Machine = Machine(phase: Phase, current: Option<CallInfo>)

  /** One call of the observer: the phase just entered and the call attached at that moment. */
  datatype Notice = Notice(phase: Phase, call: Option<CallInfo>)

  /** The machine after an operation and everything the observer was told. */
  datatype Step = Step(machine: Machine, notices: seq<Notice>)

  /** The guard violations the source raises as `RuntimeError`. */
  datatype CallError = CallBusy | NoIncomingCall

  const Initial := Machine(Idle, None)

  /** The machine's invariant between operations: ENDED is never observable
      from outside, and a call record exists exactly when the phase is not IDLE. */
  predicate Valid(m: Machine) {
    m.phase != Ended && (m.phase == Idle <==> m.current.None?)
  }

  /** No change and no notification. */
  function Unchanged(m: Machine): Step {
    Step(m, [])
  }

  /** Finishing a call: ENDED is announced with the finished call still
      attached, then the record is dropped and IDLE is announced. */
  function Finish(m: Machine): (r: Step)
    ensures r.machine == Initial
    ensures r.notices == [Notice(Ended, m.current), Notice(Idle, None)]
  {
    Step(Initial, [Notice(Ended, m.current), Notice(Idle, None)])
  }

  function StartOutgoingCall(m: Machine, localId: string, remoteId: string,
                             callId: Option<string>, freshId: string): (r: Result<Step, CallError>)
    ensures r.Ok? <==> m.phase == Idle || m.phase == Ended
    ensures r.Err? ==> r.error == CallBusy
    ensures r.Ok? ==>
      var c := r.value.machine.current;
      && r.value.machine.phase == OutgoingCall
      && c.Some?
      && c.value.initiatedByLocal
      && c.value.localId == localId && c.value.remoteId == remoteId
      && (Truthy(callId) ==> c.value.callId == callId.value)
      && (!Truthy(callId) ==> c.value.callId == freshId)
      && c.value.remoteMediaDest.None? && c.value.remoteIdentityKey.None?
      && r.value.notices == [Notice(OutgoingCall, c)]
  {
    if m.phase != Idle && m.phase != Ended then Err(CallBusy)
    else
      var id := if Truthy(callId) then callId.value else freshId;
      var call := CallInfo(id, localId, remoteId, None, true, None, None, None, None);
      Ok(Step(Machine(OutgoingCall, Some(call)), [Notice(OutgoingCall, Some(call))]))
  }

  function MarkRinging(m: Machine): (r: Step)
    ensures m.phase == OutgoingCall ==> r == Step(Machine(Ringing, m.current), [Notice(Ringing, m.current)])
    ensures m.phase != OutgoingCall ==> r == Unchanged(m)
  {
    if m.phase == OutgoingCall then Step(m.(phase := Ringing), [Notice(Ringing, m.current)])
    else Unchanged(m)
  }

  /** Returns whether the invite was taken; a busy machine refuses it untouched
      so that the caller can answer with a reject. */
  function ReceiveIncomingInvite(m: Machine, call: CallInfo): (r: (bool, Step))
    ensures r.0 <==> m.phase == Idle || m.phase == Ended
    ensures !r.0 ==> r.1 == Unchanged(m)
    ensures r.0 ==> r.1 == Step(Machine(IncomingCall, Some(call)), [Notice(IncomingCall, Some(call))])
  {
    if m.phase != Idle && m.phase != Ended then (false, Unchanged(m))
    else (true, Step(Machine(IncomingCall, Some(call)), [Notice(IncomingCall, Some(call))]))
  }

  function AcceptCurrentCall(m: Machine): (r: Result<Step, CallError>)
    ensures r.Ok? <==> m.phase == IncomingCall && m.current.Some?
    ensures r.Err? ==> r.error == NoIncomingCall
    ensures r.Ok? ==> r.value.machine == Machine(InCall, m.current)
    ensures r.Ok? ==> r.value.notices == [Notice(InCall, m.current)]
  {
    if m.phase != IncomingCall || m.current.None? then Err(NoIncomingCall)
    else Ok(Step(m.(phase := InCall), [Notice(InCall, m.current)]))
  }

  function RejectCurrentCall(m: Machine): (r: Result<Step, CallError>)
    ensures r.Ok? <==> m.phase == IncomingCall && m.current.Some?
    ensures r.Err? ==> r.error == NoIncomingCall
    ensures r.Ok? ==> r.value == Finish(m)
  {
    if m.phase != IncomingCall || m.current.None? then Err(NoIncomingCall)
    else Ok(Finish(m))
  }

  /** True when `callId` names the call the machine is tracking. */
  predicate IsCurrent(m: Machine, callId: string) {
    m.current.Some? && m.current.value.callId == callId
  }

  function MarkRemoteAccepted(m: Machine, callId: string,
                              remoteMediaDest: Option<string>, remoteIdentityKey: Option<string>): (r: Step)
    ensures !IsCurrent(m, callId) ==> r == Unchanged(m)
    ensures IsCurrent(m, callId) ==>
      var before := m.current.value;
      var c := r.machine.current;
      && r.machine.phase == InCall
      && c.Some?
      && c.value.remoteMediaDest == (if Truthy(remoteMediaDest) then remoteMediaDest else before.remoteMediaDest)
      && c.value.remoteIdentityKey == (if Truthy(remoteIdentityKey) then remoteIdentityKey else before.remoteIdentityKey)
      && c.value.(remoteMediaDest := before.remoteMediaDest, remoteIdentityKey := before.remoteIdentityKey) == before
      && r.notices == [Notice(InCall, c)]
  {
    if !IsCurrent(m, callId) then Unchanged(m)
    else
      var c0 := m.current.value;
      var c1 := if Truthy(remoteMediaDest) then c0.(remoteMediaDest := remoteMediaDest) else c0;
      var c2 := if Truthy(remoteIdentityKey) then c1.(remoteIdentityKey := remoteIdentityKey) else c1;
      Step(Machine(InCall, Some(c2)), [Notice(InCall, Some(c2))])
  }

  /** `mark_remote_rejected` and `remote_ended`, which behave alike: a
      call id other than the current call's is ignored; the current call
      is finished, announced as ENDED with its record and then as IDLE. */
  function FinishIfCurrent(m: Machine, callId: string): (r: Step)
    ensures !IsCurrent(m, callId) ==> r == Unchanged(m)
    ensures IsCurrent(m, callId) ==>
      && r.machine.phase == Idle && r.machine.current.None?
      && r.notices == [Notice(Ended, m.current), Notice(Idle, None)]
      && r.notices[0].call.value.callId == callId
  {
    if !IsCurrent(m, callId) then Unchanged(m) else Finish(m)
  }

  function EndCall(m: Machine): (r: Step)
    ensures m.current.None? ==> r == Unchanged(m)
    ensures m.current.Some? ==> r == Finish(m)
  {
    if m.current.None? then Unchanged(m) else Finish(m)
  }

  /** Every public operation, as an event fed to the machine. */
  datatype Event =
    | StartOutgoing(localId: string, remoteId: string, callId: Option<string>, freshId: string)
    | Ring
    | Invite(call: CallInfo)
    | Accept
    | Reject
    | RemoteAccepted(acceptedId: string, dest: Option<string>, key: Option<string>)
    | RemoteRejected(rejectedId: string)
    | RemoteEnd(endedId: string)
    | Hangup

  /** Applies one event; a raised guard violation leaves the machine as it was. */
  function Apply(m: Machine, e: Event): Step {
    match e
    case StartOutgoing(l, rid, cid, newId) =>
      (match StartOutgoingCall(m, l, rid, cid, newId) case Ok(s) => s case Err(_) => Unchanged(m))
    case Ring => MarkRinging(m)
    case Invite(c) => ReceiveIncomingInvite(m, c).1
    case Accept => (match AcceptCurrentCall(m) case Ok(s) => s case Err(_) => Unchanged(m))
    case Reject => (match RejectCurrentCall(m) case Ok(s) => s case Err(_) => Unchanged(m))
    case RemoteAccepted(id, d, k) => MarkRemoteAccepted(m, id, d, k)
    case RemoteRejected(id) => FinishIfCurrent(m, id)
    case RemoteEnd(id) => FinishIfCurrent(m, id)
    case Hangup => EndCall(m)
  }

  /** The machine after a whole history of events. */
  function Run(m: Machine, es: seq<Event>): Machine
    decreases |es|
  {
    if es == [] then m else Run(Apply(m, es[0]).machine, es[1..])
  }

  /** Every operation keeps the invariant, and the observer's last notice
      always describes the state the machine is left in. */
  lemma ApplyKeepsValid(m: Machine, e: Event)
    requires Valid(m)
    ensures Valid(Apply(m, e).machine)
    ensures var s := Apply(m, e);
      (s.notices == [] ==> s.machine == m)
      && (s.notices != [] ==> s.notices[|s.notices| - 1] == Notice(s.machine.phase, s.machine.current))
  {
  }

  /** Whatever history the machine goes through, between operations it is
      never ENDED and it holds a call exactly when it is not IDLE. */
  lemma {:induction false} RunKeepsValid(m: Machine, es: seq<Event>)
    requires Valid(m)
    ensures Valid(Run(m, es))
    decreases |es|
  {
    if es != [] {
      ApplyKeepsValid(m, es[0]);
      RunKeepsValid(Apply(m, es[0]).machine, es[1..]);
    }
  }

  /** Any finished call is announced as ENDED with its record, then as IDLE
      without one; the observer never sees ENDED without the call. */
  lemma EndedIsAnnouncedWithTheCall(m: Machine, e: Event, i: nat)
    requires Valid(m)
    requires i < |Apply(m, e).notices|
    requires Apply(m, e).notices[i].phase == Ended
    ensures Apply(m, e).notices[i].call == m.current && m.current.Some?
    ensures i + 1 < |Apply(m, e).notices| && Apply(m, e).notices[i + 1] == Notice(Idle, None)
  {
  }

  /** The end-to-end scenario: A invites B, B accepts, A learns of the accept;
      both are in a call; A hangs up and B receives the end; both are idle. */
  lemma CallScenario(a: string, b: string, id: string, dest: string, key: string)
    requires id != ""
    ensures
      var a1 := Apply(Initial, StartOutgoing(a, b, Some(id), "unused")).machine;
      var invite := CallInfo(id, b, a, None, false, None, None, None, None);
      var inv := ReceiveIncomingInvite(Initial, invite);
      var b1 := inv.1.machine;
      var b2 := Apply(b1, Accept).machine;
      var a2 := Apply(Apply(a1, Ring).machine, RemoteAccepted(id, Some(dest), Some(key))).machine;
      && inv.0 && b1.phase == IncomingCall
      && b2.phase == InCall && a2.phase == InCall
      && (dest != "" ==> a2.current.value.remoteMediaDest == Some(dest))
      && Apply(a2, Hangup).machine == Initial
      && Apply(b2, RemoteEnd(id)).machine == Initial
  {
  }
}
