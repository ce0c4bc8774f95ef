/** The admission and de-duplication gate every incoming signaling message
    passes before it reaches the call state machine. */
module MessageFilter {
  import opened Basics
  import opened Signaling

  /** The de-duplication key: a call id and a message type. */
  datatype SeenKey = SeenKey(callId: string, msgType: string)

  datatype Filter = Filter(localId: string, dupeWindow: real, recent: map<SeenKey, real>)

  /** The default window is one second. */
  function NewFilter(localId: string): (f: Filter)
    ensures f.localId == localId && f.dupeWindow == 1.0 && f.recent == map[]
  {
    Filter(localId, 1.0, map[])
  }

  datatype Reason = PresenceAnnounceReason | NotForUs | Duplicate | UnknownCallIdle | ForeignCall | OkReason

  /** The reason text the source logs. */
  function ReasonText(r: Reason): string {
    match r
    case PresenceAnnounceReason => "presence_announce"
    case NotForUs => "not_for_us"
    case Duplicate => "duplicate"
    case UnknownCallIdle => "unknown_call_idle"
    case ForeignCall => "foreign_call"
    case OkReason => "ok"
  }

  datatype Decision = Decision(allowed: bool, reason: Reason)

  function KeyOf(msg: CallMessage): SeenKey {
    SeenKey(msg.callId, msg.msgType)
  }

  /** A (call id, type) pair counts as a retransmission when it was recorded
      less than the window ago. A recorded time of exactly 0.0 is falsy in
      the source and so never counts. */
  predicate IsDuplicate(f: Filter, key: SeenKey, now: real) {
    key in f.recent && f.recent[key] != 0.0 && now - f.recent[key] < f.dupeWindow
  }

  /** The ordered decision list; returns the decision and the updated filter. */
  function Evaluate(f: Filter, msg: CallMessage, currentCallId: Option<string>, now: real): (r: (Decision, Filter))
    ensures r.1.localId == f.localId && r.1.dupeWindow == f.dupeWindow
    // The map changes only by recording this message's key at `now`.
    ensures r.1.recent == f.recent || r.1.recent == f.recent[KeyOf(msg) := now]
    ensures r.0.allowed <==> r.0.reason == PresenceAnnounceReason || r.0.reason == OkReason
  {
    if msg.msgType == PresenceAnnounce then (Decision(true, PresenceAnnounceReason), f)
    else if msg.toId != f.localId then (Decision(false, NotForUs), f)
    else if IsDuplicate(f, KeyOf(msg), now) then (Decision(false, Duplicate), f)
    else
      var f' := f.(recent := f.recent[KeyOf(msg) := now]);
      if msg.msgType != CallInvite && currentCallId.None? then (Decision(false, UnknownCallIdle), f')
      else if msg.msgType != CallInvite && currentCallId.value != msg.callId then (Decision(false, ForeignCall), f')
      else (Decision(true, OkReason), f')
  }

  /** Presence announcements always pass and are never recorded. */
  lemma AnnounceAlwaysAllowed(f: Filter, msg: CallMessage, cur: Option<string>, now: real)
    requires msg.msgType == PresenceAnnounce
    ensures Evaluate(f, msg, cur, now) == (Decision(true, PresenceAnnounceReason), f)
  {
  }

  /** A message for someone else is turned away without being recorded. */
  lemma NotForUsIsNotRecorded(f: Filter, msg: CallMessage, cur: Option<string>, now: real)
    requires msg.msgType != PresenceAnnounce && msg.toId != f.localId
    ensures Evaluate(f, msg, cur, now) == (Decision(false, NotForUs), f)
  {
  }

  /** A retransmission inside the window is dropped and does not refresh the
      recorded time; anything else addressed to us is recorded at `now`, even
      when it is then refused for its call id. */
  lemma DuplicateHandling(f: Filter, msg: CallMessage, cur: Option<string>, now: real)
    requires msg.msgType != PresenceAnnounce && msg.toId == f.localId
    ensures var r := Evaluate(f, msg, cur, now);
      && (IsDuplicate(f, KeyOf(msg), now) ==> r == (Decision(false, Duplicate), f))
      && (!IsDuplicate(f, KeyOf(msg), now) ==> r.1.recent == f.recent[KeyOf(msg) := now] && r.0.reason != Duplicate)
  {
  }

  /** Past the duplicate check, an invite is always allowed; any other type
      must belong to the current call. */
  lemma CallIdRules(f: Filter, msg: CallMessage, cur: Option<string>, now: real)
    requires msg.msgType != PresenceAnnounce && msg.toId == f.localId && !IsDuplicate(f, KeyOf(msg), now)
    ensures var d := Evaluate(f, msg, cur, now).0;
      && (msg.msgType == CallInvite ==> d == Decision(true, OkReason))
      && (msg.msgType != CallInvite && cur.None? ==> d == Decision(false, UnknownCallIdle))
      && (msg.msgType != CallInvite && cur.Some? && cur.value != msg.callId ==> d == Decision(false, ForeignCall))
      && (msg.msgType != CallInvite && cur == Some(msg.callId) ==> d == Decision(true, OkReason))
  {
  }

  /** The same message twice inside the window: the second is a duplicate;
      once the window has passed it is admitted again. */
  lemma {:induction false} RetransmissionScenario(localId: string, msg: CallMessage, t: real, dt: real)
    requires msg.msgType == CallInvite && msg.toId == localId
    requires t > 0.0 && 0.0 <= dt
    ensures var f0 := NewFilter(localId);
      var first := Evaluate(f0, msg, None, t);
      && first.0 == Decision(true, OkReason)
      && (dt < 1.0 ==> Evaluate(first.1, msg, None, t + dt).0 == Decision(false, Duplicate))
      && (dt >= 1.0 ==> Evaluate(first.1, msg, None, t + dt).0 == Decision(true, OkReason))
  {
    var f0 := NewFilter(localId);
    var first := Evaluate(f0, msg, None, t);
    assert !IsDuplicate(f0, KeyOf(msg), t);
    assert first.1.recent[KeyOf(msg)] == t;
  }

  /** One incoming message, the call id current when it arrives, and its
      arrival time. */
  datatype Arrival = Arrival(msg: CallMessage, current: Option<string>, now: real)

  /** The filter after evaluating a run of arrivals in order. */
  function EvaluateAll(f: Filter, arrivals: seq<Arrival>): Filter
    decreases |arrivals|
  {
    if arrivals == [] then f
    else
      var a := arrivals[0];
      EvaluateAll(Evaluate(f, a.msg, a.current, a.now).1, arrivals[1..])
  }

  /** A key recorded at a non-zero time keeps that time through any run of
      arrivals inside its window: a retransmission there is refused without
      refreshing it, and other keys never touch it. */
  lemma {:induction false} RecordedTimeHolds(f: Filter, arrivals: seq<Arrival>, key: SeenKey)
    requires key in f.recent && f.recent[key] != 0.0
    requires forall i :: 0 <= i < |arrivals| ==> arrivals[i].now < f.recent[key] + f.dupeWindow
    ensures EvaluateAll(f, arrivals).dupeWindow == f.dupeWindow && EvaluateAll(f, arrivals).localId == f.localId
    ensures key in EvaluateAll(f, arrivals).recent && EvaluateAll(f, arrivals).recent[key] == f.recent[key]
    decreases |arrivals|
  {
    if arrivals != [] {
      var a := arrivals[0];
      var f1 := Evaluate(f, a.msg, a.current, a.now).1;
      assert f1.recent[key] == f.recent[key] by {
        if KeyOf(a.msg) == key && a.msg.msgType != PresenceAnnounce && a.msg.toId == f.localId {
          assert IsDuplicate(f, key, a.now);
        }
      }
      RecordedTimeHolds(f1, arrivals[1..], key);
    }
  }

  /** Once a message is admitted at a time t > 0, the same (call id, type)
      is refused as a duplicate at any time before t plus the window,
      whatever other messages arrived in between. */
  lemma AdmittedThenDuplicate(f: Filter, msg: CallMessage, cur: Option<string>, t: real,
                              between: seq<Arrival>, again: CallMessage, cur': Option<string>, t': real)
    requires t > 0.0 && Evaluate(f, msg, cur, t).0.allowed && msg.msgType != PresenceAnnounce
    requires forall i :: 0 <= i < |between| ==> between[i].now < t + f.dupeWindow
    requires KeyOf(again) == KeyOf(msg) && again.toId == msg.toId && t' < t + f.dupeWindow
    ensures Evaluate(EvaluateAll(Evaluate(f, msg, cur, t).1, between), again, cur', t').0 == Decision(false, Duplicate)
  {
    var f1 := Evaluate(f, msg, cur, t).1;
    assert f1.recent[KeyOf(msg)] == t;
    RecordedTimeHolds(f1, between, KeyOf(msg));
  }
}
