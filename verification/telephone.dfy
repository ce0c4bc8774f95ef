/** The telephone wrapper's two pure pieces: whether the wrapped telephone is
    in a call, and the guard chain that decides when a grouped SAS code can
    be shown. The call object is described by what it exposes. */
module Telephone {
  import opened Basics
  import opened Sas
  import MediaSession

  const DefaultGroups := 4

  /** The telephone is in a call once its status reaches "ringing"; the
      status constant belongs to the telephony library and is a parameter. */
  predicate IsInCall(callStatus: int, statusRinging: int) {
    callStatus >= statusRinging
  }

  /** The call statuses from "ringing" onwards all count as in a call: a
      status that advances never leaves the call. */
  lemma InCallIsUpwardClosed(callStatus: int, later: int, statusRinging: int)
    requires later >= callStatus
    ensures IsInCall(callStatus, statusRinging) ==> IsInCall(later, statusRinging)
    ensures !IsInCall(later, statusRinging) ==> !IsInCall(callStatus, statusRinging)
    ensures IsInCall(statusRinging, statusRinging) && !IsInCall(statusRinging - 1, statusRinging)
  {
  }

  /** Where a call's link salt comes from: no `get_salt` at all, or what
      `get_salt` returned (None when it returned nothing). */
  datatype SaltSource = NoGetSalt | GetSalt(salt: Option<Bytes>)

  /** The active call object: its `status` attribute, if it has one, and its
      salt source. */
  datatype ActiveCall = ActiveCall(status: Option<int>, salt: SaltSource)

  /** The salt is present and non-empty. */
  predicate HasSalt(c: ActiveCall) {
    c.salt.GetSalt? && c.salt.salt.Some? && c.salt.salt.value != []
  }

  /** All guards pass: in a call, a call object, an ACTIVE link, a salt. */
  predicate SasAvailable(callStatus: int, statusRinging: int, active: Option<ActiveCall>) {
    && IsInCall(callStatus, statusRinging)
    && active.Some?
    && active.value.status == Some(MediaSession.LinkActive)
    && HasSalt(active.value)
  }

  /** The SAS for the active call: None as soon as a guard fails, otherwise
      the four dash-joined groups from the salt's digest. */
  function GetSasCode(callStatus: int, statusRinging: int, active: Option<ActiveCall>, sha256: Bytes -> Digest): (r: Option<string>)
    ensures r.Some? <==> SasAvailable(callStatus, statusRinging, active)
    ensures r.Some? ==> Some(r.value) == GroupedSas(sha256(active.value.salt.salt.value), DefaultGroups)
    ensures r.Some? ==> |r.value| == 11
    ensures r.Some? ==> forall g :: 0 <= g < DefaultGroups ==>
      var group := r.value[3 * g..3 * g + 2];
      AllDigits(group) && DigitsValue(group) == sha256(active.value.salt.salt.value)[g] % 100
    ensures r.Some? ==> r.value[2] == '-' && r.value[5] == '-' && r.value[8] == '-'
  {
    if !IsInCall(callStatus, statusRinging) then None
    else if active.None? then None
    else if active.value.status.None? then None
    else if active.value.status.value != MediaSession.LinkActive then None
    else if active.value.salt.NoGetSalt? then None
    else if active.value.salt.salt.None? || active.value.salt.salt.value == [] then None
    else
      var digest := sha256(active.value.salt.salt.value);
      FourGroups(digest);
      GroupedSas(digest, DefaultGroups)
  }

  /** Each guard on its own withholds the code. */
  lemma GuardsWithhold(callStatus: int, statusRinging: int, active: Option<ActiveCall>, sha256: Bytes -> Digest)
    ensures callStatus < statusRinging ==> GetSasCode(callStatus, statusRinging, active, sha256).None?
    ensures active.None? ==> GetSasCode(callStatus, statusRinging, active, sha256).None?
    ensures active.Some? && active.value.status != Some(MediaSession.LinkActive) ==> GetSasCode(callStatus, statusRinging, active, sha256).None?
    ensures active.Some? && active.value.salt == NoGetSalt ==> GetSasCode(callStatus, statusRinging, active, sha256).None?
    ensures active.Some? && active.value.salt == GetSalt(Some([])) ==> GetSasCode(callStatus, statusRinging, active, sha256).None?
  {
  }

  /** The four-group code of a digest, group by group. */
  lemma FourGroups(digest: Digest)
    ensures var code := GroupedSas(digest, DefaultGroups).value;
      && |code| == 11
      && (forall g :: 0 <= g < DefaultGroups ==>
            AllDigits(code[3 * g..3 * g + 2]) && DigitsValue(code[3 * g..3 * g + 2]) == digest[g] % 100)
      && code[2] == '-' && code[5] == '-' && code[8] == '-'
  {
    var code := GroupedSas(digest, DefaultGroups).value;
    GroupedSasShape(digest, DefaultGroups);
    forall g | 0 <= g < DefaultGroups
      ensures AllDigits(code[3 * g..3 * g + 2]) && DigitsValue(code[3 * g..3 * g + 2]) == digest[g] % 100
    {
      assert code[3 * g..3 * g + 2] == ByteGroup(digest[g]);
    }
    assert code[3 * 1 + 2] == '-' && code[3 * 2 + 2] == '-';
  }
}
