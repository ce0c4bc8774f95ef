/** The store of discovered peers: the peer record and its JSON form, the
    fold that turns a stored list into the map keyed by node id, and the
    in-memory map operations. Timestamps are kept in their ISO text form;
    the oracle `parseIso` parses a text as an ISO datetime and gives back
    the datetime's own ISO text (so "2024-01-01" reads as
    "2024-01-01T00:00:00"), or None when the text does not parse. */
module PeersStorage {
  import opened Basics

  datatype PeerRecord = PeerRecord(
    nodeId: string,
    displayName: string,
    lastSeen: string,
    announceCount: int,
    verified: bool,
    blocked: bool)

  /** The keys of a stored peer object; other keys are ignored on load. */
  datatype PeerKey = NodeId | DisplayName | LastSeen | AnnounceCount | Verified | Blocked

  function WireName(k: PeerKey): string {
    match k
    case NodeId => "node_id"
    case DisplayName => "display_name"
    case LastSeen => "last_seen"
    case AnnounceCount => "announce_count"
    case Verified => "verified"
    case Blocked => "blocked"
  }

  type PeerObject = map<PeerKey, Value>

  const DefaultName := "Unknown"

  function ToDict(r: PeerRecord): (d: PeerObject)
    ensures d.Keys == {NodeId, DisplayName, LastSeen, AnnounceCount, Verified, Blocked}
    ensures d[NodeId] == Str(r.nodeId) && d[DisplayName] == Str(r.displayName) && d[LastSeen] == Str(r.lastSeen)
    ensures d[AnnounceCount] == Int(r.announceCount) && d[Verified] == Bool(r.verified) && d[Blocked] == Bool(r.blocked)
  {
    map[NodeId := Str(r.nodeId), DisplayName := Str(r.displayName), LastSeen := Str(r.lastSeen),
        AnnounceCount := Int(r.announceCount), Verified := Bool(r.verified), Blocked := Bool(r.blocked)]
  }

  datatype PeerError = MissingKey(key: PeerKey) | WrongType(key: PeerKey) | BadTimestamp

  function GetString(d: PeerObject, k: PeerKey, default: string): Result<string, PeerError> {
    if k !in d then Ok(default) else if d[k].Str? then Ok(d[k].s) else Err(WrongType(k))
  }

  function GetInt(d: PeerObject, k: PeerKey, default: int): Result<int, PeerError> {
    if k !in d then Ok(default) else if d[k].Int? then Ok(d[k].i) else Err(WrongType(k))
  }

  function GetBool(d: PeerObject, k: PeerKey, default: bool): Result<bool, PeerError> {
    if k !in d then Ok(default) else if d[k].Bool? then Ok(d[k].b) else Err(WrongType(k))
  }

  /** Reads a record: `node_id` and `last_seen` are required (and the latter
      must parse, being kept in its canonical form), the rest default to
      "Unknown", 1, false and false. */
  function FromDict(d: PeerObject, parseIso: string -> Option<string>): (r: Result<PeerRecord, PeerError>)
    ensures NodeId !in d ==> r == Err(MissingKey(NodeId))
    ensures r.Ok? ==> NodeId in d && LastSeen in d && d[LastSeen].Str? && parseIso(d[LastSeen].s) == Some(r.value.lastSeen)
    ensures NodeId in d && d[NodeId].Str? && LastSeen in d && d[LastSeen].Str? && parseIso(d[LastSeen].s).None? ==> r.Err?
    ensures r.Ok? ==> Str(r.value.nodeId) == d[NodeId]
    ensures r.Ok? ==> Str(r.value.displayName) == (if DisplayName in d then d[DisplayName] else Str(DefaultName))
    ensures r.Ok? ==> Int(r.value.announceCount) == (if AnnounceCount in d then d[AnnounceCount] else Int(1))
    ensures r.Ok? ==> Bool(r.value.verified) == (if Verified in d then d[Verified] else Bool(false))
    ensures r.Ok? ==> Bool(r.value.blocked) == (if Blocked in d then d[Blocked] else Bool(false))
  {
    if NodeId !in d then Err(MissingKey(NodeId))
    else if !d[NodeId].Str? then Err(WrongType(NodeId))
    else
      var name :- GetString(d, DisplayName, DefaultName);
      if LastSeen !in d then Err(MissingKey(LastSeen))
      else if !d[LastSeen].Str? || parseIso(d[LastSeen].s).None? then Err(BadTimestamp)
      else
        var count :- GetInt(d, AnnounceCount, 1);
        var verified :- GetBool(d, Verified, false);
        var blocked :- GetBool(d, Blocked, false);
        Ok(PeerRecord(d[NodeId].s, name, parseIso(d[LastSeen].s).value, count, verified, blocked))
  }

  /** A record whose timestamp is already in canonical form, as every
      record built from a datetime is, reads back as itself. */
  lemma DictRoundTrip(r: PeerRecord, parseIso: string -> Option<string>)
    requires parseIso(r.lastSeen) == Some(r.lastSeen)
    ensures FromDict(ToDict(r), parseIso) == Ok(r)
  {
  }

  /** Saving what was loaded and loading it again gives the same record,
      provided the parser's own output reparses to itself. */
  lemma ReloadIsStable(d: PeerObject, parseIso: string -> Option<string>)
    requires forall t :: parseIso(t).Some? ==> parseIso(parseIso(t).value) == parseIso(t)
    requires FromDict(d, parseIso).Ok?
    ensures FromDict(ToDict(FromDict(d, parseIso).value), parseIso) == FromDict(d, parseIso)
  {
    var r := FromDict(d, parseIso).value;
    assert parseIso(d[LastSeen].s) == Some(r.lastSeen);
    DictRoundTrip(r, parseIso);
  }

  /** The defaults of a minimal stored record. */
  lemma MinimalRecord(nodeId: string, lastSeen: string, parseIso: string -> Option<string>)
    requires parseIso(lastSeen).Some?
    ensures FromDict(map[NodeId := Str(nodeId), LastSeen := Str(lastSeen)], parseIso)
         == Ok(PeerRecord(nodeId, "Unknown", parseIso(lastSeen).value, 1, false, false))
  {
  }

  /** One element of the stored `peers` list. */
  datatype Entry = Dict(d: PeerObject) | NotDict

  /** The record an entry contributes, if it is a dict that reads. */
  function Decode(e: Entry, parseIso: string -> Option<string>): Option<PeerRecord> {
    if e.NotDict? then None
    else match FromDict(e.d, parseIso)
      case Ok(r) => Some(r)
      case Err(_) => None
  }

  /** The fold of `load`: records keyed by node id, skipping entries that do
      not read, later entries overriding earlier ones. */
  function LoadPeers(entries: seq<Entry>, parseIso: string -> Option<string>): (r: map<string, PeerRecord>)
    ensures |r| <= |entries|
    decreases |entries|
  {
    if entries == [] then map[]
    else
      var before := LoadPeers(entries[..|entries| - 1], parseIso);
      var last := Decode(entries[|entries| - 1], parseIso);
      if last.Some? then before[last.value.nodeId := last.value] else before
  }

  /** Entry `e` reads as a record for `id`. */
  predicate ReadsAs(e: Entry, parseIso: string -> Option<string>, id: string) {
    Decode(e, parseIso).Some? && Decode(e, parseIso).value.nodeId == id
  }

  /** Entry `i` is the last readable entry for `id`. */
  predicate LastFor(entries: seq<Entry>, parseIso: string -> Option<string>, id: string, i: int) {
    && 0 <= i < |entries|
    && ReadsAs(entries[i], parseIso, id)
    && forall j :: i < j < |entries| ==> !ReadsAs(entries[j], parseIso, id)
  }

  /** The last readable entry for a node id is the one that stays loaded. */
  lemma {:induction false} LoadPeersLastWins(entries: seq<Entry>, parseIso: string -> Option<string>, id: string, i: int)
    requires LastFor(entries, parseIso, id, i)
    ensures id in LoadPeers(entries, parseIso)
    ensures LoadPeers(entries, parseIso)[id] == Decode(entries[i], parseIso).value
    decreases |entries|
  {
    var n := |entries| - 1;
    if i < n {
      var init := entries[..n];
      assert !ReadsAs(entries[n], parseIso, id);
      assert LastFor(init, parseIso, id, i) by {
        forall j | i < j < |init|
          ensures !ReadsAs(init[j], parseIso, id)
        {
          assert init[j] == entries[j];
        }
        assert init[i] == entries[i];
      }
      LoadPeersLastWins(init, parseIso, id, i);
      assert init[i] == entries[i];
    }
  }

  /** A node id no entry reads as is not loaded. */
  lemma {:induction false} LoadPeersAbsent(entries: seq<Entry>, parseIso: string -> Option<string>, id: string)
    requires forall j :: 0 <= j < |entries| ==> !ReadsAs(entries[j], parseIso, id)
    ensures id !in LoadPeers(entries, parseIso)
    decreases |entries|
  {
    if entries != [] {
      var init := entries[..|entries| - 1];
      assert forall j :: 0 <= j < |init| ==> init[j] == entries[j];
      LoadPeersAbsent(init, parseIso, id);
      assert !ReadsAs(entries[|entries| - 1], parseIso, id);
    }
  }

  /** Every loaded record sits under its own node id. */
  lemma {:induction false} LoadPeersKeyed(entries: seq<Entry>, parseIso: string -> Option<string>)
    ensures forall id :: id in LoadPeers(entries, parseIso) ==> LoadPeers(entries, parseIso)[id].nodeId == id
    decreases |entries|
  {
    if entries != [] {
      LoadPeersKeyed(entries[..|entries| - 1], parseIso);
    }
  }

  /** What the stored file turned out to hold: nothing, something that is
      not a dict with a `peers` list (or not JSON at all), or the list. */
  datatype StoredFile = Absent | Malformed | PeerList(entries: seq<Entry>)

  type Peers = map<string, PeerRecord>

  /** `load`: only a well-formed file replaces the in-memory map. */
  function Load(peers: Peers, file: StoredFile, parseIso: string -> Option<string>): (r: Peers)
    ensures !file.PeerList? ==> r == peers
    ensures file.PeerList? ==> r == LoadPeers(file.entries, parseIso)
  {
    if file.PeerList? then LoadPeers(file.entries, parseIso) else peers
  }

  /** Records an announce: an unknown peer is added with the given name (or
      "Unknown") and count 1; a known one gets its count bumped, its name
      replaced only by a non-empty one, and its flags kept. */
  function AddOrUpdate(peers: Peers, nodeId: string, displayName: Option<string>, now: string): (r: (Peers, PeerRecord))
    ensures r.0 == peers[nodeId := r.1]
    ensures nodeId !in peers ==>
      r.1 == PeerRecord(nodeId, if Truthy(displayName) then displayName.value else DefaultName, now, 1, false, false)
    ensures nodeId in peers ==> r.1.announceCount == peers[nodeId].announceCount + 1
    ensures nodeId in peers ==> r.1.displayName == (if Truthy(displayName) then displayName.value else peers[nodeId].displayName)
    ensures nodeId in peers ==> r.1.verified == peers[nodeId].verified && r.1.blocked == peers[nodeId].blocked
    ensures nodeId in peers ==> r.1.nodeId == peers[nodeId].nodeId && r.1.lastSeen == now
  {
    if nodeId in peers then
      var old_ := peers[nodeId];
      var rec := old_.(displayName := if Truthy(displayName) then displayName.value else old_.displayName,
                       lastSeen := now, announceCount := old_.announceCount + 1);
      (peers[nodeId := rec], rec)
    else
      var rec := PeerRecord(nodeId, if Truthy(displayName) then displayName.value else DefaultName, now, 1, false, false);
      (peers[nodeId := rec], rec)
  }

  /** Sets one flag of one known peer; unknown ids change nothing. */
  function MarkVerified(peers: Peers, nodeId: string): (r: Peers)
    ensures nodeId !in peers ==> r == peers
    ensures nodeId in peers ==> r == peers[nodeId := peers[nodeId].(verified := true)]
  {
    if nodeId in peers then peers[nodeId := peers[nodeId].(verified := true)] else peers
  }

  function MarkBlocked(peers: Peers, nodeId: string): (r: Peers)
    ensures nodeId !in peers ==> r == peers
    ensures nodeId in peers ==> r == peers[nodeId := peers[nodeId].(blocked := true)]
  {
    if nodeId in peers then peers[nodeId := peers[nodeId].(blocked := true)] else peers
  }

  function Unblock(peers: Peers, nodeId: string): (r: Peers)
    ensures nodeId !in peers ==> r == peers
    ensures nodeId in peers ==> r == peers[nodeId := peers[nodeId].(blocked := false)]
  {
    if nodeId in peers then peers[nodeId := peers[nodeId].(blocked := false)] else peers
  }

  /** Only a known peer can be blocked or verified; an unknown id reads as
      neither. */
  predicate IsBlocked(peers: Peers, nodeId: string): (b: bool)
    ensures b ==> nodeId in peers
  {
    nodeId in peers && peers[nodeId].blocked
  }

  predicate IsVerified(peers: Peers, nodeId: string): (b: bool)
    ensures b ==> nodeId in peers
  {
    nodeId in peers && peers[nodeId].verified
  }

  function Remove(peers: Peers, nodeId: string): (r: Peers)
    ensures r.Keys == peers.Keys - {nodeId}
    ensures forall k :: k in r ==> r[k] == peers[k]
  {
    peers - {nodeId}
  }

  function Clear(peers: Peers): (r: Peers)
    ensures |r| == 0
  {
    map[]
  }

  /** The flag operations never add a peer, and each leaves every other
      peer, and every other field, as it was. */
  lemma FlagsAreLocal(peers: Peers, nodeId: string, other: string)
    requires other != nodeId
    ensures MarkVerified(peers, nodeId).Keys == peers.Keys
    ensures MarkBlocked(peers, nodeId).Keys == peers.Keys
    ensures Unblock(peers, nodeId).Keys == peers.Keys
    ensures other in peers ==> MarkVerified(peers, nodeId)[other] == peers[other]
    ensures other in peers ==> MarkBlocked(peers, nodeId)[other] == peers[other]
    ensures other in peers ==> Unblock(peers, nodeId)[other] == peers[other]
    ensures IsVerified(MarkVerified(peers, nodeId), nodeId) <==> nodeId in peers
    ensures IsBlocked(MarkBlocked(peers, nodeId), nodeId) <==> nodeId in peers
    ensures !IsBlocked(Unblock(peers, nodeId), nodeId)
    ensures IsBlocked(MarkVerified(peers, nodeId), nodeId) == IsBlocked(peers, nodeId)
    ensures IsVerified(MarkBlocked(peers, nodeId), nodeId) == IsVerified(peers, nodeId)
  {
  }

  /** Blocking and unblocking a known peer restores it exactly when it was
      not blocked before. */
  lemma BlockUnblock(peers: Peers, nodeId: string)
    requires nodeId in peers && !peers[nodeId].blocked
    ensures Unblock(MarkBlocked(peers, nodeId), nodeId) == peers
  {
    assert Unblock(MarkBlocked(peers, nodeId), nodeId)[nodeId] == peers[nodeId];
  }

  /** Unknown ids are neither blocked nor verified. */
  lemma UnknownIsNeither(peers: Peers, nodeId: string)
    requires nodeId !in peers
    ensures !IsBlocked(peers, nodeId) && !IsVerified(peers, nodeId)
  {
  }

  /** Re-announcing keeps a peer's verification and block status however
      often it happens. */
  lemma {:induction false} AnnouncesKeepFlags(peers: Peers, nodeId: string, names: seq<Option<string>>, now: string)
    ensures var p := AnnounceAll(peers, nodeId, names, now);
      && (IsVerified(p, nodeId) <==> IsVerified(peers, nodeId))
      && (IsBlocked(p, nodeId) <==> IsBlocked(peers, nodeId))
      && (nodeId in peers ==> nodeId in p && p[nodeId].announceCount == peers[nodeId].announceCount + |names|)
    decreases |names|
  {
    if names != [] {
      AnnouncesKeepFlags(AddOrUpdate(peers, nodeId, names[0], now).0, nodeId, names[1..], now);
    }
  }

  function AnnounceAll(peers: Peers, nodeId: string, names: seq<Option<string>>, now: string): Peers
    decreases |names|
  {
    if names == [] then peers else AnnounceAll(AddOrUpdate(peers, nodeId, names[0], now).0, nodeId, names[1..], now)
  }
}
