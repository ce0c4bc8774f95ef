/** The binary envelope on the media link: one type byte, then for audio a
    big-endian 16-bit sequence number, then the payload. */
module Framing {
  import opened Basics

  const PacketAudio: Byte := 0x01
  const PacketPing: Byte := 0x02
  const PacketControl: Byte := 0x03

  /** The 16-bit wrap of `seq & 0xFFFF` (Python's `&` on a negative int
      agrees with the Euclidean remainder). */
  function Wrap16(n: int): U16 {
    n % 0x1_0000
  }

  /** The 16-bit number two big-endian bytes stand for. */
  function FromBigEndian16(hi: Byte, lo: Byte): U16 {
    (hi as int) * 256 + (lo as int)
  }

  /** The two big-endian bytes of a 16-bit number. */
  function BigEndian16(n: U16): (b: Bytes)
    ensures |b| == 2 && FromBigEndian16(b[0], b[1]) == n
  {
    [n / 256, n % 256]
  }

  datatype FrameError = TypeOutOfRange | EmptyPacket

  function Frame(packetType: int, payload: Bytes, seqNo: Option<int>): (r: Result<Bytes, FrameError>)
    ensures r.Err? <==> !(0 <= packetType <= 255)
    ensures r.Ok? && packetType == PacketAudio && seqNo.Some? ==>
      |r.value| == 3 + |payload| && r.value[0] == packetType
      && FromBigEndian16(r.value[1], r.value[2]) == Wrap16(seqNo.value) && r.value[3..] == payload
    ensures r.Ok? && !(packetType == PacketAudio && seqNo.Some?) ==>
      r.value == [packetType as Byte] + payload
  {
    if !(0 <= packetType <= 255) then Err(TypeOutOfRange)
    else
      var head: Bytes := [packetType];
      if packetType == PacketAudio && seqNo.Some? then Ok(head + BigEndian16(Wrap16(seqNo.value)) + payload)
      else Ok(head + payload)
  }

  datatype Parsed = Parsed(packetType: Byte, payload: Bytes, seqNo: Option<U16>)

  function Parse(raw: Bytes): (r: Result<Parsed, FrameError>)
    ensures r.Err? <==> raw == []
    ensures r.Ok? ==> r.value.packetType == raw[0]
    ensures r.Ok? ==> (r.value.seqNo.Some? <==> raw[0] == PacketAudio && |raw| >= 3)
  {
    if raw == [] then Err(EmptyPacket)
    else if raw[0] == PacketAudio && |raw| >= 3 then Ok(Parsed(raw[0], raw[3..], Some(FromBigEndian16(raw[1], raw[2]))))
    else Ok(Parsed(raw[0], raw[1..], None))
  }

  /** An audio frame comes back with its payload and its wrapped sequence number. */
  lemma AudioRoundTrip(payload: Bytes, seqNo: int)
    ensures Frame(PacketAudio, payload, Some(seqNo)).Ok?
    ensures Parse(Frame(PacketAudio, payload, Some(seqNo)).value) == Ok(Parsed(PacketAudio, payload, Some(Wrap16(seqNo))))
  {
    var raw := Frame(PacketAudio, payload, Some(seqNo)).value;
    assert raw[3..] == payload;
  }

  /** Any other packet type comes back with its payload and no sequence number. */
  lemma OtherRoundTrip(packetType: Byte, payload: Bytes, seqNo: Option<int>)
    requires packetType != PacketAudio
    ensures Frame(packetType, payload, seqNo).Ok?
    ensures Parse(Frame(packetType, payload, seqNo).value) == Ok(Parsed(packetType, payload, None))
  {
    var raw := Frame(packetType, payload, seqNo).value;
    assert raw[1..] == payload;
  }

  /** The wire form of one audio frame numbered `n`. */
  function AudioPacket(frame: Bytes, n: U16): Bytes {
    Frame(PacketAudio, frame, Some(n)).value
  }

  /** An audio packet parses back to its frame and number. */
  lemma AudioPacketParses(frame: Bytes, n: U16)
    ensures Parse(AudioPacket(frame, n)) == Ok(Parsed(PacketAudio, frame, Some(n)))
  {
    AudioRoundTrip(frame, n);
  }

  /** The packets for a run of frames numbered from `a` upwards, each
      number wrapped to 16 bits. */
  function Numbered(frames: seq<Bytes>, a: int): seq<Bytes>
    decreases |frames|
  {
    if frames == [] then [] else [AudioPacket(frames[0], Wrap16(a))] + Numbered(frames[1..], a + 1)
  }

  /** The packet at position `i` of a numbered run carries number `a + i`, wrapped. */
  lemma {:induction false} NumberedAt(frames: seq<Bytes>, a: int)
    ensures |Numbered(frames, a)| == |frames|
    ensures forall i :: 0 <= i < |frames| ==> Numbered(frames, a)[i] == AudioPacket(frames[i], Wrap16(a + i))
    decreases |frames|
  {
    if frames != [] {
      var tail := frames[1..];
      var rest := Numbered(tail, a + 1);
      NumberedAt(tail, a + 1);
      forall i | 0 < i < |frames|
        ensures Numbered(frames, a)[i] == AudioPacket(frames[i], Wrap16(a + i))
      {
        assert Numbered(frames, a)[i] == rest[i - 1];
        assert tail[i - 1] == frames[i];
      }
    }
  }

  /** Packet `i` of a numbered run parses back to frame `i` with number
      `a + i`, wrapped to 16 bits. */
  lemma NumberedParses(frames: seq<Bytes>, a: int)
    ensures |Numbered(frames, a)| == |frames|
    ensures forall i :: 0 <= i < |frames| ==>
      Parse(Numbered(frames, a)[i]) == Ok(Parsed(PacketAudio, frames[i], Some(Wrap16(a + i))))
  {
    NumberedAt(frames, a);
    forall i | 0 <= i < |frames| {
      AudioPacketParses(frames[i], Wrap16(a + i));
    }
  }

  /** Numbering from a wrapped start gives the same packets. */
  lemma {:induction false} NumberedWrap(frames: seq<Bytes>, a: int)
    ensures Numbered(frames, Wrap16(a)) == Numbered(frames, a)
    decreases |frames|
  {
    if frames != [] {
      WrapAdd(a, 0);
      WrapAdd(a, 1);
      NumberedWrap(frames[1..], Wrap16(a) + 1);
      NumberedWrap(frames[1..], a + 1);
    }
  }

  /** Wrapping part way through a sum does not change the wrapped total. */
  lemma WrapAdd(x: int, k: int)
    ensures Wrap16(Wrap16(x) + k) == Wrap16(x + k)
  {
  }

  /** A number already in range wraps to itself. */
  lemma WrapSmall(a: U16)
    ensures Wrap16(a) == a
  {
  }
}
