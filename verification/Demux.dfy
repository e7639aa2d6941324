/**
 The mux demuxer (corpus/tools/demux_transcript.py): frames are an 8-byte header
 (time, protocol with the direction in bit 15, length) and a payload.
 */
module Demux {
  import opened LedgerTypes
  import opened Cbor
  import opened Sums

  type Time = x: int | 0 <= x < 0x1_0000_0000

  type ProtocolId = x: int | 0 <= x < 0x8000

  type Payload = s: seq<Byte> | |s| < 0x1_0000

  datatype Frame = Frame(time: Time, protocol: ProtocolId, fromResponder: bool, payload: Payload)

  /** The header fields at the front of `raw`. */
  function PayloadLength(raw: Bytes): nat
    requires |raw| >= 8
  {
    FromBigEndian(raw[6..8])
  }

  predicate Complete(raw: Bytes) {
    |raw| >= 8 && 8 + PayloadLength(raw) <= |raw|
  }

  function First(raw: Bytes): Frame
    requires Complete(raw)
  {
    BigEndianIsUnique(raw[..4]);
    BigEndianIsUnique(raw[4..6]);
    BigEndianIsUnique(raw[6..8]);
    Powers();
    var protoDir := FromBigEndian(raw[4..6]);
    Frame(FromBigEndian(raw[..4]), protoDir % 0x8000, protoDir / 0x8000 == 1, raw[8..8 + PayloadLength(raw)])
  }

  function Parse(raw: Bytes): seq<Frame> {
    if Complete(raw) then [First(raw)] + Parse(raw[8 + PayloadLength(raw)..]) else []
  }

  /** `parse_mux_frames`: an offset runs over the buffer until a frame is incomplete. */
  method ParseMuxFrames(raw: Bytes) returns (frames: seq<Frame>)
    ensures frames == Parse(raw)
  {
    hide First, PayloadLength;
    frames := [];
    var offset := 0;
    assert raw[0..] == raw;
    while offset + 8 <= |raw|
      invariant offset <= |raw|
      invariant frames + Parse(raw[offset..]) == Parse(raw)
      decreases |raw| - offset
    {
      var rest := raw[offset..];
      var end := offset + 8 + PayloadLength(rest);
      if end > |raw| {
        break;
      }
      assert rest[8 + PayloadLength(rest)..] == raw[end..];
      frames := frames + [First(rest)];
      offset := end;
    }
  }

  function Serialise(f: Frame): Bytes {
    ToBigEndian(f.time, 4)
    + ToBigEndian(f.protocol + if f.fromResponder then 0x8000 else 0, 2)
    + ToBigEndian(|f.payload|, 2)
    + f.payload
  }

  function SerialiseAll(frames: seq<Frame>): Bytes {
    if frames == [] then [] else Serialise(frames[0]) + SerialiseAll(frames[1..])
  }

  lemma SerialisedParts(f: Frame, rest: Bytes)
    ensures var raw := Serialise(f) + rest;
      && |raw| >= 8 && raw[..4] == ToBigEndian(f.time, 4)
      && raw[4..6] == ToBigEndian(f.protocol + if f.fromResponder then 0x8000 else 0, 2)
      && raw[6..8] == ToBigEndian(|f.payload|, 2)
      && |raw| == 8 + |f.payload| + |rest|
      && raw[8..8 + |f.payload|] == f.payload && raw[8 + |f.payload|..] == rest
  {
    hide ToBigEndian, FromBigEndian;
    Powers();
    BigEndianRoundTrip(f.time, 4);
    BigEndianRoundTrip(f.protocol + if f.fromResponder then 0x8000 else 0, 2);
    BigEndianRoundTrip(|f.payload|, 2);
  }

  /** A serialised frame is read back from the front of any stream. */
  lemma FrameReadsBack(f: Frame, rest: Bytes)
    ensures var raw := Serialise(f) + rest;
      Complete(raw) && First(raw) == f && raw[8 + PayloadLength(raw)..] == rest
  {
    hide ToBigEndian, FromBigEndian, Serialise;
    SerialisedParts(f, rest);
    Powers();
    BigEndianRoundTrip(f.time, 4);
    BigEndianRoundTrip(f.protocol + if f.fromResponder then 0x8000 else 0, 2);
    BigEndianRoundTrip(|f.payload|, 2);
  }

  /** Parsing the concatenated serialisation of any frames returns those frames. */
  lemma {:induction false} ParseOfSerialised(frames: seq<Frame>)
    ensures Parse(SerialiseAll(frames)) == frames
  {
    hide Serialise, First, PayloadLength, Complete;
    if frames != [] {
      ParseOfSerialised(frames[1..]);
      FrameReadsBack(frames[0], SerialiseAll(frames[1..]));
    } else {
      NothingToParse();
    }
  }

  lemma NothingToParse()
    ensures Parse([]) == []
  {
  }

  lemma FirstOfTruncated(raw: Bytes, n: nat)
    requires n <= |raw| && Complete(raw[..n])
    ensures Complete(raw) && First(raw[..n]) == First(raw) && PayloadLength(raw[..n]) == PayloadLength(raw)
    ensures raw[..n][8 + PayloadLength(raw)..] == raw[8 + PayloadLength(raw)..][..n - 8 - PayloadLength(raw)]
  {
    hide FromBigEndian;
    assert raw[..n][..4] == raw[..4] && raw[..n][4..6] == raw[4..6] && raw[..n][6..8] == raw[6..8];
    assert raw[..n][8..8 + PayloadLength(raw)] == raw[8..8 + PayloadLength(raw)];
  }

  /** A truncated stream parses to a prefix: it loses frames at its end and changes none. */
  lemma {:induction false} TruncatedParseIsPrefix(raw: Bytes, n: nat)
    requires n <= |raw|
    ensures Parse(raw[..n]) <= Parse(raw)
    decreases |raw|
  {
    hide First, PayloadLength;
    if Complete(raw[..n]) {
      FirstOfTruncated(raw, n);
      var k := 8 + PayloadLength(raw);
      TruncatedParseIsPrefix(raw[k..], n - k);
    }
  }

  /** What parses is all of the stream up to the first incomplete frame, byte for byte. */
  lemma {:induction false} SerialisedParseIsPrefix(raw: Bytes)
    ensures SerialiseAll(Parse(raw)) <= raw
    ensures !Complete(raw[|SerialiseAll(Parse(raw))|..])
    decreases |raw|
  {
    hide First, PayloadLength, Serialise;
    if Complete(raw) {
      var k := 8 + PayloadLength(raw);
      FirstIsFront(raw);
      SerialisedParseIsPrefix(raw[k..]);
      FrontAndRest(raw, k, SerialiseAll(Parse(raw[k..])));
      assert Parse(raw)[1..] == Parse(raw[k..]);
    } else {
      assert raw[0..] == raw;
    }
  }

  lemma FrontAndRest(raw: Bytes, k: nat, w: Bytes)
    requires k <= |raw| && w <= raw[k..]
    ensures raw[..k] + w <= raw && raw[|raw[..k] + w|..] == raw[k..][|w|..]
  {
  }

  lemma FirstIsFront(raw: Bytes)
    requires Complete(raw)
    ensures Serialise(First(raw)) == raw[..8 + PayloadLength(raw)]
  {
    hide ToBigEndian, FromBigEndian;
    BigEndianIsUnique(raw[..4]);
    BigEndianIsUnique(raw[4..6]);
    BigEndianIsUnique(raw[6..8]);
    Powers();
    var n := PayloadLength(raw);
    assert raw[..8 + n] == raw[..4] + raw[4..6] + raw[6..8] + raw[8..8 + n];
  }

  // Grouping.

  /** The frames of one protocol, in order. */
  function Of(frames: seq<Frame>, id: ProtocolId): seq<Frame> {
    if frames == [] then
      []
    else
      Of(frames[..|frames| - 1], id) + if frames[|frames| - 1].protocol == id then [frames[|frames| - 1]] else []
  }

  function Protocols(frames: seq<Frame>): set<ProtocolId> {
    set f | f in frames :: f.protocol
  }

  /** `demux_frames`: a dictionary of lists, filled frame by frame. */
  method DemuxFrames(frames: seq<Frame>) returns (groups: map<ProtocolId, seq<Frame>>)
    ensures groups.Keys == Protocols(frames)
    ensures forall id :: id in groups ==> groups[id] == Of(frames, id) && groups[id] != []
  {
    hide Protocols;
    NoProtocols();
    groups := map[];
    for n := 0 to |frames|
      invariant groups.Keys == Protocols(frames[..n])
      invariant forall id :: id in groups ==> groups[id] == Of(frames[..n], id) && groups[id] != []
      invariant forall id: ProtocolId :: id !in groups ==> Of(frames[..n], id) == []
    {
      var f := frames[n];
      assert frames[..n + 1][..n] == frames[..n];
      ProtocolsAppend(frames, n);
      forall id: ProtocolId
        ensures Of(frames[..n + 1], id) == Of(frames[..n], id) + if id == f.protocol then [f] else []
      {
      }
      groups := groups[f.protocol := (if f.protocol in groups then groups[f.protocol] else []) + [f]];
    }
    assert frames[..|frames|] == frames;
  }

  lemma NoProtocols()
    ensures Protocols([]) == {}
  {
  }

  lemma ProtocolsAppend(frames: seq<Frame>, n: nat)
    requires n < |frames|
    ensures Protocols(frames[..n + 1]) == Protocols(frames[..n]) + {frames[n].protocol}
  {
    assert frames[..n + 1] == frames[..n] + [frames[n]];
  }

  /** Where the frame at `i` goes within its group: after the earlier frames of its protocol. */
  function Position(frames: seq<Frame>, i: nat): nat
    requires i <= |frames|
  {
    if i == |frames| then 0 else |Of(frames[..i], frames[i].protocol)|
  }

  /** Each frame stands in its own protocol's group, at its position, and the order is kept. */
  lemma {:induction false} FrameIsInItsGroup(frames: seq<Frame>, i: nat)
    requires i < |frames|
    ensures Position(frames, i) < |Of(frames, frames[i].protocol)|
    ensures Of(frames, frames[i].protocol)[Position(frames, i)] == frames[i]
    decreases |frames|
  {
    var n := |frames| - 1;
    if i < n {
      var init := frames[..n];
      FrameIsInItsGroup(init, i);
      assert init[..i] == frames[..i];
    }
  }

  lemma {:induction false} OrderIsKept(frames: seq<Frame>, i: nat, j: nat)
    requires i < j < |frames| && frames[i].protocol == frames[j].protocol
    ensures Position(frames, i) < Position(frames, j)
  {
    var init := frames[..j];
    FrameIsInItsGroup(init, i);
    assert init[..i] == frames[..i];
  }

  /** The sizes of the groups of some protocols. */
  function Sizes(frames: seq<Frame>, ids: set<ProtocolId>): map<ProtocolId, int> {
    map id | id in ids :: |Of(frames, id)|
  }

  lemma SizesAppend(frames: seq<Frame>, ids: set<ProtocolId>)
    requires frames != []
    ensures var init, id := frames[..|frames| - 1], frames[|frames| - 1].protocol;
      id in ids ==> Sizes(frames, ids) == Sizes(init, ids)[id := Sizes(init, ids)[id] + 1]
  {
  }

  /** The groups partition the frames: together they are as many, and none is left out. */
  lemma {:induction false} GroupsPartition(frames: seq<Frame>, ids: set<ProtocolId>)
    requires Protocols(frames) <= ids
    ensures Sum(Sizes(frames, ids)) == |frames|
  {
    if frames == [] {
      SumIgnoresZeros(map[], Sizes(frames, ids));
    } else {
      var n := |frames| - 1;
      LastProtocol(frames);
      GroupsPartition(frames[..n], ids);
      SizesAppend(frames, ids);
      SumUpdate(Sizes(frames[..n], ids), frames[n].protocol, Sizes(frames[..n], ids)[frames[n].protocol] + 1);
    }
  }

  lemma LastProtocol(frames: seq<Frame>)
    requires frames != []
    ensures Protocols(frames[..|frames| - 1]) + {frames[|frames| - 1].protocol} == Protocols(frames)
  {
    assert frames[..|frames| - 1 + 1] == frames;
    ProtocolsAppend(frames, |frames| - 1);
  }
}
