/**
 What the bytes of one chunk frame mean (docs/SPECIFICATION.md section 4.2), said of the bytes
 themselves: which fields the header has, what each compression scheme decodes to, and which
 defects the client's decoder and the server's walk report.
 */
module ChunkMeaning {
  import opened Basics
  import opened XetCore
  import opened Frames
  import opened XorbMeta
  import opened Decoding
  import opened ByteGrouping

  /** A frame as it lies in a xorb: version, three length bytes, scheme, three size bytes, payload. */
  datatype RawFrame = RawFrame(version: Byte, length: (Byte, Byte, Byte), scheme: Byte, size: (Byte, Byte, Byte), payload: seq<Byte>)

  function Little(b: (Byte, Byte, Byte)): nat {
    (b.0 as int) + 256 * (b.1 as int) + 65536 * (b.2 as int)
  }

  function Bytes(f: RawFrame): (r: seq<Byte>)
    ensures |r| == 8 + |f.payload|
  {
    [f.version, f.length.0, f.length.1, f.length.2, f.scheme, f.size.0, f.size.1, f.size.2] + f.payload
  }

  // The payload is as long as the header says.
  predicate Framed(f: RawFrame) {
    |f.payload| == Little(f.length)
  }

  // The payload stands for these bytes: as they are, through LZ4, or byte-grouped through LZ4.
  predicate Stands(x: Xet, scheme: Byte, payload: seq<Byte>, s: seq<Byte>) {
    || (scheme == 0 && payload == s)
    || (scheme == 1 && x.lz4(payload) == Some(s))
    || (scheme == 2 && x.lz4(payload) == Some(Group(s)))
  }

  // ---- the client's decoder ----

  lemma {:induction false} HeadIsPayload(f: RawFrame, rest: seq<Byte>)
    requires f.version == 0 && Framed(f)
    ensures HeadPayload(Bytes(f) + rest) == Ok((f.scheme, f.payload))
    ensures (Bytes(f) + rest)[8 + |f.payload|..] == rest
  {
    FieldsOf(f, rest);
    hide Bytes;
  }

  // The bytes of a frame, field by field.
  lemma {:induction false} FieldsOf(f: RawFrame, rest: seq<Byte>)
    ensures var data := Bytes(f) + rest;
      && data[0] == f.version && data[1..4] == [f.length.0, f.length.1, f.length.2]
      && data[4] == f.scheme && data[5..8] == [f.size.0, f.size.1, f.size.2]
      && data[8..8 + |f.payload|] == f.payload && data[8 + |f.payload|..] == rest
  {
    var head := [f.version, f.length.0, f.length.1, f.length.2, f.scheme, f.size.0, f.size.1, f.size.2];
    var data := Bytes(f) + rest;
    assert data == head + (f.payload + rest);
    assert data[1..4] == head[1..4] && data[5..8] == head[5..8];
    assert head[1..4] == [f.length.0, f.length.1, f.length.2] && head[5..8] == [f.size.0, f.size.1, f.size.2];
  }

  lemma {:induction false} DecompressMeans(x: Xet, scheme: Byte, payload: seq<Byte>, s: seq<Byte>)
    requires KnownScheme(scheme)
    ensures Decompress(x, scheme, payload) == Some(s) <==> Stands(x, scheme, payload, s)
  {
    if scheme == 2 && x.lz4(payload).Some? {
      GroupInvertsUngroup(x.lz4(payload).value);
      UngroupInvertsGroup(s);
    }
    hide Group, Ungroup;
  }

  // A chunk decodes to s exactly if its payload stands for s: stored, LZ4, or byte grouping
  // followed by LZ4. There are no other schemes.
  lemma {:induction false} DecodesByScheme(x: Xet, f: RawFrame, rest: seq<Byte>, s: seq<Byte>)
    requires f.version == 0 && Framed(f)
    ensures Decode(x, Bytes(f) + rest, 0, 1) == Ok([s]) <==> Stands(x, f.scheme, f.payload, s)
    ensures Decode(x, Bytes(f) + rest, 0, 1) == Err(UnknownType) <==> f.scheme > 2
    ensures Decode(x, Bytes(f) + rest, 0, 1) == Err(DecompressionFailed) <==> 1 <= f.scheme <= 2 && x.lz4(f.payload).None?
  {
    OneChunk(x, f, rest);
    hide Stands, Bytes, Decode;
    var r := Decode(x, Bytes(f) + rest, 0, 1);
    assert r.Ok? && r.value == [s] ==> r.value[0] == s;
    if KnownScheme(f.scheme) {
      DecompressMeans(x, f.scheme, f.payload, s);
    } else {
      NotKnown(x, f.scheme, f.payload, s);
    }
  }

  lemma {:induction false} OneChunk(x: Xet, f: RawFrame, rest: seq<Byte>)
    requires f.version == 0 && Framed(f)
    ensures Decode(x, Bytes(f) + rest, 0, 1) ==
      match DecodePayload(x, f.scheme, f.payload)
      case Err(e) => Err(e)
      case Ok(raw) => Ok([raw])
  {
    HeadIsPayload(f, rest);
    DecodeNothing(x, rest, []);
    hide Bytes, HeadPayload, DecodePayload;
    if DecodePayload(x, f.scheme, f.payload).Ok? {
      var raw := DecodePayload(x, f.scheme, f.payload).value;
      assert [raw] + [] == [raw];
    }
  }

  lemma {:induction false} NotKnown(x: Xet, scheme: Byte, payload: seq<Byte>, s: seq<Byte>)
    requires scheme > 2
    ensures !Stands(x, scheme, payload, s)
  {
  }

  // The same of the chunk after any number of earlier ones; earlier ones are not decompressed.
  lemma {:induction false} SkipsByLength(x: Xet, f: RawFrame, rest: seq<Byte>, start: nat, end: nat)
    requires f.version == 0 && Framed(f) && 0 < start && 0 < end
    ensures Decode(x, Bytes(f) + rest, start, end) == Decode(x, rest, start - 1, end - 1)
  {
    HeadIsPayload(f, rest);
    hide Bytes, HeadPayload;
  }

  // Nothing is decoded from a version that is not 0, or from a payload cut short.
  lemma {:induction false} DecoderRefuses(x: Xet, f: RawFrame, start: nat, end: nat)
    requires end > 0
    ensures forall rest :: f.version != 0 ==> Decode(x, Bytes(f) + rest, start, end) == Err(UnsupportedVersion)
    ensures f.version == 0 && |f.payload| < Little(f.length) ==> Decode(x, Bytes(f), start, end) == Err(TruncatedPayload)
  {
    FieldsOf(f, []);
    assert Bytes(f) + [] == Bytes(f);
  }

  // Chunks one after the other.
  function AllBytes(fs: seq<RawFrame>): seq<Byte> {
    if fs == [] then [] else Bytes(fs[0]) + AllBytes(fs[1..])
  }

  // Each chunk is complete and stands for its bytes.
  predicate AllStand(x: Xet, fs: seq<RawFrame>, ss: seq<seq<Byte>>) {
    |fs| == |ss| && forall i :: 0 <= i < |fs| ==> fs[i].version == 0 && Framed(fs[i]) && Stands(x, fs[i].scheme, fs[i].payload, ss[i])
  }

  // Decoding chunks start..end gives exactly what those chunks stand for, each by its own scheme,
  // whatever follows.
  lemma {:induction false} DecodesEach(x: Xet, fs: seq<RawFrame>, ss: seq<seq<Byte>>, tail: seq<Byte>, start: nat, end: nat)
    requires AllStand(x, fs, ss) && start <= end <= |fs|
    ensures Decode(x, AllBytes(fs) + tail, start, end) == Ok(ss[start..end])
  {
    hide Decode, Bytes, Stands, Framed;
    if end == 0 {
      DecodeNothing(x, AllBytes(fs) + tail, ss);
    } else {
      var rest := AllBytes(fs[1..]) + tail;
      assert AllBytes(fs) + tail == Bytes(fs[0]) + rest;
      DecodesEach(x, fs[1..], ss[1..], tail, Less(start), end - 1);
      if start > 0 {
        SkipsByLength(x, fs[0], rest, start, end);
        assert ss[1..][start - 1..end - 1] == ss[start..end];
      } else {
        DecodesFirst(x, fs[0], rest, ss[0], end);
        assert [ss[0]] + ss[1..][0..end - 1] == ss[0..end];
      }
    }
  }

  lemma {:induction false} DecodesFirst(x: Xet, f: RawFrame, rest: seq<Byte>, s: seq<Byte>, end: nat)
    requires f.version == 0 && Framed(f) && Stands(x, f.scheme, f.payload, s) && end > 0
    ensures Decode(x, Bytes(f) + rest, 0, end) == Append([s], Decode(x, rest, 0, end - 1))
  {
    HeadIsPayload(f, rest);
    DecompressMeans(x, f.scheme, f.payload, s);
    hide Bytes, HeadPayload, Stands, Framed, Decompress;
  }

  // ---- the server's walk ----

  function HeaderIn(f: RawFrame): Header {
    Header(f.version, Little(f.length), f.scheme, Little(f.size))
  }

  lemma {:induction false} HeaderIsLittleEndian(f: RawFrame, rest: seq<Byte>)
    requires Framed(f)
    ensures ReadHeader((Bytes(f) + rest)[..8]) == HeaderIn(f)
    ensures (Bytes(f) + rest)[8..8 + Little(f.length)] == f.payload
    ensures (Bytes(f) + rest)[8 + |f.payload|..] == rest
  {
    FieldsOf(f, rest);
    hide Bytes;
    var data := Bytes(f) + rest;
    assert data[..8][1..4] == data[1..4] && data[..8][5..8] == data[5..8];
  }

  // What the walk makes of a chunk whose header the library accepts: a frame if its payload
  // stands for as many bytes as the header claims, else the first defect, with the chunk's number.
  lemma {:induction false} WalkReadsByScheme(x: Xet, f: RawFrame, rest: seq<Byte>, chunk: nat, s: seq<Byte>)
    requires Framed(f) && x.acceptsHeader(HeaderIn(f))
    ensures var r := ReadFrame(x, Bytes(f) + rest, chunk);
      && (r == Got(Frame(f.version, f.scheme, f.payload, s)) <==> Stands(x, f.scheme, f.payload, s) && |s| == Little(f.size))
      && (r == Broken(UnknownScheme(chunk)) <==> f.scheme > 2)
      && (r == Broken(DecompressFailed(chunk)) <==> 1 <= f.scheme <= 2 && x.lz4(f.payload).None?)
      && (Stands(x, f.scheme, f.payload, s) && |s| != Little(f.size) ==>
            r == Broken(LengthMismatch(chunk, |s|, Little(f.size))))
  {
    HeaderIsLittleEndian(f, rest);
    hide Bytes, Stands, ReadHeader;
    if KnownScheme(f.scheme) {
      DecompressMeans(x, f.scheme, f.payload, s);
    } else {
      NotKnown(x, f.scheme, f.payload, s);
    }
  }

  // Where the walk stops: at fewer than eight bytes, a header the library does not accept, or a
  // payload cut short.
  lemma {:induction false} WalkStopsIff(x: Xet, b: seq<Byte>, chunk: nat)
    ensures ReadFrame(x, b, chunk).NoFrame? <==>
      || |b| < 8
      || !x.acceptsHeader(Header(b[0], Little((b[1], b[2], b[3])), b[4], Little((b[5], b[6], b[7]))))
      || |b| < 8 + Little((b[1], b[2], b[3]))
  {
  }

  // After any good chunks, the first bad one decides: the walk fails with its defect and number.
  lemma {:induction false} FirstDefectDecides(x: Xet, fs: seq<Frame>, tail: seq<Byte>, chunk: nat, e: WalkError)
    requires AllWellFormed(x, fs) && ReadFrame(x, tail, chunk + |fs|) == Broken(e)
    ensures Walk(x, PrintAll(x, fs) + tail, chunk) == Err(e)
  {
    hide WellFormed, AllWellFormed, Print, PrintAll, ReadFrame;
    if fs == [] {
      PrintNone(x, tail);
    } else {
      PrintAllHead(x, fs, tail);
      var rest := PrintAll(x, fs[1..]) + tail;
      ReadPrinted(x, fs[0], rest, chunk);
      FirstDefectDecides(x, fs[1..], tail, chunk + 1, e);
    }
  }

  // So of a whole body, whose chunks are numbered from 0.
  lemma {:induction false} BodyDefectIsReported(x: Xet, fs: seq<Frame>, tail: seq<Byte>, e: WalkError)
    requires AllWellFormed(x, fs) && ReadFrame(x, tail, |fs|) == Broken(e)
    ensures WalkInfo(x, PrintAll(x, fs) + tail) == Err(e)
  {
    hide AllWellFormed, PrintAll, ReadFrame, Walk;
    FirstDefectDecides(x, fs, tail, 0, e);
  }

  lemma {:induction false} PrintNone(x: Xet, tail: seq<Byte>)
    ensures PrintAll(x, []) + tail == tail
  {
  }

  // A chunk that walks on its own decodes on its own to the same bytes.
  lemma {:induction false} WalkAndDecoderAgree(x: Xet, f: RawFrame, rest: seq<Byte>, s: seq<Byte>)
    requires f.version == 0 && Framed(f) && x.acceptsHeader(HeaderIn(f)) && |s| == Little(f.size)
    ensures ReadFrame(x, Bytes(f) + rest, 0) == Got(Frame(0, f.scheme, f.payload, s)) <==> Decode(x, Bytes(f) + rest, 0, 1) == Ok([s])
  {
    hide ReadFrame, Decode, Bytes, Stands, Framed, HeaderIn;
    WalkReadsByScheme(x, f, rest, 0, s);
    DecodesByScheme(x, f, rest, s);
  }
}
