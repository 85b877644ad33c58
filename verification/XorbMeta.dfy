/**
 Xorb metadata (crates/server/src/routes/xorb_meta.rs) and the index layout derived from it.
 The slow way re-reads the blob, the fast way uses the layout; they must agree.
 */
module XorbMeta {
  import opened Basics
  import opened XetCore
  import opened Frames

  datatype MetaError = Refused | Corrupt

  datatype LayoutChunk = LayoutChunk(hash: Hash, unpacked: nat, compressed: nat)

  datatype XorbLayout = XorbLayout(numBytesOnDisk: nat, chunks: seq<LayoutChunk>)

  type Triple = (Hash, nat, nat)

  // ---- metadata of a frame list ----

  function HashesOf(x: Xet, fs: seq<Frame>): (r: seq<Hash>)
    ensures |r| == |fs| && forall i :: 0 <= i < |fs| ==> r[i] == x.dataHash(fs[i].raw)
  {
    seq(|fs|, i requires 0 <= i < |fs| => x.dataHash(fs[i].raw))
  }

  function SizedOf(x: Xet, fs: seq<Frame>): (r: seq<Sized>)
    ensures |r| == |fs| && forall i :: 0 <= i < |fs| ==> r[i] == (x.dataHash(fs[i].raw), |fs[i].raw|)
  {
    seq(|fs|, i requires 0 <= i < |fs| => var size: nat := |fs[i].raw|; (x.dataHash(fs[i].raw), size))
  }

  // Running totals as u32 counters hold them.
  function Ends(lens: seq<nat>): (r: seq<nat>)
    ensures |r| == |lens| && forall i :: 0 <= i < |lens| ==> r[i] == Wrap(Sum(lens[..i + 1]))
  {
    seq(|lens|, i requires 0 <= i < |lens| => Wrap(Sum(lens[..i + 1])))
  }

  lemma {:induction false} EndsSnoc(lens: seq<nat>, n: nat)
    ensures Ends(lens + [n]) == Ends(lens) + [Wrap(Sum(lens + [n]))]
  {
    forall i | 0 <= i < |lens| ensures Ends(lens + [n])[i] == Ends(lens)[i] {
      assert (lens + [n])[..i + 1] == lens[..i + 1];
    }
    assert (lens + [n])[..|lens| + 1] == lens + [n];
  }

  function InfoOf(x: Xet, fs: seq<Frame>): XorbInfo {
    XorbInfo(|fs|, HashesOf(x, fs), Ends(FrameLens(fs)), Ends(Lens(Raws(fs))))
  }

  function Prev(s: seq<nat>, i: nat): nat
    requires i <= |s|
  {
    if i == 0 then 0 else s[i - 1]
  }

  predicate Complete(info: XorbInfo) {
    |info.chunkHashes| == |info.boundaryOffsets| == |info.unpackedOffsets| == info.numChunks
  }

  // Differences of a wrapped running total are the lengths it was advanced by.
  lemma {:induction false} EndsDifference(lens: seq<nat>, i: nat)
    requires i < |lens| && lens[i] < U32
    ensures Sub32(Ends(lens)[i], Prev(Ends(lens), i)) == lens[i]
    ensures Prev(Ends(lens), i) == Wrap(Sum(lens[..i]))
  {
    hide Sum, Wrap, Sub32;
    PrevEnd(lens, i);
    SumStep(lens, i);
    WrappedDifference(Sum(lens[..i]), lens[i]);
  }

  lemma {:induction false} PrevEnd(lens: seq<nat>, i: nat)
    requires i <= |lens|
    ensures Prev(Ends(lens), i) == Wrap(Sum(lens[..i]))
  {
    hide Sum, Wrap;
    if i == 0 {
      assert lens[..0] == [];
      SumNothing();
      SmallWrap(0);
    }
  }

  // ---- walk_chunk_frames ----

  function WalkInfo(x: Xet, body: seq<Byte>): Result<XorbInfo, WalkError> {
    match Walk(x, body, 0)
    case Err(e) => Err(e)
    case Ok(fs) => Ok(InfoOf(x, fs))
  }

  function Prepend(done: seq<Frame>, rest: Result<seq<Frame>, WalkError>): Result<seq<Frame>, WalkError> {
    match rest
    case Err(e) => Err(e)
    case Ok(fs) => Ok(done + fs)
  }

  // The four pushes at the end of a turn.
  function Push(info: XorbInfo, hash: Hash, boundary: nat, unpackedEnd: nat): XorbInfo {
    XorbInfo(info.numChunks + 1, info.chunkHashes + [hash],
             info.boundaryOffsets + [boundary], info.unpackedOffsets + [unpackedEnd])
  }

  function FramesLength(fs: seq<Frame>): nat {
    Sum(FrameLens(fs))
  }

  function UnpackedEnd(fs: seq<Frame>): nat {
    Wrap(Sum(Lens(Raws(fs))))
  }

  lemma {:induction false} LensSnoc(fs: seq<Frame>, f: Frame)
    ensures FrameLens(fs + [f]) == FrameLens(fs) + [HEADER + |f.payload|]
    ensures Lens(Raws(fs + [f])) == Lens(Raws(fs)) + [|f.raw|]
  {
  }

  lemma {:induction false} InfoSnoc(x: Xet, fs: seq<Frame>, f: Frame)
    ensures InfoOf(x, fs + [f]) ==
            Push(InfoOf(x, fs), x.dataHash(f.raw), Wrap(FramesLength(fs + [f])), UnpackedEnd(fs + [f]))
  {
    LensSnoc(fs, f);
    assert HashesOf(x, fs + [f]) == HashesOf(x, fs) + [x.dataHash(f.raw)];
    EndsSnoc(FrameLens(fs), HEADER + |f.payload|);
    EndsSnoc(Lens(Raws(fs)), |f.raw|);
  }

  lemma {:induction false} LengthsSnoc(fs: seq<Frame>, f: Frame)
    requires |f.raw| < U32
    ensures FramesLength(fs + [f]) == FramesLength(fs) + HEADER + |f.payload|
    ensures UnpackedEnd(fs + [f]) == Add32(UnpackedEnd(fs), |f.raw|)
  {
    LensSnoc(fs, f);
    SumSnoc(FrameLens(fs), HEADER + |f.payload|);
    SumSnoc(Lens(Raws(fs)), |f.raw|);
    WrappedDifference(Sum(Lens(Raws(fs))), |f.raw|);
  }

  // One turn of the walk, at a position of the body.
  function ReadFrameAt(x: Xet, body: seq<Byte>, pos: nat, chunk: nat): Head
    requires pos <= |body|
  {
    ReadFrame(x, body[pos..], chunk)
  }

  method NextFrame(x: Xet, body: seq<Byte>, pos: nat, chunk: nat) returns (head: Head)
    requires pos + HEADER <= |body|
    ensures head == ReadFrameAt(x, body, pos, chunk)
  {
    ghost var rest := body[pos..];
    assert rest[..HEADER] == body[pos..pos + HEADER];
    var header := ReadHeader(body[pos..pos + HEADER]);
    if !x.acceptsHeader(header) { return NoFrame; }
    var dataStart := pos + HEADER;
    var dataEnd := dataStart + header.compressed;
    if dataEnd > |body| { return NoFrame; }
    if !KnownScheme(header.scheme) { return Broken(UnknownScheme(chunk)); }
    assert rest[HEADER..HEADER + header.compressed] == body[dataStart..dataEnd];
    match Decompress(x, header.scheme, body[dataStart..dataEnd]) {
      case None =>
        return Broken(DecompressFailed(chunk));
      case Some(data) =>
        if |data| != header.uncompressed {
          return Broken(LengthMismatch(chunk, |data|, header.uncompressed));
        }
        return Got(Frame(header.version, header.scheme, body[dataStart..dataEnd], data));
    }
  }

  // The walk has read `done`, stands at `pos`, and what it will return is fixed by the rest.
  ghost predicate Walking(x: Xet, body: seq<Byte>, pos: nat, unpacked: nat, info: XorbInfo, done: seq<Frame>) {
    && pos <= |body| && pos == FramesLength(done)
    && unpacked == UnpackedEnd(done)
    && info == InfoOf(x, done)
    && Walk(x, body, 0) == Prepend(done, Walk(x, body[pos..], |done|))
  }

  lemma {:induction false} Turn(x: Xet, body: seq<Byte>, pos: nat, unpacked: nat, info: XorbInfo, done: seq<Frame>, f: Frame)
    requires Walking(x, body, pos, unpacked, info, done) && ReadFrameAt(x, body, pos, |done|) == Got(f)
    ensures pos + HEADER + |f.payload| <= |body|
    ensures Walking(x, body, pos + HEADER + |f.payload|, Add32(unpacked, |f.raw|),
      Push(info, x.dataHash(f.raw), Wrap(pos + HEADER + |f.payload|), Add32(unpacked, |f.raw|)), done + [f])
  {
    hide Wrap, Add32, InfoOf, UnpackedEnd, FramesLength, Walk, ReadFrame, Push, Prepend;
    InfoSnoc(x, done, f);
    LengthsSnoc(done, f);
    AdvanceWalk(x, body, pos, done, f);
    assert |done + [f]| == |done| + 1;
  }

  method WalkChunkFrames(x: Xet, body: seq<Byte>) returns (r: Result<XorbInfo, WalkError>)
    ensures r == WalkInfo(x, body)
  {
    hide Walking, WalkInfo, ReadFrameAt, Walk, InfoOf, ReadFrame;
    var info := XorbInfo(0, [], [], []);
    var pos, unpacked := 0, 0;
    ghost var done: seq<Frame> := [];
    WalkStarts(x, body);
    while pos + HEADER <= |body|
      invariant pos <= |body| && info.numChunks == |done|
      invariant Walking(x, body, pos, unpacked, info, done)
      decreases |body| - pos
    {
      var head := NextFrame(x, body, pos, info.numChunks);
      if !head.Got? {
        WalkStops(x, body, pos, unpacked, info, done);
        return if head.NoFrame? then Ok(info) else Err(head.error);
      }
      var f := head.frame;
      Turn(x, body, pos, unpacked, info, done, f);
      pos := pos + HEADER + |f.payload|;
      unpacked := Add32(unpacked, |f.raw|);
      info := Push(info, x.dataHash(f.raw), Wrap(pos), unpacked);
      done := done + [f];
    }
    WalkStops(x, body, pos, unpacked, info, done);
    r := Ok(info);
  }

  lemma {:induction false} WalkStarts(x: Xet, body: seq<Byte>)
    ensures Walking(x, body, 0, 0, XorbInfo(0, [], [], []), [])
  {
    assert body[0..] == body;
    if Walk(x, body, 0).Ok? {
      assert [] + Walk(x, body, 0).value == Walk(x, body, 0).value;
    }
  }

  lemma {:induction false} WalkStops(x: Xet, body: seq<Byte>, pos: nat, unpacked: nat, info: XorbInfo, done: seq<Frame>)
    requires Walking(x, body, pos, unpacked, info, done) && pos <= |body|
    requires !ReadFrameAt(x, body, pos, |done|).Got? || pos + HEADER > |body|
    ensures pos + HEADER > |body| ==> ReadFrameAt(x, body, pos, |done|).NoFrame?
    ensures WalkInfo(x, body) ==
      match ReadFrameAt(x, body, pos, |done|) case Broken(e) => Err(e) case _ => Ok(info)
  {
    assert done + [] == done;
  }

  lemma {:induction false} AdvanceWalk(x: Xet, body: seq<Byte>, pos: nat, done: seq<Frame>, f: Frame)
    requires pos <= |body| && ReadFrame(x, body[pos..], |done|) == Got(f)
    ensures pos + HEADER + |f.payload| <= |body|
    ensures Prepend(done, Walk(x, body[pos..], |done|)) ==
            Prepend(done + [f], Walk(x, body[pos + HEADER + |f.payload|..], |done| + 1))
  {
    var rest := body[pos..];
    assert rest[HEADER + |f.payload|..] == body[pos + HEADER + |f.payload|..];
    var w := Walk(x, body[pos + HEADER + |f.payload|..], |done| + 1);
    if w.Ok? {
      assert done + ([f] + w.value) == (done + [f]) + w.value;
    }
  }

  // ---- the aggregated hash ----

  // What xorb_hash_from_info feeds to the aggregation: each hash with the difference of ends.
  function SizedFromInfo(info: XorbInfo): seq<Sized> {
    var n := Min(|info.chunkHashes|, |info.unpackedOffsets|);
    seq(n, i requires 0 <= i < n =>
      (info.chunkHashes[i], Sub32(info.unpackedOffsets[i], Prev(info.unpackedOffsets, i))))
  }

  method XorbHashFromInfo(x: Xet, info: XorbInfo) returns (hash: Hash)
    ensures hash == x.xorbHash(SizedFromInfo(info))
  {
    var prev := 0;
    var sized: seq<Sized> := [];
    for i := 0 to Min(|info.chunkHashes|, |info.unpackedOffsets|)
      invariant sized == SizedFromInfo(info)[..i] && prev == Prev(info.unpackedOffsets, i)
    {
      var end := info.unpackedOffsets[i];
      sized := sized + [(info.chunkHashes[i], Sub32(end, prev))];
      prev := end;
    }
    assert sized == SizedFromInfo(info);
    hash := x.xorbHash(sized);
  }

  lemma {:induction false} InfoRecoversSizes(x: Xet, fs: seq<Frame>)
    requires AllWellFormed(x, fs)
    ensures SizedFromInfo(InfoOf(x, fs)) == SizedOf(x, fs)
  {
    forall i | 0 <= i < |fs| ensures SizedFromInfo(InfoOf(x, fs))[i] == SizedOf(x, fs)[i] {
      assert WellFormed(x, fs[i]);
      EndsDifference(Lens(Raws(fs)), i);
    }
  }

  // ---- the footer policy ----

  predicate HasUnpackedOffsets(info: XorbInfo) {
    |info.unpackedOffsets| == info.numChunks
  }

  function ValidatedInfo(x: Xet, body: seq<Byte>, expected: Hash): Result<XorbInfo, MetaError> {
    if x.readFooter(body).Some? then
      match x.validateXorb(body, expected)
      case None => Err(Refused)
      case Some(None) => Err(Refused)
      case Some(Some(info)) =>
        if HasUnpackedOffsets(info) then Ok(info)
        else match WalkInfo(x, body)
          case Err(_) => Err(Corrupt)
          case Ok(walked) => Ok(walked)
    else
      match WalkInfo(x, body)
      case Err(_) => Err(Refused)
      case Ok(info) =>
        if info.numChunks == 0 || x.xorbHash(SizedFromInfo(info)) != expected then Err(Refused) else Ok(info)
  }

  method ValidatedXorbInfo(x: Xet, body: seq<Byte>, expected: Hash) returns (r: Result<XorbInfo, MetaError>)
    ensures r == ValidatedInfo(x, body, expected)
  {
    if x.readFooter(body).Some? {
      match x.validateXorb(body, expected) {
        case None => return Err(Refused);
        case Some(None) => return Err(Refused);
        case Some(Some(info)) =>
          if HasUnpackedOffsets(info) { return Ok(info); }
          var walked := WalkChunkFrames(x, body);
          return if walked.Ok? then Ok(walked.value) else Err(Corrupt);
      }
    }
    var walked := WalkChunkFrames(x, body);
    if walked.Err? { return Err(Refused); }
    var info := walked.value;
    if info.numChunks == 0 { return Err(Refused); }
    var computed := XorbHashFromInfo(x, info);
    if computed != expected { return Err(Refused); }
    return Ok(info);
  }

  function StoredInfo(x: Xet, body: seq<Byte>): Result<XorbInfo, MetaError> {
    if x.readFooter(body).Some? && HasUnpackedOffsets(x.readFooter(body).value) then Ok(x.readFooter(body).value)
    else match WalkInfo(x, body)
      case Err(_) => Err(Corrupt)
      case Ok(info) => Ok(info)
  }

  method XorbInfoFromStored(x: Xet, body: seq<Byte>) returns (r: Result<XorbInfo, MetaError>)
    ensures r == StoredInfo(x, body)
  {
    var footer := x.readFooter(body);
    if footer.Some? && HasUnpackedOffsets(footer.value) { return Ok(footer.value); }
    var walked := WalkChunkFrames(x, body);
    return if walked.Ok? then Ok(walked.value) else Err(Corrupt);
  }

  // What full footer validation in xet-core promises: the frames walk, aggregate to the
  // expected hash, and a footer with offsets carries exactly the metadata the walk rebuilds.
  ghost predicate FootersChecked(x: Xet) {
    forall body, h ::
      x.validateXorb(body, h).Some? && x.validateXorb(body, h).value.Some? ==>
        var info := x.validateXorb(body, h).value.value;
        && Walk(x, body, 0).Ok?
        && x.xorbHash(SizedOf(x, Walk(x, body, 0).value)) == h
        && x.readFooter(body) == Some(info)
        && (HasUnpackedOffsets(info) ==> info == InfoOf(x, Walk(x, body, 0).value))
  }

  // The frames of a stored body; every stored body walks, see SoundBody.
  function FramesOf(x: Xet, body: seq<Byte>): seq<Frame> {
    match Walk(x, body, 0)
    case Ok(fs) => fs
    case Err(_) => []
  }

  /** What the server may rely on for a body stored under `h`. */
  ghost predicate SoundBody(x: Xet, h: Hash, body: seq<Byte>) {
    && Walk(x, body, 0).Ok?
    && FramesOf(x, body) != []
    && AllWellFormed(x, FramesOf(x, body))
    && StoredInfo(x, body) == Ok(InfoOf(x, FramesOf(x, body)))
    && x.xorbHash(SizedOf(x, FramesOf(x, body))) == h
  }

  // Whatever upload validation accepts on any of its three paths, a later read of the
  // stored bytes finds the same metadata, and it is the metadata of the actual frames.
  lemma {:induction false} AcceptedIsSound(x: Xet, body: seq<Byte>, expected: Hash)
    requires FootersChecked(x)
    requires ValidatedInfo(x, body, expected).Ok? && ValidatedInfo(x, body, expected).value.numChunks != 0
    ensures SoundBody(x, expected, body)
    ensures ValidatedInfo(x, body, expected).value == InfoOf(x, FramesOf(x, body))
  {
    var info := ValidatedInfo(x, body, expected).value;
    if x.readFooter(body).Some? {
      assert x.validateXorb(body, expected).Some?;
      assert x.readFooter(body) == x.validateXorb(body, expected).value;
    }
    var tail := WalkedIsPrinted(x, body, 0);
    InfoRecoversSizes(x, FramesOf(x, body));
  }

  // ---- layouts ----

  function LayoutChunkAt(info: XorbInfo, i: nat): LayoutChunk
    requires Complete(info) && i < info.numChunks
  {
    LayoutChunk(
      info.chunkHashes[i],
      Sub32(info.unpackedOffsets[i], Prev(info.unpackedOffsets, i)),
      Sub32(Sub32(info.boundaryOffsets[i], Prev(info.boundaryOffsets, i)), HEADER))
  }

  function LayoutOf(info: XorbInfo, onDisk: nat): (layout: XorbLayout)
    requires Complete(info)
    ensures |layout.chunks| == info.numChunks
  {
    XorbLayout(onDisk, seq(info.numChunks, i requires 0 <= i < info.numChunks => LayoutChunkAt(info, i)))
  }

  method LayoutFromInfo(info: XorbInfo, onDisk: nat) returns (layout: XorbLayout)
    requires Complete(info)
    ensures layout == LayoutOf(info, onDisk)
  {
    var chunks: seq<LayoutChunk> := [];
    var prevPhysical, prevUnpacked := 0, 0;
    for i := 0 to info.numChunks
      invariant chunks == LayoutOf(info, onDisk).chunks[..i]
      invariant prevPhysical == Prev(info.boundaryOffsets, i) && prevUnpacked == Prev(info.unpackedOffsets, i)
    {
      var physicalEnd, unpackedEnd := info.boundaryOffsets[i], info.unpackedOffsets[i];
      chunks := chunks + [LayoutChunk(
        info.chunkHashes[i],
        Sub32(unpackedEnd, prevUnpacked),
        Sub32(Sub32(physicalEnd, prevPhysical), HEADER))];
      prevPhysical, prevUnpacked := physicalEnd, unpackedEnd;
    }
    layout := XorbLayout(onDisk, chunks);
  }

  // A recorded layout names, chunk by chunk, the hash, size and payload length of the frame.
  lemma {:induction false} LayoutDescribesFrames(x: Xet, fs: seq<Frame>, onDisk: nat, i: nat)
    requires AllWellFormed(x, fs) && i < |fs|
    ensures LayoutOf(InfoOf(x, fs), onDisk).chunks[i] ==
            LayoutChunk(x.dataHash(fs[i].raw), |fs[i].raw|, |fs[i].payload|)
  {
    assert WellFormed(x, fs[i]);
    hide WellFormed, AllWellFormed, Ends, Wrap;
    EndsDifference(Lens(Raws(fs)), i);
    EndsDifference(FrameLens(fs), i);
    HeaderOff(|fs[i].payload|);
  }

  lemma {:induction false} HeaderOff(n: nat)
    requires n < U32
    ensures Sub32(HEADER + n, HEADER) == n
  {
  }

  // ---- byte offsets: from metadata, and from the layout ----

  function ByteOffsets(info: XorbInfo): (r: seq<(nat, nat)>)
    requires Complete(info)
    ensures |r| == info.numChunks
  {
    seq(info.numChunks, i requires 0 <= i < info.numChunks => (Prev(info.boundaryOffsets, i), info.boundaryOffsets[i]))
  }

  method ChunkByteOffsets(info: XorbInfo) returns (offsets: seq<(nat, nat)>)
    requires Complete(info)
    ensures offsets == ByteOffsets(info)
  {
    offsets := [];
    var prev := 0;
    for i := 0 to info.numChunks
      invariant offsets == ByteOffsets(info)[..i] && prev == Prev(info.boundaryOffsets, i)
    {
      var end := info.boundaryOffsets[i];
      offsets := offsets + [(prev, end)];
      prev := end;
    }
  }

  function Spans(chunks: seq<LayoutChunk>): (r: seq<nat>)
    ensures |r| == |chunks| && forall i :: 0 <= i < |chunks| ==> r[i] == HEADER + chunks[i].compressed
  {
    seq(|chunks|, i requires 0 <= i < |chunks| => HEADER + chunks[i].compressed)
  }

  predicate Recorded(layout: XorbLayout) {
    forall c :: c in layout.chunks ==> c.compressed != 0
  }

  function LayoutOffsets(layout: XorbLayout): Option<seq<(nat, nat)>> {
    if !Recorded(layout) then None
    else Some(seq(|layout.chunks|, i requires 0 <= i < |layout.chunks| =>
      (Sum(Spans(layout.chunks)[..i]), Sum(Spans(layout.chunks)[..i + 1]))))
  }

  method ChunkByteOffsetsFromLayout(layout: XorbLayout) returns (r: Option<seq<(nat, nat)>>)
    ensures r == LayoutOffsets(layout)
  {
    if exists c :: c in layout.chunks && c.compressed == 0 { return None; }
    var offsets: seq<(nat, nat)> := [];
    var pos := 0;
    for i := 0 to |layout.chunks|
      invariant offsets == LayoutOffsets(layout).value[..i] && pos == Sum(Spans(layout.chunks)[..i])
    {
      SumStep(Spans(layout.chunks), i);
      var end := pos + HEADER + layout.chunks[i].compressed;
      offsets := offsets + [(pos, end)];
      pos := end;
    }
    assert Recorded(layout) && offsets == LayoutOffsets(layout).value;
    r := Some(offsets);
  }

  // Metadata whose frames each hold at least a header, with every entry a u32.
  ghost predicate Growing(info: XorbInfo) {
    && Complete(info)
    && (forall i :: 0 <= i < info.numChunks ==>
          Prev(info.boundaryOffsets, i) + HEADER <= info.boundaryOffsets[i] < U32)
    && (forall i :: 0 <= i < info.numChunks ==> info.unpackedOffsets[i] < U32)
  }

  lemma {:induction false} SmallSubtraction(a: nat, b: nat)
    requires b <= a < U32
    ensures Sub32(a, b) == a - b
  {
  }

  lemma {:induction false} GrowingSpan(info: XorbInfo, onDisk: nat, i: nat)
    requires Growing(info) && i < info.numChunks
    ensures Spans(LayoutOf(info, onDisk).chunks)[i] == info.boundaryOffsets[i] - Prev(info.boundaryOffsets, i)
  {
    var prev, end := Prev(info.boundaryOffsets, i), info.boundaryOffsets[i];
    SmallSubtraction(end, prev);
    SmallSubtraction(end - prev, HEADER);
    hide Wrap, Sub32, Growing;
  }

  // Steps between consecutive ends add up to the end before.
  lemma {:induction false} StepsTelescope(steps: seq<nat>, ends: seq<nat>, i: nat)
    requires |steps| == |ends| && i <= |ends|
    requires forall k :: 0 <= k < |ends| ==> ends[k] == Prev(ends, k) + steps[k]
    ensures Sum(steps[..i]) == Prev(ends, i)
  {
    hide Sum;
    if i == 0 {
      NoSteps(steps);
    } else {
      StepsTelescope(steps, ends, i - 1);
      SumStep(steps, i - 1);
    }
  }

  lemma {:induction false} NoSteps(steps: seq<nat>)
    ensures Sum(steps[..0]) == 0
  {
  }

  // The fast path equals the slow one whenever it answers, and declines exactly on an empty payload.
  lemma {:induction false} FastOffsetsRefineSlow(info: XorbInfo, onDisk: nat)
    requires Growing(info)
    ensures LayoutOffsets(LayoutOf(info, onDisk)).Some? ==>
      LayoutOffsets(LayoutOf(info, onDisk)).value == ByteOffsets(info)
    ensures LayoutOffsets(LayoutOf(info, onDisk)).None? <==>
      exists i :: 0 <= i < info.numChunks && ByteOffsets(info)[i].1 - ByteOffsets(info)[i].0 == HEADER
  {
    OffsetsAgree(info, onDisk);
    NotRecordedIff(info, onDisk);
    hide Growing, ByteOffsets, LayoutOf, Recorded, Spans;
  }

  lemma {:induction false} OffsetsAgree(info: XorbInfo, onDisk: nat)
    requires Growing(info)
    ensures LayoutOffsets(LayoutOf(info, onDisk)).Some? ==>
      LayoutOffsets(LayoutOf(info, onDisk)).value == ByteOffsets(info)
  {
    var layout := LayoutOf(info, onDisk);
    forall i | 0 <= i < info.numChunks
      ensures Spans(layout.chunks)[i] == info.boundaryOffsets[i] - Prev(info.boundaryOffsets, i)
    {
      GrowingSpan(info, onDisk, i);
    }
    hide LayoutOf, Spans, Recorded;
    forall i | 0 <= i <= info.numChunks ensures Sum(Spans(layout.chunks)[..i]) == Prev(info.boundaryOffsets, i) {
      StepsTelescope(Spans(layout.chunks), info.boundaryOffsets, i);
    }
    hide Growing, Sum;
  }

  lemma {:induction false} NotRecordedIff(info: XorbInfo, onDisk: nat)
    requires Growing(info)
    ensures !Recorded(LayoutOf(info, onDisk)) <==>
      exists i :: 0 <= i < info.numChunks && ByteOffsets(info)[i].1 - ByteOffsets(info)[i].0 == HEADER
  {
    var chunks := LayoutOf(info, onDisk).chunks;
    forall i | 0 <= i < info.numChunks
      ensures chunks[i].compressed == 0 <==> ByteOffsets(info)[i].1 - ByteOffsets(info)[i].0 == HEADER
    {
      GrowingSpan(info, onDisk, i);
      hide LayoutOf, Growing;
    }
    hide LayoutOf, ByteOffsets, Growing;
    if !Recorded(LayoutOf(info, onDisk)) {
      var c :| c in chunks && c.compressed == 0;
      var i :| 0 <= i < info.numChunks && chunks[i] == c;
    } else {
      forall i | 0 <= i < info.numChunks ensures chunks[i].compressed != 0 {
        assert chunks[i] in chunks;
      }
    }
  }

  // ---- dedup triples: from metadata, and from the layout ----

  function InfoTriples(info: XorbInfo): seq<Triple>
    requires Complete(info)
  {
    seq(info.numChunks, i requires 0 <= i < info.numChunks =>
      (info.chunkHashes[i], Prev(info.unpackedOffsets, i),
       Sub32(info.unpackedOffsets[i], Prev(info.unpackedOffsets, i))))
  }

  method ChunkInfoTriples(info: XorbInfo) returns (r: seq<Triple>)
    requires Complete(info)
    ensures r == InfoTriples(info)
  {
    r := [];
    var prev := 0;
    for i := 0 to info.numChunks
      invariant r == InfoTriples(info)[..i] && prev == Prev(info.unpackedOffsets, i)
    {
      var end := info.unpackedOffsets[i];
      r := r + [(info.chunkHashes[i], prev, Sub32(end, prev))];
      prev := end;
    }
  }

  function Sizes(chunks: seq<LayoutChunk>): (r: seq<nat>)
    ensures |r| == |chunks| && forall i :: 0 <= i < |chunks| ==> r[i] == chunks[i].unpacked
  {
    seq(|chunks|, i requires 0 <= i < |chunks| => chunks[i].unpacked)
  }

  function LayoutTriples(layout: XorbLayout): seq<Triple> {
    seq(|layout.chunks|, i requires 0 <= i < |layout.chunks| =>
      (layout.chunks[i].hash, Wrap(Sum(Sizes(layout.chunks)[..i])), layout.chunks[i].unpacked))
  }

  // The layout branch of get_dedup (crates/server/src/routes/dedup.rs).
  method TriplesFromLayout(layout: XorbLayout) returns (r: seq<Triple>)
    ensures r == LayoutTriples(layout)
  {
    r := [];
    var byteOffset := 0;
    for i := 0 to |layout.chunks|
      invariant r == LayoutTriples(layout)[..i] && byteOffset == Wrap(Sum(Sizes(layout.chunks)[..i]))
    {
      var c := layout.chunks[i];
      SumStep(Sizes(layout.chunks), i);
      r := r + [(c.hash, byteOffset, c.unpacked)];
      byteOffset := Add32(byteOffset, c.unpacked);
    }
  }

  lemma {:induction false} WrappedAdvance(total: nat, prev: nat, end: nat)
    requires Wrap(total) == prev && end < U32
    ensures Wrap(total + Sub32(end, prev)) == end
  {
    var q := total / U32;
    assert total == q * U32 + prev;
    if prev <= end {
      SmallSubtraction(end, prev);
      assert total + Sub32(end, prev) == q * U32 + end;
    } else {
      assert Sub32(end, prev) == end - prev + U32;
      assert total + Sub32(end, prev) == (q + 1) * U32 + end;
    }
  }

  lemma {:induction false} WrappedStepsTelescope(steps: seq<nat>, ends: seq<nat>, i: nat)
    requires |steps| == |ends| && i <= |ends|
    requires forall k :: 0 <= k < |ends| ==> steps[k] == Sub32(ends[k], Prev(ends, k)) && ends[k] < U32
    ensures Wrap(Sum(steps[..i])) == Prev(ends, i)
  {
    hide Sum, Wrap, Sub32;
    if i == 0 {
      assert steps[..0] == [];
      SumNothing();
      SmallWrap(0);
    } else {
      WrappedStepsTelescope(steps, ends, i - 1);
      SumStep(steps, i - 1);
      WrappedAdvance(Sum(steps[..i - 1]), Prev(ends, i - 1), ends[i - 1]);
    }
  }

  lemma {:induction false} FastTriplesRefineSlow(info: XorbInfo, onDisk: nat)
    requires Growing(info)
    ensures LayoutTriples(LayoutOf(info, onDisk)) == InfoTriples(info)
  {
    GrowingIsComplete(info);
    hide Growing;
    forall i | 0 <= i < info.numChunks
      ensures LayoutTriples(LayoutOf(info, onDisk))[i] == InfoTriples(info)[i]
    {
      TripleAgrees(info, onDisk, i);
    }
    hide LayoutOf, Sum, Wrap, Sub32, Prev;
  }

  lemma {:induction false} GrowingIsComplete(info: XorbInfo)
    requires Growing(info)
    ensures Complete(info)
  {
  }

  lemma {:induction false} TripleAgrees(info: XorbInfo, onDisk: nat, i: nat)
    requires Growing(info) && i < info.numChunks
    ensures LayoutTriples(LayoutOf(info, onDisk))[i] == InfoTriples(info)[i]
  {
    hide Sum, Wrap, Sub32;
    WrappedStepsTelescope(Sizes(LayoutOf(info, onDisk).chunks), info.unpackedOffsets, i);
  }

  lemma {:induction false} BoundariesGrow(fs: seq<Frame>, i: nat)
    requires Sum(FrameLens(fs)) < U32 && i < |fs|
    ensures Prev(Ends(FrameLens(fs)), i) == Sum(FrameLens(fs)[..i])
    ensures Ends(FrameLens(fs))[i] == Sum(FrameLens(fs)[..i + 1])
    ensures Sum(FrameLens(fs)[..i]) + HEADER <= Sum(FrameLens(fs)[..i + 1]) < U32
  {
    var lens := FrameLens(fs);
    hide Sum, Wrap;
    SumStep(lens, i);
    SumSplit(lens, i + 1);
    PrevEnd(lens, i);
    SmallWrap(Sum(lens[..i]));
    SmallWrap(Sum(lens[..i + 1]));
  }

  lemma {:induction false} SmallWrap(n: nat)
    requires n < U32
    ensures Wrap(n) == n
  {
  }

  lemma {:induction false} SumNothing()
    ensures Sum([]) == 0
  {
  }

  // Metadata of actual frames qualifies as long as the serialised frames fit u32 offsets.
  lemma {:induction false} FramesGrow(x: Xet, fs: seq<Frame>)
    requires Sum(FrameLens(fs)) < U32
    ensures Growing(InfoOf(x, fs))
    ensures forall i :: 0 <= i < |fs| ==>
      ByteOffsets(InfoOf(x, fs))[i] == (Sum(FrameLens(fs)[..i]), Sum(FrameLens(fs)[..i + 1]))
  {
    var info := InfoOf(x, fs);
    forall i | 0 <= i < |fs|
      ensures Prev(info.boundaryOffsets, i) + HEADER <= info.boundaryOffsets[i] < U32
      ensures ByteOffsets(info)[i] == (Sum(FrameLens(fs)[..i]), Sum(FrameLens(fs)[..i + 1]))
    {
      BoundariesGrow(fs, i);
    }
  }
}
