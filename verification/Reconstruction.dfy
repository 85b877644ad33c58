/**
 Reading a file back: the server's reconstruction answer (crates/server/src/routes/
 reconstruction.rs), ranged xorb fetches, and the client's reassembly
 (python/src/openxet_fsspec/client.py `download`).
 */
module Reconstruction {
  import opened Basics
  import opened XetCore
  import opened Frames
  import opened XorbMeta
  import opened Decoding
  import opened RangeMerging
  import opened RangeReads
  import opened RangeHeaders
  import opened Store
  import opened Invariants

  datatype ReadError =
    | NotFound
    | BadRequest
    | Internal
    | RangeNotSatisfiable
    | NoFetchInfo
    | FetchFailed
    | DecodeFailed

  /** One merged chunk range with the inclusive byte span to fetch for it. */
  datatype FetchInfo = FetchInfo(range: ChunkRange, first: nat, last: nat)

  datatype Answer = Answer(offset: nat, terms: seq<Term>, fetch: map<Hash, seq<FetchInfo>>)

  // ---- the server ----

  function FirstAbout(files: seq<FileBlock>, f: Hash): Option<FileBlock> {
    if files == [] then None
    else if files[0].hash == f then Some(files[0])
    else FirstAbout(files[1..], f)
  }

  function TermsOf(entries: seq<Entry>): (r: seq<Term>)
    ensures |r| == |entries| && forall i :: 0 <= i < |entries| ==> r[i] == entries[i].term
  {
    seq(|entries|, i requires 0 <= i < |entries| => entries[i].term)
  }

  function TrimTo(terms: seq<Term>, header: RangeHeader): Result<(nat, seq<Term>), ReadError> {
    match header
    case Absent => Ok((0, terms))
    case Malformed => Err(BadRequest)
    case Span(a, b) =>
      if a > b || a >= TotalSize(terms) then Err(RangeNotSatisfiable)
      else Ok(Trim(terms, a, Min(b, TotalSize(terms) - 1)))
  }

  function ReconstructionTerms(x: Xet, st: State, caller: Caller, f: Hash, header: RangeHeader)
    : Result<(nat, seq<Term>), ReadError>
  {
    if !caller.admin && (f, caller.owner) !in st.claims then Err(NotFound)
    else if f !in st.fileIndex then Err(NotFound)
    else if st.fileIndex[f] !in st.shards then Err(NotFound)
    else match x.parseShard(st.shards[st.fileIndex[f]].bytes)
      case None => Err(Internal)
      case Some(shard) =>
        match FirstAbout(shard.files, f)
        case None => Err(Internal)
        case Some(block) => TrimTo(TermsOf(block.entries), header)
  }

  // From the layout when it answers, else from the stored blob.
  function ChunkOffsets(x: Xet, st: State, h: Hash): Result<seq<(nat, nat)>, ReadError> {
    if h in st.layouts && LayoutOffsets(st.layouts[h]).Some? then Ok(LayoutOffsets(st.layouts[h]).value)
    else if h !in st.xorbs then Err(NotFound)
    else match StoredInfo(x, st.xorbs[h].bytes)
      case Err(_) => Err(Internal)
      case Ok(info) => if Complete(info) then Ok(ByteOffsets(info)) else Err(Internal)
  }

  // Ranges past the known chunks drop out; the rest get their byte span.
  function FetchInfos(offsets: seq<(nat, nat)>, ranges: Ranges): seq<FetchInfo> {
    if ranges == [] then []
    else
      var r := ranges[0];
      var end := Min(r.end, |offsets|);
      if r.start >= |offsets| || end == 0 then FetchInfos(offsets, ranges[1..])
      else [FetchInfo(r, offsets[r.start].0, Less(offsets[end - 1].1))] + FetchInfos(offsets, ranges[1..])
  }

  predicate OffsetsKnown(x: Xet, st: State, terms: seq<Term>) {
    forall i :: 0 <= i < |terms| ==> ChunkOffsets(x, st, terms[i].xorb).Ok?
  }

  function XorbFetch(x: Xet, st: State, terms: seq<Term>, h: Hash): seq<FetchInfo>
    requires ChunkOffsets(x, st, h).Ok?
  {
    FetchInfos(ChunkOffsets(x, st, h).value, MergedRanges(RangesOf(terms, h)))
  }

  // One entry per xorb that has a fetchable range.
  function FetchMap(x: Xet, st: State, terms: seq<Term>): map<Hash, seq<FetchInfo>>
    requires OffsetsKnown(x, st, terms)
  {
    map i | 0 <= i < |terms| && XorbFetch(x, st, terms, terms[i].xorb) != [] ::
      terms[i].xorb := XorbFetch(x, st, terms, terms[i].xorb)
  }

  // build_xorb_fetch_entries, one xorb after the other.
  function PlanFetches(x: Xet, st: State, perXorb: seq<(Hash, Ranges)>): Result<map<Hash, seq<FetchInfo>>, ReadError> {
    if perXorb == [] then Ok(map[])
    else
      var (h, ranges) := perXorb[|perXorb| - 1];
      match PlanFetches(x, st, perXorb[..|perXorb| - 1])
      case Err(e) => Err(e)
      case Ok(fetch) =>
        match ChunkOffsets(x, st, h)
        case Err(e) => Err(e)
        case Ok(offsets) => Ok(WithFetch(fetch, h, FetchInfos(offsets, ranges)))
  }

  function WithFetch(fetch: map<Hash, seq<FetchInfo>>, h: Hash, infos: seq<FetchInfo>): map<Hash, seq<FetchInfo>> {
    if infos == [] then fetch else fetch[h := infos]
  }

  function GetReconstruction(x: Xet, st: State, caller: Caller, f: Hash, header: RangeHeader): Result<Answer, ReadError> {
    match ReconstructionTerms(x, st, caller, f, header)
    case Err(e) => Err(e)
    case Ok((offset, terms)) =>
      match PlanFetches(x, st, PerXorb(terms))
      case Err(e) => Err(e)
      case Ok(fetch) => Ok(Answer(offset, terms, fetch))
  }

  // get_xorb with a Range header: the end clamps to the object, the start must be inside it.
  function GetXorbRange(st: State, h: Hash, first: nat, last: nat): Result<seq<Byte>, ReadError> {
    if h !in st.xorbs then Err(NotFound)
    else if first > last || first >= |st.xorbs[h].bytes| then Err(RangeNotSatisfiable)
    else Ok(Clip(st.xorbs[h].bytes, first, last + 1))
  }

  // ---- the client ----

  function Covering(infos: seq<FetchInfo>, t: Term): Option<FetchInfo> {
    if infos == [] then None
    else if infos[0].range.start <= t.start && infos[0].range.end >= t.end then Some(infos[0])
    else Covering(infos[1..], t)
  }

  function FetchTerm(x: Xet, st: State, answer: Answer, t: Term): Result<seq<Byte>, ReadError> {
    var infos := if t.xorb in answer.fetch then answer.fetch[t.xorb] else [];
    match Covering(infos, t)
    case None => Err(NoFetchInfo)
    case Some(info) =>
      match GetXorbRange(st, t.xorb, info.first, info.last)
      case Err(_) => Err(FetchFailed)
      case Ok(data) =>
        if t.start < info.range.start || t.end < info.range.start then Err(DecodeFailed)
        else match Decode(x, data, t.start - info.range.start, t.end - info.range.start)
          case Err(_) => Err(DecodeFailed)
          case Ok(parts) => Ok(Join(parts))
  }

  function FetchTerms(x: Xet, st: State, answer: Answer, terms: seq<Term>): Result<seq<seq<Byte>>, ReadError> {
    if terms == [] then Ok([])
    else match FetchTerm(x, st, answer, terms[0])
      case Err(e) => Err(e)
      case Ok(part) =>
        match FetchTerms(x, st, answer, terms[1..])
        case Err(e) => Err(e)
        case Ok(rest) => Ok([part] + rest)
  }

  // What the server makes of the header the client sends.
  function HeaderFor(start: Option<nat>, end: Option<nat>): RangeHeader {
    ParseRangeHeader(ClientHeader(start, end))
  }

  lemma {:induction false} HeaderIs(start: Option<nat>, end: Option<nat>)
    ensures HeaderFor(start, end) ==
      if start.None? then Absent
      else if end.Some? && start.value < U64 && end.value < U64 then Span(start.value, end.value)
      else Malformed
  {
    ClientHeaderParses(start, end);
    hide ParseRangeHeader, ClientHeader;
  }

  function FinalSlice(buf: seq<Byte>, offset: nat, start: Option<nat>, end: Option<nat>): seq<Byte> {
    if start.Some? && end.Some? && start.value <= end.value
    then Clip(buf, offset, offset + (end.value - start.value + 1))
    else Clip(buf, offset, |buf|)
  }

  function Download(x: Xet, st: State, caller: Caller, f: Hash, start: Option<nat>, end: Option<nat>)
    : Result<seq<Byte>, ReadError>
  {
    match GetReconstruction(x, st, caller, f, HeaderFor(start, end))
    case Err(e) => Err(e)
    case Ok(answer) =>
      match FetchTerms(x, st, answer, answer.terms)
      case Err(e) => Err(e)
      case Ok(parts) => Ok(FinalSlice(Join(parts), answer.offset, start, end))
  }

  // ---- what the file is ----

  function FileEntries(x: Xet, st: State, f: Hash): seq<Entry> {
    if f !in st.fileIndex then []
    else match FirstAbout(ShardFiles(x, st.shards, st.fileIndex[f]), f)
      case None => []
      case Some(block) => block.entries
  }

  function TermParts(x: Xet, xorbs: map<Hash, Blob>, terms: seq<Term>): (r: seq<seq<Byte>>)
    ensures |r| == |terms| && forall i :: 0 <= i < |terms| ==> r[i] == TermBytes(x, xorbs, terms[i])
  {
    seq(|terms|, i requires 0 <= i < |terms| => TermBytes(x, xorbs, terms[i]))
  }

  /** The bytes an indexed file stands for on the stored xorbs. */
  function FileContent(x: Xet, st: State, f: Hash): seq<Byte> {
    Join(TermParts(x, st.xorbs, TermsOf(FileEntries(x, st, f))))
  }

  ghost predicate AllInStore(x: Xet, xorbs: map<Hash, Blob>, terms: seq<Term>) {
    forall i :: 0 <= i < |terms| ==> TermInStore(x, xorbs, terms[i])
  }

  lemma {:induction false} FirstIsAbout(files: seq<FileBlock>, f: Hash)
    requires exists i :: 0 <= i < |files| && files[i].hash == f
    ensures FirstAbout(files, f).Some? && FirstAbout(files, f).value.hash == f
    ensures exists i :: 0 <= i < |files| && files[i] == FirstAbout(files, f).value
  {
    if files[0].hash != f {
      var i :| 0 <= i < |files| && files[i].hash == f;
      assert files[1..][i - 1].hash == f;
      FirstIsAbout(files[1..], f);
      var j :| 0 <= j < |files[1..]| && files[1..][j] == FirstAbout(files[1..], f).value;
      assert files[j + 1] == FirstAbout(files, f).value;
    }
  }

  // In a reachable state the file a reader finds is a valid one.
  lemma {:induction false} IndexedFileIsValid(x: Xet, st: State, f: Hash)
    requires Inv(x, st) && f in st.fileIndex
    ensures AllInStore(x, st.xorbs, TermsOf(FileEntries(x, st, f)))
    ensures AllValid(x, st.xorbs, FileEntries(x, st, f))
    ensures x.fileHash(FileChunks(x, st.xorbs, FileEntries(x, st, f))) == f
  {
    FoundBlockIsValid(x, st, f);
    hide Inv, FileChunks;
    ValidFileHasTerms(x, st.xorbs, FirstAbout(ShardFiles(x, st.shards, st.fileIndex[f]), f).value);
  }

  lemma {:induction false} FoundBlockIsValid(x: Xet, st: State, f: Hash)
    requires Inv(x, st) && f in st.fileIndex
    ensures var found := FirstAbout(ShardFiles(x, st.shards, st.fileIndex[f]), f);
      found.Some? && found.value.hash == f && ValidFile(x, st.xorbs, found.value)
  {
    assert FileSound(x, st, f);
    hide ValidFile, ShardFiles;
    FirstIsAbout(ShardFiles(x, st.shards, st.fileIndex[f]), f);
  }

  lemma {:induction false} ValidFileHasTerms(x: Xet, xorbs: map<Hash, Blob>, b: FileBlock)
    requires ValidFile(x, xorbs, b)
    ensures AllInStore(x, xorbs, TermsOf(b.entries)) && AllValid(x, xorbs, b.entries)
    ensures x.fileHash(FileChunks(x, xorbs, b.entries)) == b.hash
  {
    hide FileChunks, FramesOf;
    forall i | 0 <= i < |b.entries| ensures TermInStore(x, xorbs, b.entries[i].term) {
      assert ValidTerm(x, xorbs, b.entries[i]);
    }
  }

  ghost predicate AllValid(x: Xet, xorbs: map<Hash, Blob>, entries: seq<Entry>) {
    forall i :: 0 <= i < |entries| ==> ValidTerm(x, xorbs, entries[i])
  }

  // The server finds it for whoever may read it, and trims it as asked.
  lemma {:induction false} ReaderFindsFile(x: Xet, st: State, caller: Caller, f: Hash, header: RangeHeader)
    requires Inv(x, st) && f in st.fileIndex && MayRead(st, caller, f)
    ensures ReconstructionTerms(x, st, caller, f, header) == TrimTo(TermsOf(FileEntries(x, st, f)), header)
  {
    assert FileSound(x, st, f);
    FirstIsAbout(ShardFiles(x, st.shards, st.fileIndex[f]), f);
    hide TrimTo;
  }

  // ---- byte spans ----

  function Boundary(fs: seq<Frame>, i: nat): nat
    requires i <= |fs|
  {
    Sum(FrameLens(fs)[..i])
  }

  function Boundaries(fs: seq<Frame>): (r: seq<(nat, nat)>)
    ensures |r| == |fs| && forall i :: 0 <= i < |fs| ==> r[i] == (Boundary(fs, i), Boundary(fs, i + 1))
  {
    seq(|fs|, i requires 0 <= i < |fs| => (Boundary(fs, i), Boundary(fs, i + 1)))
  }

  lemma {:induction false} BodyHoldsFrames(x: Xet, body: seq<Byte>) returns (tail: seq<Byte>)
    requires Walk(x, body, 0).Ok?
    ensures AllWellFormed(x, FramesOf(x, body)) && body == PrintAll(x, FramesOf(x, body)) + tail
    ensures Boundary(FramesOf(x, body), |FramesOf(x, body)|) <= |body|
  {
    tail := WalkedIsPrinted(x, body, 0);
    var fs := FramesOf(x, body);
    PrintAllLength(x, fs);
    assert FrameLens(fs)[..|fs|] == FrameLens(fs);
  }

  // Whichever path answers, layout or blob, the offsets are the frame boundaries.
  lemma {:induction false} OffsetsAreBoundaries(x: Xet, st: State, h: Hash)
    requires Inv(x, st) && h in st.xorbs
    ensures ChunkOffsets(x, st, h) == Ok(Boundaries(FramesOf(x, st.xorbs[h].bytes)))
  {
    var body := st.xorbs[h].bytes;
    var fs := FramesOf(x, body);
    assert SoundBody(x, h, body);
    var tail := BodyHoldsFrames(x, body);
    assert FrameLens(fs)[..|fs|] == FrameLens(fs);
    FramesGrow(x, fs);
    hide Growing, SoundBody, BlobsSound, FilesSound, ShardsSound, ClaimsSized, ClaimsMatch, RowsDistinct, LayoutOffsets, LayoutOf,
      FrameLens, Walk, PrintAll, AllWellFormed;
    FastOffsetsRefineSlow(InfoOf(x, fs), |body|);
    InfoBoundaries(x, fs);
  }

  lemma {:induction false} InfoBoundaries(x: Xet, fs: seq<Frame>)
    requires Sum(FrameLens(fs)) < U32
    ensures Complete(InfoOf(x, fs)) && ByteOffsets(InfoOf(x, fs)) == Boundaries(fs)
  {
    FramesGrow(x, fs);
    hide InfoOf, Growing, ByteOffsets, FrameLens, Sum;
    assert forall i :: 0 <= i < |fs| ==> ByteOffsets(InfoOf(x, fs))[i] == Boundaries(fs)[i];
  }

  // The span of chunks s..e holds exactly their frames.
  lemma {:induction false} SpanHoldsChunks(x: Xet, body: seq<Byte>, s: nat, e: nat)
    requires Walk(x, body, 0).Ok? && s < e <= |FramesOf(x, body)|
    ensures var fs := FramesOf(x, body);
      && AllWellFormed(x, fs[s..e])
      && Boundary(fs, s) < Boundary(fs, e) <= |body|
      && body[Boundary(fs, s)..Boundary(fs, e)] == PrintAll(x, fs[s..e])
  {
    var fs := FramesOf(x, body);
    var tail := BodyHoldsFrames(x, body);
    hide FramesOf, PrintAll, AllWellFormed, FrameLens, Walk;
    SliceIsPrinted(x, fs, tail, s, e);
    SliceIsWellFormed(x, fs, s, e);
    BoundaryGrows(fs, s, e);
  }

  lemma {:induction false} SliceIsWellFormed(x: Xet, fs: seq<Frame>, s: nat, e: nat)
    requires AllWellFormed(x, fs) && s <= e <= |fs|
    ensures AllWellFormed(x, fs[s..e])
  {
    hide WellFormed;
  }

  lemma {:induction false} BoundaryGrows(fs: seq<Frame>, s: nat, e: nat)
    requires s < e <= |fs|
    ensures Boundary(fs, s) < Boundary(fs, e) <= Boundary(fs, |fs|)
  {
    SumStep(FrameLens(fs), s);
    SumSlice(FrameLens(fs), s + 1, e);
    SumSlice(FrameLens(fs), e, |fs|);
  }

  lemma {:induction false} CoveringFound(offsets: seq<(nat, nat)>, ranges: Ranges, t: Term, i: nat)
    requires i < |ranges| && ranges[i].start <= t.start < t.end <= ranges[i].end && t.end <= |offsets|
    ensures var found := Covering(FetchInfos(offsets, ranges), t);
      && found.Some?
      && found.value.range.start <= t.start && t.end <= found.value.range.end
      && found.value.range.start < |offsets|
      && found.value.range in ranges
      && found.value.first == offsets[found.value.range.start].0
      && found.value.last == Less(offsets[Min(found.value.range.end, |offsets|) - 1].1)
  {
    if !(ranges[0].start <= t.start && ranges[0].end >= t.end) {
      CoveringFound(offsets, ranges[1..], t, i - 1);
    }
  }

  // With all offsets known the plan is the fetch map, whatever order the xorbs come in.
  lemma {:induction false} PlansSoFar(x: Xet, st: State, terms: seq<Term>, k: nat)
    requires OffsetsKnown(x, st, terms) && k <= |PerXorb(terms)|
    ensures var plan, seen := PlanFetches(x, st, PerXorb(terms)[..k]), FirstSeen(terms);
      && plan.Ok?
      && (forall j :: 0 <= j < |seen| ==> ChunkOffsets(x, st, seen[j]).Ok?)
      && (forall h :: h in plan.value <==> h in seen[..k] && XorbFetch(x, st, terms, h) != [])
      && (forall h :: h in plan.value ==> plan.value[h] == XorbFetch(x, st, terms, h))
  {
    hide ChunkOffsets, FetchInfos, MergedRanges, RangesOf, FirstSeen;
    var pairs, seen := PerXorb(terms), FirstSeen(terms);
    forall j | 0 <= j < |seen| ensures ChunkOffsets(x, st, seen[j]).Ok? {
      SeenIsKnown(x, st, terms, seen[j]);
    }
    if k > 0 {
      PlansSoFar(x, st, terms, k - 1);
      assert pairs[..k][..k - 1] == pairs[..k - 1];
      assert seen[..k] == seen[..k - 1] + [seen[k - 1]];
    }
  }

  lemma {:induction false} SeenIsKnown(x: Xet, st: State, terms: seq<Term>, h: Hash)
    requires OffsetsKnown(x, st, terms) && h in FirstSeen(terms)
    ensures ChunkOffsets(x, st, h).Ok?
  {
    hide ChunkOffsets;
    FirstSeenMembers(terms, h);
  }

  lemma {:induction false} PlanIsFetchMap(x: Xet, st: State, terms: seq<Term>)
    requires OffsetsKnown(x, st, terms)
    ensures PlanFetches(x, st, PerXorb(terms)) == Ok(FetchMap(x, st, terms))
  {
    var pairs, seen := PerXorb(terms), FirstSeen(terms);
    PlansSoFar(x, st, terms, |pairs|);
    assert pairs[..|pairs|] == pairs && seen[..|seen|] == seen;
    hide ChunkOffsets, PlanFetches, XorbFetch, FetchMap, PerXorb, FirstSeen, Mentions;
    var plan, all := PlanFetches(x, st, pairs).value, FetchMap(x, st, terms);
    forall h ensures h in plan <==> h in all {
      FirstSeenMembers(terms, h);
      FetchMapMembers(x, st, terms, h);
    }
    assert plan.Keys == all.Keys;
    forall h | h in plan ensures plan[h] == all[h] {
      FetchMapMembers(x, st, terms, h);
    }
    assert plan == all;
  }

  lemma {:induction false} FetchMapMembers(x: Xet, st: State, terms: seq<Term>, h: Hash)
    requires OffsetsKnown(x, st, terms)
    ensures h in FetchMap(x, st, terms) <==> Mentions(terms, h) && XorbFetch(x, st, terms, h) != []
    ensures h in FetchMap(x, st, terms) ==> FetchMap(x, st, terms)[h] == XorbFetch(x, st, terms, h)
  {
    hide ChunkOffsets, XorbFetch;
    if Mentions(terms, h) && XorbFetch(x, st, terms, h) != [] {
      var i :| 0 <= i < |terms| && terms[i].xorb == h;
      FetchMapHas(x, st, terms, i);
    }
  }

  // ---- one term ----

  ghost predicate AnswerFor(x: Xet, st: State, terms: seq<Term>, answer: Answer) {
    && OffsetsKnown(x, st, terms)
    && answer.terms == terms && answer.fetch == FetchMap(x, st, terms)
  }

  lemma {:induction false} FetchMapHas(x: Xet, st: State, terms: seq<Term>, i: nat)
    requires OffsetsKnown(x, st, terms) && i < |terms| && XorbFetch(x, st, terms, terms[i].xorb) != []
    ensures terms[i].xorb in FetchMap(x, st, terms)
    ensures FetchMap(x, st, terms)[terms[i].xorb] == XorbFetch(x, st, terms, terms[i].xorb)
  {
    hide XorbFetch;
  }

  // The chunk range the client picks for a term, with its byte span.
  ghost predicate Covered(fs: seq<Frame>, t: Term, info: FetchInfo) {
    && info.range.start <= t.start < t.end <= Min(info.range.end, |fs|)
    && info.first == Boundary(fs, info.range.start)
    && info.last == Less(Boundary(fs, Min(info.range.end, |fs|)))
  }

  // The merged ranges of a xorb hold every term that refers to it.
  lemma {:induction false} TermHasRange(x: Xet, xorbs: map<Hash, Blob>, terms: seq<Term>, i: nat) returns (j: nat)
    requires AllInStore(x, xorbs, terms) && i < |terms|
    ensures var t := terms[i];
      var merged := MergedRanges(RangesOf(terms, t.xorb));
      j < |merged| && Within(ChunkRange(t.start, t.end), merged[j])
  {
    var t := terms[i];
    var ranges := RangesOf(terms, t.xorb);
    RangesOfMembers(terms, t.xorb, ChunkRange(t.start, t.end));
    MergedKeepsChunks(ranges);
    assert HasHome(MergedRanges(ranges), ChunkRange(t.start, t.end));
    j :| 0 <= j < |MergedRanges(ranges)| && Within(ChunkRange(t.start, t.end), MergedRanges(ranges)[j]);
  }

  // The client finds a covering range for every term of the answer.
  lemma {:induction false} TermIsCovered(x: Xet, st: State, terms: seq<Term>, answer: Answer, i: nat)
    requires Inv(x, st) && AllInStore(x, st.xorbs, terms) && AnswerFor(x, st, terms, answer) && i < |terms|
    ensures var t := terms[i];
      && TermInStore(x, st.xorbs, t) && Walk(x, st.xorbs[t.xorb].bytes, 0).Ok?
      && t.xorb in answer.fetch
      && Covering(answer.fetch[t.xorb], t).Some?
      && Covered(FramesOf(x, st.xorbs[t.xorb].bytes), t, Covering(answer.fetch[t.xorb], t).value)
  {
    hide BodyLayout, FramesOf, MergedRanges, RangesOf, ChunkOffsets, ClaimsSized, FileSound, RowsDistinct, Walk, StoredInfo;
    var t := terms[i];
    assert TermInStore(x, st.xorbs, t);
    assert SoundBody(x, t.xorb, st.xorbs[t.xorb].bytes);
    OffsetsAreBoundaries(x, st, t.xorb);
    var fs := FramesOf(x, st.xorbs[t.xorb].bytes);
    var j := TermHasRange(x, st.xorbs, terms, i);
    CoveringFound(Boundaries(fs), MergedRanges(RangesOf(terms, t.xorb)), t, j);
    FetchMapHas(x, st, terms, i);
  }

  // Fetching a covering span and decoding the term inside it gives the term's bytes.
  lemma {:induction false} SpanDecodes(x: Xet, body: seq<Byte>, s: nat, e: nat, a: nat, b: nat)
    requires OnlyVersionZero(x) && Walk(x, body, 0).Ok?
    requires s <= a < b <= e <= |FramesOf(x, body)|
    ensures var fs := FramesOf(x, body);
      && Boundary(fs, s) < Boundary(fs, e) <= |body|
      && Decode(x, Clip(body, Boundary(fs, s), Boundary(fs, e)), a - s, b - s) == Ok(Raws(fs[a..b]))
  {
    hide *;
    SpanHoldsChunks(x, body, s, e);
    var fs := FramesOf(x, body);
    var part := fs[s..e];
    ClipInside(body, Boundary(fs, s), Boundary(fs, e));
    DecodePrinted(x, part, [], a - s, b - s);
    assert PrintAll(x, part) + [] == PrintAll(x, part);
    assert Raws(part)[a - s..b - s] == Raws(fs[a..b]);
  }

  lemma {:induction false} TermIsFetched(x: Xet, st: State, terms: seq<Term>, answer: Answer, i: nat)
    requires Inv(x, st) && OnlyVersionZero(x)
    requires AllInStore(x, st.xorbs, terms) && AnswerFor(x, st, terms, answer) && i < |terms|
    ensures FetchTerm(x, st, answer, terms[i]) == Ok(TermBytes(x, st.xorbs, terms[i]))
  {
    hide Inv, FramesOf, Boundary, Walk, Decode, Covering, AnswerFor, AllInStore, OnlyVersionZero, Clip, Join, Raws;
    var t := terms[i];
    TermIsCovered(x, st, terms, answer, i);
    var body := st.xorbs[t.xorb].bytes;
    var fs, info := FramesOf(x, body), Covering(answer.fetch[t.xorb], t).value;
    SpanDecodes(x, body, info.range.start, Min(info.range.end, |fs|), t.start, t.end);
  }

  lemma {:induction false} TermsAreFetched(x: Xet, st: State, terms: seq<Term>, answer: Answer, i: nat)
    requires Inv(x, st) && OnlyVersionZero(x)
    requires AllInStore(x, st.xorbs, terms) && AnswerFor(x, st, terms, answer) && i <= |terms|
    ensures FetchTerms(x, st, answer, terms[i..]) == Ok(TermParts(x, st.xorbs, terms)[i..])
    decreases |terms| - i
  {
    hide Inv, AllInStore, AnswerFor, FetchTerm, TermBytes, OnlyVersionZero;
    if i == |terms| {
      assert terms[i..] == [] && TermParts(x, st.xorbs, terms)[i..] == [];
    } else {
      TermIsFetched(x, st, terms, answer, i);
      TermsAreFetched(x, st, terms, answer, i + 1);
      assert terms[i..][1..] == terms[i + 1..];
      assert TermParts(x, st.xorbs, terms)[i..] == [TermBytes(x, st.xorbs, terms[i])] + TermParts(x, st.xorbs, terms)[i + 1..];
    }
  }

  // ---- whole files and ranges ----

  predicate MayRead(st: State, caller: Caller, f: Hash) {
    caller.admin || (f, caller.owner) in st.claims
  }

  lemma {:induction false} AnswerIsComplete(x: Xet, st: State, terms: seq<Term>)
    requires Inv(x, st) && AllInStore(x, st.xorbs, terms)
    ensures OffsetsKnown(x, st, terms)
  {
    forall i | 0 <= i < |terms| ensures ChunkOffsets(x, st, terms[i].xorb).Ok? {
      assert TermInStore(x, st.xorbs, terms[i]);
      OffsetsAreBoundaries(x, st, terms[i].xorb);
    }
  }

  // Whatever the server trims to, the client reassembles the bytes of exactly those terms.
  lemma {:induction false} DownloadJoinsTerms(
    x: Xet, st: State, caller: Caller, f: Hash, start: Option<nat>, end: Option<nat>, offset: nat, terms: seq<Term>)
    requires Inv(x, st) && OnlyVersionZero(x)
    requires ReconstructionTerms(x, st, caller, f, HeaderFor(start, end)) == Ok((offset, terms))
    requires AllInStore(x, st.xorbs, terms)
    ensures Download(x, st, caller, f, start, end) ==
      Ok(FinalSlice(Join(TermParts(x, st.xorbs, terms)), offset, start, end))
  {
    hide Inv, AllInStore, ReconstructionTerms, FetchTerms, FetchMap, PlanFetches, PerXorb, OffsetsKnown, FinalSlice, OnlyVersionZero, TermBytes, HeaderFor;
    AnswerIsComplete(x, st, terms);
    PlanIsFetchMap(x, st, terms);
    var answer := Answer(offset, terms, FetchMap(x, st, terms));
    TermsAreFetched(x, st, terms, answer, 0);
    assert terms[0..] == terms && TermParts(x, st.xorbs, terms)[0..] == TermParts(x, st.xorbs, terms);
  }

  // In every reachable state, whoever may read an indexed file downloads its whole content,
  // and that content's chunk list hashes to the file's id.
  lemma {:induction false} WholeDownload(x: Xet, st: State, caller: Caller, f: Hash)
    requires Inv(x, st) && OnlyVersionZero(x) && f in st.fileIndex && MayRead(st, caller, f)
    ensures Download(x, st, caller, f, None, None) == Ok(FileContent(x, st, f))
    ensures x.fileHash(FileChunks(x, st.xorbs, FileEntries(x, st, f))) == f
  {
    hide Inv, Download, ReconstructionTerms, FileEntries, AllInStore, AllValid, TermBytes, Join, Clip, MayRead, OnlyVersionZero, HeaderFor;
    HeaderIs(None, None);
    IndexedFileIsValid(x, st, f);
    ReaderFindsFile(x, st, caller, f, Absent);
    var terms := TermsOf(FileEntries(x, st, f));
    DownloadJoinsTerms(x, st, caller, f, None, None, 0, terms);
    ClipWhole(FileContent(x, st, f));
  }

  // Every term's true length fits the u32 it is declared in.
  ghost predicate TermsFit(x: Xet, xorbs: map<Hash, Blob>, terms: seq<Term>) {
    forall i :: 0 <= i < |terms| ==> UnpackedLen(TermFrames(x, xorbs, terms[i])) < U32
  }

  lemma {:induction false} ValidTermsUnpack(x: Xet, xorbs: map<Hash, Blob>, entries: seq<Entry>)
    requires AllValid(x, xorbs, entries)
    requires TermsFit(x, xorbs, TermsOf(entries))
    ensures Unpacks(TermsOf(entries), TermParts(x, xorbs, TermsOf(entries)))
  {
    forall i | 0 <= i < |entries| ensures |TermParts(x, xorbs, TermsOf(entries))[i]| == entries[i].term.unpacked {
      assert ValidTerm(x, xorbs, entries[i]);
      var fs := TermFrames(x, xorbs, TermsOf(entries)[i]);
      JoinLength(Raws(fs));
      assert UnpackedLen(fs) < U32;
    }
  }

  // Bytes of the trimmed terms, sliced as the client slices them.
  lemma {:induction false} TrimmedSlice(x: Xet, xorbs: map<Hash, Blob>, terms: seq<Term>, a: nat, b: nat)
    requires Unpacks(terms, TermParts(x, xorbs, terms)) && a <= b && a < TotalSize(terms)
    ensures var content := Join(TermParts(x, xorbs, terms));
      var (offset, kept) := Trim(terms, a, Min(b, TotalSize(terms) - 1));
      && |content| == TotalSize(terms)
      && Clip(Join(TermParts(x, xorbs, kept)), offset, offset + (b - a + 1)) == content[a..Min(b, |content| - 1) + 1]
  {
    hide TermBytes, Unpacks, TotalSize, StartOf, Join, Clip, Lo, Hi;
    var end := Min(b, TotalSize(terms) - 1);
    var parts := TermParts(x, xorbs, terms);
    RangeIsExact(terms, parts, a, b);
    BoundsAreKept(terms, a, end);
    var (offset, kept) := Trim(terms, a, end);
    assert TermParts(x, xorbs, kept) == KeptParts(terms, parts, a, end);
  }

  lemma {:induction false} TrimmedInStore(x: Xet, xorbs: map<Hash, Blob>, terms: seq<Term>, a: nat, b: nat)
    requires AllInStore(x, xorbs, terms) && a <= b && a < TotalSize(terms)
    ensures AllInStore(x, xorbs, Trim(terms, a, b).1)
  {
    hide TermInStore, TotalSize, StartOf, Lo, Hi;
    BoundsAreKept(terms, a, b);
  }

  // What a range read should answer: bytes a..min(b, size - 1), or 416 past the end. An end that
  // is no u64 is refused as text.
  function RangeAnswer(content: seq<Byte>, a: nat, b: nat): Result<seq<Byte>, ReadError>
    requires a <= b
  {
    if b >= U64 then Err(BadRequest)
    else if a >= |content| then Err(RangeNotSatisfiable)
    else Ok(content[a..Min(b, |content| - 1) + 1])
  }

  // Range reads are exact.
  lemma {:induction false} RangeDownload(x: Xet, st: State, caller: Caller, f: Hash, a: nat, b: nat)
    requires Inv(x, st) && OnlyVersionZero(x) && f in st.fileIndex && MayRead(st, caller, f) && a <= b
    requires TermsFit(x, st.xorbs, TermsOf(FileEntries(x, st, f)))
    ensures Download(x, st, caller, f, Some(a), Some(b)) == RangeAnswer(FileContent(x, st, f), a, b)
  {
    hide Inv, FileEntries, ReconstructionTerms, TermBytes, TermsFit, AllInStore, AllValid, Trim, Unpacks, TotalSize,
      Join, Clip, MayRead, OnlyVersionZero, TermsOf, TermParts, Download;
    IndexedFileIsValid(x, st, f);
    var terms := TermsOf(FileEntries(x, st, f));
    ValidTermsUnpack(x, st.xorbs, FileEntries(x, st, f));
    PartsMatchStarts(terms, TermParts(x, st.xorbs, terms));
    if b >= U64 {
      MalformedIsRefused(x, st, caller, f, Some(a), Some(b));
    } else if a < TotalSize(terms) {
      RangeInside(x, st, caller, f, a, b);
    } else {
      PastEndIsRefused(x, st, caller, f, a, b);
    }
  }

  lemma {:induction false} MalformedIsRefused(x: Xet, st: State, caller: Caller, f: Hash, start: Option<nat>, end: Option<nat>)
    requires Inv(x, st) && f in st.fileIndex && MayRead(st, caller, f)
    requires start.Some? && (end.None? || start.value >= U64 || end.value >= U64)
    ensures Download(x, st, caller, f, start, end) == Err(BadRequest)
  {
    hide Inv, FileEntries, ReconstructionTerms, MayRead, TermsOf, HeaderFor;
    HeaderIs(start, end);
    ReaderFindsFile(x, st, caller, f, Malformed);
  }

  lemma {:induction false} RangeInside(x: Xet, st: State, caller: Caller, f: Hash, a: nat, b: nat)
    requires Inv(x, st) && OnlyVersionZero(x) && f in st.fileIndex && MayRead(st, caller, f) && a <= b < U64
    requires var terms := TermsOf(FileEntries(x, st, f));
      AllInStore(x, st.xorbs, terms) && Unpacks(terms, TermParts(x, st.xorbs, terms)) && a < TotalSize(terms)
    ensures var content := FileContent(x, st, f);
      a < |content| && Download(x, st, caller, f, Some(a), Some(b)) == Ok(content[a..Min(b, |content| - 1) + 1])
  {
    hide Inv, FileEntries, ReconstructionTerms, TermBytes, AllInStore, Trim, Unpacks, TotalSize,
      Join, Clip, MayRead, OnlyVersionZero, TermsOf, TermParts, Download, Min, HeaderFor;
    HeaderIs(Some(a), Some(b));
    var terms := TermsOf(FileEntries(x, st, f));
    ReaderFindsFile(x, st, caller, f, Span(a, b));
    var end := Min(b, TotalSize(terms) - 1);
    RangeEnds(a, b, TotalSize(terms));
    TrimmedInStore(x, st.xorbs, terms, a, end);
    TrimmedSlice(x, st.xorbs, terms, a, b);
    var (offset, kept) := Trim(terms, a, end);
    DownloadJoinsTerms(x, st, caller, f, Some(a), Some(b), offset, kept);
  }

  lemma {:induction false} PastEndIsRefused(x: Xet, st: State, caller: Caller, f: Hash, a: nat, b: nat)
    requires Inv(x, st) && f in st.fileIndex && MayRead(st, caller, f) && a <= b < U64
    requires a >= TotalSize(TermsOf(FileEntries(x, st, f)))
    ensures Download(x, st, caller, f, Some(a), Some(b)) == Err(RangeNotSatisfiable)
  {
    hide Inv, FileEntries, ReconstructionTerms, MayRead, TotalSize, TermsOf, HeaderFor;
    HeaderIs(Some(a), Some(b));
    ReaderFindsFile(x, st, caller, f, Span(a, b));
  }

  lemma {:induction false} SmallerSum(a: seq<nat>, b: seq<nat>, i: nat)
    requires |a| == |b| && forall k :: 0 <= k < |a| ==> a[k] <= b[k]
    ensures Sum(a) <= Sum(b)
    ensures i < |a| && a[i] < b[i] ==> Sum(a) < Sum(b)
  {
    if a != [] {
      SmallerSum(a[..|a| - 1], b[..|b| - 1], i);
    }
  }

  // With a term longer than a u32 can say, the declared size falls short of the content, and
  // the first byte past the declared size is refused although it is there.
  lemma {:induction false} OverlongTermBreaksRanges(x: Xet, st: State, caller: Caller, f: Hash)
    requires Inv(x, st) && OnlyVersionZero(x) && f in st.fileIndex && MayRead(st, caller, f)
    requires !TermsFit(x, st.xorbs, TermsOf(FileEntries(x, st, f)))
    ensures var a := TotalSize(TermsOf(FileEntries(x, st, f)));
      && a < |FileContent(x, st, f)|
      && Download(x, st, caller, f, Some(a), Some(a)) == Err(if a < U64 then RangeNotSatisfiable else BadRequest)
  {
    hide Inv, FileEntries, ReconstructionTerms, AllInStore, AllValid, TermsFit, TotalSize, TermsOf, TermParts, Join, MayRead;
    IndexedFileIsValid(x, st, f);
    var a := TotalSize(TermsOf(FileEntries(x, st, f)));
    if a < U64 {
      PastEndIsRefused(x, st, caller, f, a, a);
    } else {
      MalformedIsRefused(x, st, caller, f, Some(a), Some(a));
    }
    DeclaredFallsShort(x, st.xorbs, FileEntries(x, st, f));
  }

  lemma {:induction false} DeclaredFallsShort(x: Xet, xorbs: map<Hash, Blob>, entries: seq<Entry>)
    requires AllValid(x, xorbs, entries)
    requires !TermsFit(x, xorbs, TermsOf(entries))
    ensures TotalSize(TermsOf(entries)) < |Join(TermParts(x, xorbs, TermsOf(entries)))|
  {
    var terms := TermsOf(entries);
    var parts := TermParts(x, xorbs, terms);
    var bad :| 0 <= bad < |terms| && UnpackedLen(TermFrames(x, xorbs, terms[bad])) >= U32;
    hide TermFrames, AllValid, ValidTerm, TermBytes, Join, Sum, Wrap, TermsOf, TermParts, UnpackedLen;
    forall i | 0 <= i < |terms|
      ensures TermLens(terms)[i] <= Lens(parts)[i] && (i == bad ==> TermLens(terms)[i] < Lens(parts)[i])
    {
      TermDeclares(x, xorbs, entries, i);
    }
    LessInTotal(terms, parts, bad);
  }

  lemma {:induction false} LessInTotal(terms: seq<Term>, parts: seq<seq<Byte>>, bad: nat)
    requires |parts| == |terms| && bad < |terms| && TermLens(terms)[bad] < Lens(parts)[bad]
    requires forall i :: 0 <= i < |terms| ==> TermLens(terms)[i] <= Lens(parts)[i]
    ensures TotalSize(terms) < |Join(parts)|
  {
    SmallerSum(TermLens(terms), Lens(parts), bad);
    JoinLength(parts);
    assert TermLens(terms)[..|terms|] == TermLens(terms);
  }

  lemma {:induction false} TermDeclares(x: Xet, xorbs: map<Hash, Blob>, entries: seq<Entry>, i: nat)
    requires AllValid(x, xorbs, entries) && i < |entries|
    ensures var len := UnpackedLen(TermFrames(x, xorbs, entries[i].term));
      && |TermBytes(x, xorbs, entries[i].term)| == len
      && entries[i].term.unpacked <= len && (len >= U32 ==> entries[i].term.unpacked < len)
  {
    assert ValidTerm(x, xorbs, entries[i]);
    hide TermFrames, TermInStore;
    JoinLength(Raws(TermFrames(x, xorbs, entries[i].term)));
  }

  // Range reads of a file are exact, for all ranges, if and only if its terms fit and its
  // positions are u64 numbers.
  lemma {:induction false} RangeReadsExactIff(x: Xet, st: State, caller: Caller, f: Hash)
    requires Inv(x, st) && OnlyVersionZero(x) && f in st.fileIndex && MayRead(st, caller, f)
    ensures TermsFit(x, st.xorbs, TermsOf(FileEntries(x, st, f))) && |FileContent(x, st, f)| <= U64 <==>
      forall a: nat, b: nat :: a <= b < |FileContent(x, st, f)| ==>
        Download(x, st, caller, f, Some(a), Some(b)) == Ok(FileContent(x, st, f)[a..b + 1])
  {
    hide Inv, TermsFit, Download, FileContent, FileEntries, MayRead;
    if !TermsFit(x, st.xorbs, TermsOf(FileEntries(x, st, f))) {
      OverlongTermBreaksRanges(x, st, caller, f);
    } else if |FileContent(x, st, f)| > U64 {
      MalformedIsRefused(x, st, caller, f, Some(U64), Some(U64));
    } else {
      forall a: nat, b: nat | a <= b < |FileContent(x, st, f)|
        ensures Download(x, st, caller, f, Some(a), Some(b)) == Ok(FileContent(x, st, f)[a..b + 1])
      {
        RangeDownload(x, st, caller, f, a, b);
      }
    }
  }

  // No term outgrows its file.
  lemma {:induction false} SmallFileFits(x: Xet, xorbs: map<Hash, Blob>, terms: seq<Term>)
    requires |Join(TermParts(x, xorbs, terms))| < U32
    ensures TermsFit(x, xorbs, terms)
  {
    var parts := TermParts(x, xorbs, terms);
    hide TermFrames;
    JoinLength(parts);
    forall i | 0 <= i < |terms| ensures UnpackedLen(TermFrames(x, xorbs, terms[i])) < U32 {
      SumSplit(Lens(parts), i + 1);
      SumStep(Lens(parts), i);
      JoinLength(Raws(TermFrames(x, xorbs, terms[i])));
      assert Lens(parts)[i] == |TermBytes(x, xorbs, terms[i])|;
    }
  }

  // An open-ended request is refused: the client sends bytes=<start>- and the server wants
  // both ends. A start is served only together with an end.
  lemma {:induction false} OpenEndedIsRefused(x: Xet, st: State, caller: Caller, f: Hash, a: nat)
    requires Inv(x, st) && f in st.fileIndex && MayRead(st, caller, f)
    ensures Download(x, st, caller, f, Some(a), None) == Err(BadRequest)
  {
    hide Download;
    MalformedIsRefused(x, st, caller, f, Some(a), None);
  }
}
