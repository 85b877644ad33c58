/**
 The whole pipeline: dedup answers give sound placements, an upload plan is accepted, and
 what was uploaded is what every later download returns.
 */
module RoundTrip {
  import opened Basics
  import opened XetCore
  import opened Frames
  import opened XorbMeta
  import opened Packing
  import opened Terms
  import opened UploadSessions
  import opened Store
  import opened Invariants
  import opened Reconstruction

  // ---- content addressing ----

  // The raw chunks of a file, in term order.
  function FileRaws(x: Xet, xorbs: map<Hash, Blob>, entries: seq<Entry>): seq<seq<Byte>> {
    if entries == [] then []
    else FileRaws(x, xorbs, entries[..|entries| - 1]) + Raws(TermFrames(x, xorbs, entries[|entries| - 1].term))
  }

  function SizedRaws(x: Xet, raws: seq<seq<Byte>>): (r: seq<(Hash, nat)>)
    ensures |r| == |raws| && forall i :: 0 <= i < |raws| ==> r[i] == (x.dataHash(raws[i]), |raws[i]|)
  {
    seq(|raws|, i requires 0 <= i < |raws| => var size: nat := |raws[i]|; (x.dataHash(raws[i]), size))
  }

  lemma {:induction false} ChunksOfRaws(x: Xet, xorbs: map<Hash, Blob>, entries: seq<Entry>)
    ensures FileChunks(x, xorbs, entries) == SizedRaws(x, FileRaws(x, xorbs, entries))
  {
    if entries != [] {
      var init, fs := entries[..|entries| - 1], TermFrames(x, xorbs, entries[|entries| - 1].term);
      ChunksOfRaws(x, xorbs, init);
      hide TermFrames;
      assert SizedOf(x, fs) == SizedRaws(x, Raws(fs));
      SizedRawsConcat(x, FileRaws(x, xorbs, init), Raws(fs));
    }
  }

  lemma {:induction false} SizedRawsConcat(x: Xet, a: seq<seq<Byte>>, b: seq<seq<Byte>>)
    ensures SizedRaws(x, a + b) == SizedRaws(x, a) + SizedRaws(x, b)
  {
  }

  lemma {:induction false} ContentOfRaws(x: Xet, xorbs: map<Hash, Blob>, entries: seq<Entry>)
    ensures Join(TermParts(x, xorbs, TermsOf(entries))) == Join(FileRaws(x, xorbs, entries))
  {
    hide TermFrames;
    if entries != [] {
      var init, last := entries[..|entries| - 1], entries[|entries| - 1];
      ContentOfRaws(x, xorbs, init);
      var parts := TermParts(x, xorbs, TermsOf(entries));
      assert parts[..|parts| - 1] == TermParts(x, xorbs, TermsOf(init));
      JoinConcat(FileRaws(x, xorbs, init), Raws(TermFrames(x, xorbs, last.term)));
    }
  }

  lemma {:induction false} SizedRawsInjective(x: Xet, a: seq<seq<Byte>>, b: seq<seq<Byte>>)
    requires DataHashInjective(x) && SizedRaws(x, a) == SizedRaws(x, b)
    ensures a == b
  {
    assert |a| == |SizedRaws(x, a)| == |b|;
    forall i | 0 <= i < |a| ensures a[i] == b[i] {
      assert SizedRaws(x, a)[i] == SizedRaws(x, b)[i];
      assert x.dataHash(a[i]) == x.dataHash(b[i]);
    }
  }

  // A file id names one content: any two reachable states that index it agree on its bytes.
  lemma {:induction false} ContentIsFixed(x: Xet, a: State, b: State, f: Hash)
    requires DataHashInjective(x) && FileHashInjective(x) && Inv(x, a) && Inv(x, b)
    requires f in a.fileIndex && f in b.fileIndex
    ensures FileContent(x, a, f) == FileContent(x, b, f)
  {
    hide Inv, FileEntries, TermParts, TermsOf, Join, DataHashInjective;
    IndexedFileIsValid(x, a, f);
    IndexedFileIsValid(x, b, f);
    var ea, eb := FileEntries(x, a, f), FileEntries(x, b, f);
    assert x.fileHash(FileChunks(x, a.xorbs, ea)) == x.fileHash(FileChunks(x, b.xorbs, eb));
    ChunksOfRaws(x, a.xorbs, ea);
    ChunksOfRaws(x, b.xorbs, eb);
    SizedRawsInjective(x, FileRaws(x, a.xorbs, ea), FileRaws(x, b.xorbs, eb));
    ContentOfRaws(x, a.xorbs, ea);
    ContentOfRaws(x, b.xorbs, eb);
  }

  // ---- dedup answers ----

  // (chunk hash, offset, size) per chunk of a xorb, from the layout or from the blob.
  function DedupTriples(x: Xet, st: State, h: Hash): Result<seq<Triple>, MetaError> {
    if h in st.layouts then Ok(LayoutTriples(st.layouts[h]))
    else if h !in st.xorbs then Err(Corrupt)
    else match StoredInfo(x, st.xorbs[h].bytes)
      case Err(e) => Err(e)
      case Ok(info) => if Complete(info) then Ok(InfoTriples(info)) else Err(Corrupt)
  }

  function KeyedHashes(x: Xet, triples: seq<Triple>, key: Hash): (r: seq<Hash>)
    ensures |r| == |triples| && forall i :: 0 <= i < |r| ==> r[i] == x.hmac(triples[i].0, key)
  {
    seq(|triples|, i requires 0 <= i < |triples| => x.hmac(triples[i].0, key))
  }

  // A block of a dedup answer: the keyed chunk hashes of a xorb the index names.
  ghost predicate DedupBlock(x: Xet, st: State, key: Hash, b: CasBlock) {
    DedupTriples(x, st, b.xorb).Ok? && b.chunks == KeyedHashes(x, DedupTriples(x, st, b.xorb).value, key)
  }

  ghost predicate DedupAnswer(x: Xet, st: State, key: Hash, response: KeyedShard) {
    && response.key == Some(key)
    && forall i :: 0 <= i < |response.blocks| ==> DedupBlock(x, st, key, response.blocks[i])
  }

  function FrameTriples(x: Xet, fs: seq<Frame>): (r: seq<Triple>)
    ensures |r| == |fs| && forall i :: 0 <= i < |fs| ==>
      r[i] == (x.dataHash(fs[i].raw), Wrap(Sum(Lens(Raws(fs))[..i])), |fs[i].raw|)
  {
    seq(|fs|, i requires 0 <= i < |fs| =>
      var size: nat := |fs[i].raw|; (x.dataHash(fs[i].raw), Wrap(Sum(Lens(Raws(fs))[..i])), size))
  }

  lemma {:induction false} InfoTriplesAreFrames(x: Xet, fs: seq<Frame>)
    requires AllWellFormed(x, fs)
    ensures InfoTriples(InfoOf(x, fs)) == FrameTriples(x, fs)
  {
    forall i | 0 <= i < |fs| ensures InfoTriples(InfoOf(x, fs))[i] == FrameTriples(x, fs)[i] {
      assert WellFormed(x, fs[i]);
      EndsDifference(Lens(Raws(fs)), i);
    }
  }

  // Either path describes the stored chunks; a xorb that is not stored is never described.
  lemma {:induction false} TriplesDescribeStored(x: Xet, st: State, h: Hash)
    requires Inv(x, st)
    ensures DedupTriples(x, st, h).Ok? <==> h in st.xorbs
    ensures h in st.xorbs ==> DedupTriples(x, st, h).value == FrameTriples(x, FramesOf(x, st.xorbs[h].bytes))
  {
    if h in st.xorbs {
      var body := st.xorbs[h].bytes;
      var fs := FramesOf(x, body);
      assert SoundBody(x, h, body);
      var tail := BodyHoldsFrames(x, body);
      assert FrameLens(fs)[..|fs|] == FrameLens(fs);
      hide FramesOf, InfoOf, FrameTriples, LayoutOf, LayoutTriples, InfoTriples;
      FramesGrow(x, fs);
      FastTriplesRefineSlow(InfoOf(x, fs), |body|);
      InfoTriplesAreFrames(x, fs);
    }
  }

  // The placement names a stored chunk with the file chunk's very bytes.
  ghost predicate SpotSound(x: Xet, xorbs: map<Hash, Blob>, c: Chunk, p: Placement) {
    && p.xorb in xorbs
    && p.index < |FramesOf(x, xorbs[p.xorb].bytes)|
    && FramesOf(x, xorbs[p.xorb].bytes)[p.index].raw == c.data
  }

  ghost predicate SlotsSound(x: Xet, xorbs: map<Hash, Blob>, chunks: seq<Chunk>, slots: Slots) {
    |slots| == |chunks| &&
    forall i :: 0 <= i < |slots| && slots[i].Some? ==> SpotSound(x, xorbs, chunks[i], slots[i].value)
  }

  // Chunks carry the hash of their data, as the chunker makes them.
  ghost predicate Hashed(x: Xet, chunks: seq<Chunk>) {
    forall i :: 0 <= i < |chunks| ==> chunks[i].hash == x.dataHash(chunks[i].data)
  }

  lemma {:induction false} MatchIsSound(x: Xet, st: State, key: Hash, blocks: seq<CasBlock>, c: Chunk, p: Placement)
    requires Inv(x, st) && DataHashInjective(x) && HmacInjective(x, key)
    requires forall i :: 0 <= i < |blocks| ==> DedupBlock(x, st, key, blocks[i])
    requires c.hash == x.dataHash(c.data) && FromBlocks(blocks, x.hmac(c.hash, key), p)
    ensures SpotSound(x, st.xorbs, c, p)
  {
    hide Inv;
    var b :| 0 <= b < |blocks| && blocks[b].xorb == p.xorb
      && p.index < |blocks[b].chunks| && blocks[b].chunks[p.index] == x.hmac(c.hash, key);
    TriplesDescribeStored(x, st, p.xorb);
    assert DedupBlock(x, st, key, blocks[b]);
    var fs := FramesOf(x, st.xorbs[p.xorb].bytes);
    assert x.hmac(x.dataHash(fs[p.index].raw), key) == x.hmac(c.hash, key);
    assert x.dataHash(fs[p.index].raw) == x.dataHash(c.data);
  }

  // The xorbs a response names are still there, with the same bytes; any others may be gone.
  ghost predicate KeepsNamed(a: map<Hash, Blob>, b: map<Hash, Blob>, blocks: seq<CasBlock>) {
    forall i :: 0 <= i < |blocks| ==> KeepsXorb(a, b, blocks[i].xorb)
  }

  // Applying a dedup answer only ever adds sound placements, and they stay sound for as long
  // as the xorbs the answer names are kept.
  lemma {:induction false} ApplyKeepsSound(
    x: Xet, st: State, xorbs: map<Hash, Blob>, chunks: seq<Chunk>, s: Progress, key: Hash, response: KeyedShard)
    requires Inv(x, st) && DataHashInjective(x) && HmacInjective(x, key) && KeepsNamed(st.xorbs, xorbs, response.blocks)
    requires Hashed(x, chunks) && Aligned(chunks, s) && SlotsSound(x, xorbs, chunks, s.placement)
    requires DedupAnswer(x, st, key, response)
    ensures SlotsSound(x, xorbs, chunks, After(x, chunks, s, Apply(response)).placement)
  {
    hide Inv, SpotSound, ByKeyedHash;
    var next, known := After(x, chunks, s, Apply(response)).placement, ByKeyedHash(response.blocks);
    forall i | 0 <= i < |next| && next[i].Some? ensures SpotSound(x, xorbs, chunks[i], next[i].value) {
      if s.placement[i].None? {
        LookupIsSound(response.blocks, x.hmac(chunks[i].hash, key));
        MatchIsSound(x, st, key, response.blocks, chunks[i], next[i].value);
        MatchIsNamed(response.blocks, x.hmac(chunks[i].hash, key), next[i].value);
        SpotSoundKept(x, st.xorbs, xorbs, chunks[i], next[i].value);
      }
    }
  }

  lemma {:induction false} MatchIsNamed(blocks: seq<CasBlock>, keyed: Hash, p: Placement)
    requires FromBlocks(blocks, keyed, p)
    ensures exists i :: 0 <= i < |blocks| && blocks[i].xorb == p.xorb
  {
  }

  /** One step of an upload session, with the server state its answer came from. */
  datatype Exchange = Exchange(event: UploadSessions.Event, at: State)

  function EventsOf(log: seq<Exchange>): (r: seq<UploadSessions.Event>)
    ensures |r| == |log| && forall i :: 0 <= i < |log| ==> r[i] == log[i].event
  {
    seq(|log|, i requires 0 <= i < |log| => log[i].event)
  }

  // An applied response is the server's dedup answer in a reachable state, and the xorbs it
  // names are kept.
  ghost predicate Genuine(x: Xet, xorbs: map<Hash, Blob>, e: Exchange) {
    e.event.Apply? && e.event.response.key.Some? ==>
      && Inv(x, e.at) && KeepsNamed(e.at.xorbs, xorbs, e.event.response.blocks)
      && HmacInjective(x, e.event.response.key.value)
      && DedupAnswer(x, e.at, e.event.response.key.value, e.event.response)
  }

  // Whatever a session asks and applies, in whatever order, every placement it resolves names
  // a stored chunk with the very bytes of the file's chunk.
  lemma {:induction false} SessionIsSound(x: Xet, xorbs: map<Hash, Blob>, chunks: seq<Chunk>, s: Progress, log: seq<Exchange>)
    requires DataHashInjective(x) && Hashed(x, chunks)
    requires Aligned(chunks, s) && SlotsSound(x, xorbs, chunks, s.placement)
    requires forall i :: 0 <= i < |log| ==> Genuine(x, xorbs, log[i])
    ensures SlotsSound(x, xorbs, chunks, RunSession(x, chunks, s, EventsOf(log)).placement)
    decreases |log|
  {
    hide Inv, SlotsSound, DedupAnswer, KeepsNamed, Resolve, Batch, MarkProbed;
    if log != [] {
      var e, next := log[0].event, After(x, chunks, s, log[0].event);
      assert Genuine(x, xorbs, log[0]);
      if e.Apply? && e.response.key.Some? {
        ApplyKeepsSound(x, log[0].at, xorbs, chunks, s, e.response.key.value, e.response);
      }
      assert EventsOf(log)[1..] == EventsOf(log[1..]);
      SessionIsSound(x, xorbs, chunks, next, log[1..]);
    }
  }

  // ---- uploading the xorbs of a plan ----

  function UploadXorbs(x: Xet, st: State, xorbs: seq<(Hash, seq<Byte>)>, now: int): State {
    if xorbs == [] then st
    else
      var last := xorbs[|xorbs| - 1];
      PostXorb(x, UploadXorbs(x, st, xorbs[..|xorbs| - 1], now), last.0, last.1, now)
  }

  predicate Acceptable(x: Xet, h: Hash, body: seq<Byte>) {
    && |body| <= x.maxXorbBytes + SERIALIZED_SLACK
    && ValidatedInfo(x, body, h).Ok? && ValidatedInfo(x, body, h).value.numChunks != 0
  }

  // Nothing stored changes, and only blobs, rows and layouts are added.
  ghost predicate Extends(a: State, b: State) {
    && (forall h :: h in a.xorbs ==> h in b.xorbs && b.xorbs[h] == a.xorbs[h])
    && b.shards == a.shards && b.fileIndex == a.fileIndex && b.claims == a.claims
  }

  lemma {:induction false} PostXorbStores(x: Xet, st: State, h: Hash, body: seq<Byte>, now: int)
    requires Acceptable(x, h, body)
    ensures var next := PostXorb(x, st, h, body, now);
      Extends(st, next) && next.xorbs.Keys == st.xorbs.Keys + {h}
  {
    hide ValidatedInfo, BodyLayout;
  }

  lemma {:induction false} UploadsAreStored(x: Xet, st: State, xorbs: seq<(Hash, seq<Byte>)>, now: int)
    requires Trusted(x) && Inv(x, st)
    requires forall k :: 0 <= k < |xorbs| ==> Acceptable(x, xorbs[k].0, xorbs[k].1)
    ensures Inv(x, UploadXorbs(x, st, xorbs, now)) && Extends(st, UploadXorbs(x, st, xorbs, now))
    ensures UploadXorbs(x, st, xorbs, now).xorbs.Keys == st.xorbs.Keys + set k | 0 <= k < |xorbs| :: xorbs[k].0
  {
    hide Inv, Acceptable, PostXorb, Trusted;
    if xorbs != [] {
      var init, last := xorbs[..|xorbs| - 1], xorbs[|xorbs| - 1];
      UploadsAreStored(x, st, init, now);
      var mid := UploadXorbs(x, st, init, now);
      UploadKeepsInv(x, mid, last.0, last.1, now);
      PostXorbStores(x, mid, last.0, last.1, now);
      assert (set k | 0 <= k < |xorbs| :: xorbs[k].0) == (set k | 0 <= k < |init| :: init[k].0) + {last.0};
    }
  }

  // ---- the library's own xorbs ----

  // A xorb the serialiser writes has a tail that is no chunk frame, and if its footer parses
  // then it validates.
  ghost predicate SealsReadBack(x: Xet) {
    forall cs: seq<Chunk> | cs != [] && Serialisable(x, cs) && Hashed(x, cs) ::
      && OpaqueTail(x, x.footerOf(Datas(cs)))
      && (x.readFooter(SealedBytes(x, cs)).Some? ==>
            x.validateXorb(SealedBytes(x, cs), x.xorbHash(SizedChunks(cs))).Some? &&
            x.validateXorb(SealedBytes(x, cs), x.xorbHash(SizedChunks(cs))).value.Some?)
  }

  // Within the content caps, frames and footer stay within the serialised allowance.
  ghost predicate SealsFit(x: Xet) {
    forall cs: seq<Chunk> | Serialisable(x, cs) && Sum(ChunkLens(cs)) <= x.maxXorbBytes
        && (|cs| == 1 || |cs| <= x.maxXorbChunks) ::
      |SealedBytes(x, cs)| <= x.maxXorbBytes + SERIALIZED_SLACK
  }

  lemma {:induction false} SealedWalks(x: Xet, cs: seq<Chunk>)
    requires Serialisable(x, cs) && Hashed(x, cs) && OpaqueTail(x, x.footerOf(Datas(cs)))
    ensures Walk(x, SealedBytes(x, cs), 0) == Ok(PackedFrames(x, cs))
    ensures SizedOf(x, PackedFrames(x, cs)) == SizedChunks(cs)
    ensures SizedFromInfo(InfoOf(x, PackedFrames(x, cs))) == SizedChunks(cs)
  {
    WalkPrinted(x, PackedFrames(x, cs), x.footerOf(Datas(cs)), 0);
    assert SizedOf(x, PackedFrames(x, cs)) == SizedChunks(cs);
    InfoRecoversSizes(x, PackedFrames(x, cs));
  }

  lemma {:induction false} SealIsAcceptable(x: Xet, cs: seq<Chunk>)
    requires FootersChecked(x) && SealsReadBack(x) && SealsFit(x)
    requires cs != [] && Serialisable(x, cs) && Hashed(x, cs)
    requires Sum(ChunkLens(cs)) <= x.maxXorbBytes && (|cs| == 1 || |cs| <= x.maxXorbChunks)
    ensures Acceptable(x, x.xorbHash(SizedChunks(cs)), SealedBytes(x, cs))
  {
    hide SealedBytes, Serialisable, Walk, OpaqueTail, SizedFromInfo;
    SealedWalks(x, cs);
    var body, h := SealedBytes(x, cs), x.xorbHash(SizedChunks(cs));
    assert |body| <= x.maxXorbBytes + SERIALIZED_SLACK;
    if x.readFooter(body).Some? {
      assert x.validateXorb(body, h).Some? && x.validateXorb(body, h).value.Some?;
    }
  }

  lemma {:induction false} AtAgrees(chunks: seq<Chunk>, g: seq<nat>)
    requires InRange(chunks, g)
    ensures SizedChunks(At(chunks, g)) == SizedAt(chunks, g) && ChunkLens(At(chunks, g)) == LensAt(chunks, g)
  {
  }

  // Single chunks stay under the byte cap, as the chunker cuts them.
  ghost predicate ChunksSmall(x: Xet, chunks: seq<Chunk>) {
    forall i :: 0 <= i < |chunks| ==> |chunks[i].data| <= x.maxXorbBytes
  }

  lemma {:induction false} GroupIsAcceptable(x: Xet, chunks: seq<Chunk>, g: seq<nat>)
    requires FootersChecked(x) && SealsReadBack(x) && SealsFit(x)
    requires Serialisable(x, chunks) && Hashed(x, chunks) && ChunksSmall(x, chunks)
    requires InRange(chunks, g) && Fits(x, chunks, g)
    ensures Acceptable(x, GroupXorb(x, chunks, g).0, GroupXorb(x, chunks, g).1)
    ensures BytesOf(chunks, g) <= x.maxXorbBytes
  {
    var cs := At(chunks, g);
    GroupSerialisable(x, chunks, g);
    AtAgrees(chunks, g);
    if |g| == 1 {
      assert LensAt(chunks, g) == [] + [|chunks[g[0]].data|];
      SumSnoc([], |chunks[g[0]].data|);
    }
    hide SealsReadBack, SealsFit, FootersChecked, Serialisable, Acceptable;
    SealIsAcceptable(x, cs);
  }

  // Under a collision-free aggregate, whatever is stored as the group's xorb holds the
  // group's chunks: just uploaded, or put there earlier by anyone.
  lemma {:induction false} StoredGroupIsSound(x: Xet, st: State, chunks: seq<Chunk>, g: seq<nat>, l: nat)
    requires Inv(x, st) && DataHashInjective(x) && XorbHashInjective(x) && Hashed(x, chunks)
    requires InRange(chunks, g) && GroupHash(x, chunks, g) in st.xorbs && l < |g|
    ensures |FramesOf(x, st.xorbs[GroupHash(x, chunks, g)].bytes)| == |g|
    ensures SpotSound(x, st.xorbs, chunks[g[l]], Placement(GroupHash(x, chunks, g), l))
  {
    var h := GroupHash(x, chunks, g);
    assert SoundBody(x, h, st.xorbs[h].bytes);
    hide Inv, SoundBody, FramesOf;
    var fs := FramesOf(x, st.xorbs[h].bytes);
    assert x.xorbHash(SizedOf(x, fs)) == x.xorbHash(SizedAt(chunks, g));
    assert |SizedOf(x, fs)| == |SizedAt(chunks, g)|;
    assert SizedOf(x, fs)[l] == SizedAt(chunks, g)[l];
    assert x.dataHash(fs[l].raw) == x.dataHash(chunks[g[l]].data);
  }

  // ---- the plan's terms on the stored xorbs ----

  ghost predicate SpotsSound(x: Xet, xorbs: map<Hash, Blob>, chunks: seq<Chunk>, spots: Spots) {
    |spots| == |chunks| && forall i :: 0 <= i < |chunks| ==> SpotSound(x, xorbs, chunks[i], spots[i])
  }

  lemma {:induction false} TermSpotsSound(
    x: Xet, xorbs: map<Hash, Blob>, chunks: seq<Chunk>, entries: seq<Entry>, k: nat, i: nat)
    requires AllNonEmpty(entries) && SpotsSound(x, xorbs, chunks, Expand(entries)) && k < |entries|
    requires i < entries[k].term.end - entries[k].term.start
    ensures var t := entries[k].term;
      && TermCut(entries, k + 1) == TermCut(entries, k) + (t.end - t.start) <= |chunks|
      && SpotSound(x, xorbs, chunks[TermCut(entries, k) + i], Placement(t.xorb, t.start + i))
  {
    hide Expand, SpotSound, TermCut, ExpandTerm, Counts;
    ExpandSlice(entries, k);
    var a, b := TermCut(entries, k), TermCut(entries, k + 1);
    var spots := Expand(entries);
    assert spots[a + i] == spots[a..b][i];
  }

  // A term stands for consecutive chunks of the file, byte for byte.
  lemma {:induction false} TermIsChunks(x: Xet, xorbs: map<Hash, Blob>, chunks: seq<Chunk>, entries: seq<Entry>, k: nat)
    requires AllNonEmpty(entries) && SpotsSound(x, xorbs, chunks, Expand(entries)) && k < |entries|
    ensures TermInStore(x, xorbs, entries[k].term)
    ensures TermCut(entries, k) <= TermCut(entries, k + 1) <= |chunks|
    ensures Raws(TermFrames(x, xorbs, entries[k].term)) == Datas(chunks)[TermCut(entries, k)..TermCut(entries, k + 1)]
  {
    hide Expand, FramesOf, TermCut, SpotsSound;
    var t, a, b := entries[k].term, TermCut(entries, k), TermCut(entries, k + 1);
    var n := t.end - t.start;
    TermSpotsSound(x, xorbs, chunks, entries, k, n - 1);
    var fs := TermFrames(x, xorbs, t);
    assert TermInStore(x, xorbs, t) && |fs| == n;
    forall i | 0 <= i < n ensures fs[i].raw == chunks[a + i].data {
      TermSpotsSound(x, xorbs, chunks, entries, k, i);
    }
  }

  lemma {:induction false} PlannedTermIsValid(x: Xet, xorbs: map<Hash, Blob>, chunks: seq<Chunk>, entries: seq<Entry>, k: nat)
    requires AllNonEmpty(entries) && SpotsSound(x, xorbs, chunks, Expand(entries)) && Hashed(x, chunks)
    requires DescribesAll(x, chunks, entries) && k < |entries|
    ensures ValidTerm(x, xorbs, entries[k])
  {
    hide Expand, TermFrames, TermCut, TermInStore, SpotsSound;
    TermIsChunks(x, xorbs, chunks, entries, k);
    assert DescribedAt(x, chunks, entries, k);
    SameChunkFacts(x, chunks, TermCut(entries, k), TermCut(entries, k + 1), TermFrames(x, xorbs, entries[k].term));
  }

  // Frames with the chunks' bytes have the chunks' hashes and sizes.
  lemma {:induction false} SameChunkFacts(x: Xet, chunks: seq<Chunk>, a: nat, b: nat, fs: seq<Frame>)
    requires Hashed(x, chunks) && a <= b <= |chunks| && Raws(fs) == Datas(chunks)[a..b]
    ensures HashesOf(x, fs) == ChunkHashes(chunks)[a..b]
    ensures Lens(Raws(fs)) == ChunkLens(chunks)[a..b]
  {
    assert |fs| == |Raws(fs)| == b - a;
    forall i | 0 <= i < |fs| ensures fs[i].raw == chunks[a + i].data {
      assert Raws(fs)[i] == Datas(chunks)[a..b][i];
    }
  }

  lemma {:induction false} RawsStep(x: Xet, xorbs: map<Hash, Blob>, entries: seq<Entry>, k: nat)
    requires k < |entries|
    ensures FileRaws(x, xorbs, entries[..k + 1]) ==
      FileRaws(x, xorbs, entries[..k]) + Raws(TermFrames(x, xorbs, entries[k].term))
  {
    hide TermFrames;
    assert entries[..k + 1][..k] == entries[..k];
  }

  lemma {:induction false} PlannedRaws(x: Xet, xorbs: map<Hash, Blob>, chunks: seq<Chunk>, entries: seq<Entry>, k: nat)
    requires AllNonEmpty(entries) && SpotsSound(x, xorbs, chunks, Expand(entries)) && k <= |entries|
    ensures TermCut(entries, k) <= |chunks|
    ensures FileRaws(x, xorbs, entries[..k]) == Datas(chunks)[..TermCut(entries, k)]
  {
    if k == 0 {
      assert entries[..0] == [] && TermCut(entries, 0) == 0;
    } else {
      hide Expand, TermFrames, TermCut, SpotsSound, FileRaws, Raws, Datas;
      var j := k - 1;
      PlannedRaws(x, xorbs, chunks, entries, j);
      TermIsChunks(x, xorbs, chunks, entries, j);
      RawsStep(x, xorbs, entries, j);
      PrefixGrows(Datas(chunks), TermCut(entries, j), TermCut(entries, k));
    }
  }

  // The planned file block is valid wherever its placements are sound, and it is the file.
  lemma {:induction false} PlannedFileIsValid(x: Xet, xorbs: map<Hash, Blob>, chunks: seq<Chunk>, entries: seq<Entry>)
    requires AllNonEmpty(entries) && SpotsSound(x, xorbs, chunks, Expand(entries)) && Hashed(x, chunks)
    requires DescribesAll(x, chunks, entries) && chunks != []
    ensures ValidFile(x, xorbs, FileBlock(x.fileHash(SizedChunks(chunks)), true, entries))
    ensures FileRaws(x, xorbs, entries) == Datas(chunks)
  {
    hide TermFrames, SpotSound, ValidTerm, DescribesAll;
    forall k | 0 <= k < |entries| ensures ValidTerm(x, xorbs, entries[k]) {
      PlannedTermIsValid(x, xorbs, chunks, entries, k);
    }
    ExpandLength(entries);
    PlannedRaws(x, xorbs, chunks, entries, |entries|);
    assert entries[..|entries|] == entries && Datas(chunks)[..|chunks|] == Datas(chunks);
    ChunksOfRaws(x, xorbs, entries);
    RawsOfChunks(x, chunks);
  }

  lemma {:induction false} RawsOfChunks(x: Xet, chunks: seq<Chunk>)
    requires Hashed(x, chunks)
    ensures SizedRaws(x, Datas(chunks)) == SizedChunks(chunks)
  {
  }

  // ---- every chunk of a plan is stored ----

  lemma {:induction false} SpotSoundKept(x: Xet, a: map<Hash, Blob>, b: map<Hash, Blob>, c: Chunk, p: Placement)
    requires SpotSound(x, a, c, p) && KeepsXorb(a, b, p.xorb)
    ensures SpotSound(x, b, c, p)
  {
  }

  lemma {:induction false} UnresolvedOnly(x: Xet, chunks: seq<Chunk>, before: Slots, groups: seq<seq<nat>>, i: nat)
    requires IsPacking(x, chunks, Unresolved(before, |before|), groups) && i < |before| && before[i].Some?
    ensures i !in Join(groups)
  {
    var todo := Unresolved(before, |before|);
    forall n | 0 <= n < |todo| ensures todo[n] != i {
    }
  }

  lemma {:induction false} PlanIsStored(x: Xet, st: State, next: State, chunks: seq<Chunk>, before: Slots, m: Making)
    requires Inv(x, next) && Extends(st, next)
    requires DataHashInjective(x) && XorbHashInjective(x) && Hashed(x, chunks) && SlotsSound(x, st.xorbs, chunks, before)
    requires PlacedBy(x, chunks, before, m.groups, m.slots)
    requires forall i :: 0 <= i < |m.slots| ==> m.slots[i].Some?
    requires IsPacking(x, chunks, Unresolved(before, |before|), m.groups)
    requires forall k :: 0 <= k < |m.groups| ==> GroupHash(x, chunks, m.groups[k]) in next.xorbs
    ensures SpotsSound(x, next.xorbs, chunks, SpotsOf(m.slots))
  {
    SameLengths(x, chunks, before, m.groups, m.slots);
    hide PlacedBy, Inv, SpotSound, GroupHash, IsPacking, DataHashInjective, XorbHashInjective;
    forall i | 0 <= i < |chunks| ensures SpotSound(x, next.xorbs, chunks[i], SpotsOf(m.slots)[i]) {
      if before[i].Some? {
        UnresolvedOnly(x, chunks, before, m.groups, i);
        PlacedElsewhere(x, chunks, before, m.groups, m.slots, i);
        SpotSoundKept(x, st.xorbs, next.xorbs, chunks[i], before[i].value);
      } else {
        InSomeGroup(x, st, next, chunks, before, m, i);
      }
    }
  }

  lemma {:induction false} SameLengths(x: Xet, chunks: seq<Chunk>, before: Slots, groups: seq<seq<nat>>, slots: Slots)
    requires PlacedBy(x, chunks, before, groups, slots)
    ensures |slots| == |before| == |chunks|
    ensures forall k :: 0 <= k < |groups| ==> InRange(chunks, groups[k])
  {
  }

  lemma {:induction false} InSomeGroup(x: Xet, st: State, next: State, chunks: seq<Chunk>, before: Slots, m: Making, i: nat)
    requires Inv(x, next)
    requires DataHashInjective(x) && XorbHashInjective(x) && Hashed(x, chunks)
    requires PlacedBy(x, chunks, before, m.groups, m.slots)
    requires IsPacking(x, chunks, Unresolved(before, |before|), m.groups)
    requires forall k :: 0 <= k < |m.groups| ==> InRange(chunks, m.groups[k]) && GroupHash(x, chunks, m.groups[k]) in next.xorbs
    requires i < |before| == |m.slots| == |chunks| && before[i].None? && m.slots[i].Some?
    ensures SpotSound(x, next.xorbs, chunks[i], m.slots[i].value)
  {
    UnresolvedIsComplete(before, |before|, i);
    assert i in Join(m.groups);
    var at := GroupPosition<nat>(m.groups, i);
    hide PlacedBy, Inv, SpotSound, GroupHash, IsPacking, DataHashInjective, XorbHashInjective, Join, Unresolved;
    PlacedInGroup(x, chunks, before, m.groups, m.slots, at.0, at.1);
    StoredGroupIsSound(x, next, chunks, m.groups[at.0], at.1);
  }

  // ---- upload, then download ----

  /** What the pipeline theorem asks of the library: it reads back its own xorbs and shards. */
  ghost predicate WorkingLibrary(x: Xet) {
    && Trusted(x) && OnlyVersionZero(x) && XorbHashInjective(x)
    && SealsReadBack(x) && SealsFit(x) && ShardsPrint(x)
  }

  /** What it asks of the file: non-empty, hashed, small chunks the serialiser can write. */
  ghost predicate GoodChunks(x: Xet, chunks: seq<Chunk>) {
    chunks != [] && Hashed(x, chunks) && ChunksSmall(x, chunks) && Serialisable(x, chunks)
  }

  lemma {:induction false} PlanXorbsAcceptable(x: Xet, chunks: seq<Chunk>, before: Slots, m: Making, plan: UploadPlan)
    requires WorkingLibrary(x) && GoodChunks(x, chunks) && |before| == |chunks| && PlanMade(x, chunks, before, m, plan)
    ensures forall k :: 0 <= k < |plan.xorbs| ==> Acceptable(x, plan.xorbs[k].0, plan.xorbs[k].1)
    ensures forall k :: 0 <= k < |m.groups| ==>
      InRange(chunks, m.groups[k]) && plan.xorbs[k].0 == GroupHash(x, chunks, m.groups[k])
      && BytesOf(chunks, m.groups[k]) <= x.maxXorbBytes
  {
    forall k | 0 <= k < |m.groups|
      ensures Acceptable(x, plan.xorbs[k].0, plan.xorbs[k].1)
      ensures InRange(chunks, m.groups[k]) && plan.xorbs[k].0 == GroupHash(x, chunks, m.groups[k])
      ensures BytesOf(chunks, m.groups[k]) <= x.maxXorbBytes
    {
      assert Fits(x, chunks, m.groups[k]);
      hide Acceptable, SealsReadBack, SealsFit, FootersChecked, Serialisable, Fits;
      GroupIsAcceptable(x, chunks, m.groups[k]);
    }
  }

  lemma {:induction false} PlannedSpots(x: Xet, st: State, chunks: seq<Chunk>, before: Slots, m: Making, plan: UploadPlan, now: int)
    requires WorkingLibrary(x) && GoodChunks(x, chunks) && Inv(x, st) && SlotsSound(x, st.xorbs, chunks, before)
    requires PlanMade(x, chunks, before, m, plan)
    ensures var next := UploadXorbs(x, st, plan.xorbs, now);
      Inv(x, next) && Extends(st, next) && SpotsSound(x, next.xorbs, chunks, Expand(m.entries))
  {
    hide Inv, Acceptable, SealsReadBack, SealsFit, FootersChecked, Serialisable, SpotSound, PlacedBy, IsPacking,
      UploadXorbs, GroupHash, StandardLimits, BytesOf;
    PlanXorbsAcceptable(x, chunks, before, m, plan);
    UploadsAreStored(x, st, plan.xorbs, now);
    forall k | 0 <= k < |m.groups| ensures GroupHash(x, chunks, m.groups[k]) in UploadXorbs(x, st, plan.xorbs, now).xorbs {
      assert plan.xorbs[k].0 in UploadXorbs(x, st, plan.xorbs, now).xorbs.Keys;
    }
    PlanIsStored(x, st, UploadXorbs(x, st, plan.xorbs, now), chunks, before, m);
  }

  lemma {:induction false} WorkingPromises(x: Xet)
    requires WorkingLibrary(x)
    ensures Trusted(x) && DataHashInjective(x) && XorbHashInjective(x) && ShardsPrint(x)
  {
  }

  lemma {:induction false} PlanIsOneBlock(
    x: Xet, xorbs: map<Hash, Blob>, chunks: seq<Chunk>, before: Slots, m: Making, plan: UploadPlan)
    requires WorkingLibrary(x) && GoodChunks(x, chunks) && |before| == |chunks| && PlanMade(x, chunks, before, m, plan)
    ensures ValidUpload(x, xorbs, plan.shardBytes) <==>
      |plan.shardBytes| <= MAX_SHARD_SIZE && ValidFile(x, xorbs, FileBlock(plan.fileHash, true, m.entries))
  {
    WorkingPromises(x);
    GroupsInRange(x, chunks, before, m.groups, m.slots);
    ParsesToPlan(x, chunks, m, plan);
    hide WorkingLibrary, GoodChunks, ClosedWhenFull, IsPacking, Maximal, DescribesAll, ValidFile, PlacedBy, ValidUpload,
      ShardsPrint, Trusted, Expand, PlannedShard, GroupXorb;
    OneBlockUpload(x, xorbs, plan.shardBytes, FileBlock(plan.fileHash, true, m.entries));
  }

  lemma {:induction false} OneBlockUpload(x: Xet, xorbs: map<Hash, Blob>, body: seq<Byte>, block: FileBlock)
    requires x.shardFooterSize(body) == Some(0) && x.parseShard(body).Some? && x.parseShard(body).value.files == [block]
    ensures ValidUpload(x, xorbs, body) <==> |body| <= MAX_SHARD_SIZE && ValidFile(x, xorbs, block)
  {
    hide ValidFile;
    assert [block][0] == block;
  }

  // The planned shard is accepted once its xorbs are uploaded; its size is the only thing
  // registration can still object to.
  lemma {:induction false} PlanIsAcceptedIff(x: Xet, st: State, chunks: seq<Chunk>, before: Slots, m: Making, plan: UploadPlan, now: int)
    requires WorkingLibrary(x) && GoodChunks(x, chunks) && Inv(x, st) && SlotsSound(x, st.xorbs, chunks, before)
    requires PlanMade(x, chunks, before, m, plan)
    ensures ValidUpload(x, UploadXorbs(x, st, plan.xorbs, now).xorbs, plan.shardBytes) <==>
      |plan.shardBytes| <= MAX_SHARD_SIZE
  {
    PlannedSpots(x, st, chunks, before, m, plan, now);
    PlannedBlockIsValid(x, UploadXorbs(x, st, plan.xorbs, now).xorbs, chunks, before, m, plan);
    hide WorkingLibrary, GoodChunks, PlanMade, SlotsSound, Inv, UploadXorbs, ValidUpload, ValidFile;
    SlotsMatch(x, st, chunks, before);
    PlanIsOneBlock(x, UploadXorbs(x, st, plan.xorbs, now).xorbs, chunks, before, m, plan);
  }

  lemma {:induction false} SlotsMatch(x: Xet, st: State, chunks: seq<Chunk>, before: Slots)
    requires SlotsSound(x, st.xorbs, chunks, before)
    ensures |before| == |chunks|
  {
  }

  lemma {:induction false} PlannedBlockIsValid(
    x: Xet, xorbs: map<Hash, Blob>, chunks: seq<Chunk>, before: Slots, m: Making, plan: UploadPlan)
    requires WorkingLibrary(x) && GoodChunks(x, chunks) && |before| == |chunks| && PlanMade(x, chunks, before, m, plan)
    requires SpotsSound(x, xorbs, chunks, Expand(m.entries))
    ensures ValidFile(x, xorbs, FileBlock(plan.fileHash, true, m.entries))
  {
    hide WorkingLibrary, Serialisable, SpotsSound, PlacedBy, IsPacking, ClosedWhenFull, Maximal, DescribesAll, ValidFile;
    PlannedFileIsValid(x, xorbs, chunks, m.entries);
  }

  lemma {:induction false} ParsesToPlan(x: Xet, chunks: seq<Chunk>, m: Making, plan: UploadPlan)
    requires ShardsPrint(x) && forall k :: 0 <= k < |m.groups| ==> InRange(chunks, m.groups[k])
    requires plan.shardBytes == x.printShard(PlannedShard(x, chunks, m.groups, m.entries))
    ensures x.shardFooterSize(plan.shardBytes) == Some(0) && x.parseShard(plan.shardBytes).Some?
    ensures x.parseShard(plan.shardBytes).value.files == [FileBlock(x.fileHash(SizedChunks(chunks)), true, m.entries)]
  {
  }

  // The state after posting a plan's xorbs and registering its shard.
  function Uploaded(x: Xet, st: State, plan: UploadPlan, owner: Owner, now: int): State {
    Register(x, UploadXorbs(x, st, plan.xorbs, now), owner, plan.shardBytes, now)
  }

  // An accepted plan leaves the file indexed, claimed by its owner, and standing for exactly
  // the original bytes.
  lemma {:induction false} UploadIndexesFile(
    x: Xet, st: State, chunks: seq<Chunk>, before: Slots, m: Making, plan: UploadPlan, owner: Owner, now: int)
    requires WorkingLibrary(x) && GoodChunks(x, chunks) && Inv(x, st) && SlotsSound(x, st.xorbs, chunks, before)
    requires PlanMade(x, chunks, before, m, plan) && |plan.shardBytes| <= MAX_SHARD_SIZE
    ensures var next := Uploaded(x, st, plan, owner, now);
      && Inv(x, next)
      && plan.fileHash in next.fileIndex && (plan.fileHash, owner) in next.claims
      && FileContent(x, next, plan.fileHash) == Join(Datas(chunks))
  {
    PlannedSpots(x, st, chunks, before, m, plan, now);
    PlanIsAcceptedIff(x, st, chunks, before, m, plan, now);
    GroupsInRange(x, chunks, before, m.groups, m.slots);
    ParsesToPlan(x, chunks, m, plan);
    var mid := UploadXorbs(x, st, plan.xorbs, now);
    PlannedFileIsValid(x, mid.xorbs, chunks, m.entries);
    hide Inv, SealsReadBack, SealsFit, FootersChecked, Serialisable, SpotsSound, PlacedBy, IsPacking,
      UploadXorbs, ValidFile, ClosedWhenFull, Maximal, DescribesAll, ValidUpload, SlotsSound;
    RegisteredContent(x, mid, plan.shardBytes, FileBlock(plan.fileHash, true, m.entries), owner, now);
  }

  // Registering a one-file shard.
  lemma {:induction false} RegisteredContent(x: Xet, st: State, body: seq<Byte>, block: FileBlock, owner: Owner, now: int)
    requires Trusted(x) && Inv(x, st) && ValidUpload(x, st.xorbs, body)
    requires x.parseShard(body).value.files == [block]
    ensures var next := Register(x, st, owner, body, now);
      && Inv(x, next) && block.hash in next.fileIndex && (block.hash, owner) in next.claims
      && next.xorbs == st.xorbs && FileEntries(x, next, block.hash) == block.entries
      && FileContent(x, next, block.hash) == Join(FileRaws(x, st.xorbs, block.entries))
  {
    RegisterKeepsInv(x, st, owner, body, now);
    RegisteredEntries(x, st, body, block, owner, now);
    hide Inv, ValidUpload, Register, FileEntries;
    ContentOfRaws(x, st.xorbs, block.entries);
  }

  lemma {:induction false} RegisteredEntries(x: Xet, st: State, body: seq<Byte>, block: FileBlock, owner: Owner, now: int)
    requires Trusted(x) && Inv(x, st) && ValidUpload(x, st.xorbs, body)
    requires x.parseShard(body).value.files == [block]
    ensures var next := Register(x, st, owner, body, now);
      && block.hash in next.fileIndex && (block.hash, owner) in next.claims
      && next.xorbs == st.xorbs && FileEntries(x, next, block.hash) == block.entries
  {
    hide ValidFile, FilesSound, LayoutsMatch, BlobsSound, ClaimsSized, ClaimsMatch, RowsDistinct, ClaimFiles, IndexFiles, ShardFiles;
    var files := x.parseShard(body).value.files;
    StoredShardIsUpload(x, st.shards, body, now);
    IndexedFiles(st.fileIndex, files, x.dataHash(body), block.hash);
    assert files[0].hash == block.hash;
    assert About(files, block.hash);
    ClaimedFiles(x, st.xorbs, st.claims, files, owner, now, block.hash, owner);
  }

  // The end-to-end theorem. Upload a file, with any mix of new and deduplicated chunks, and
  // let anything happen afterwards: as long as the file is still indexed, whoever may read
  // it downloads exactly the bytes that were uploaded.
  lemma {:induction false} UploadThenDownload(
    x: Xet, st: State, chunks: seq<Chunk>, before: Slots, m: Making, plan: UploadPlan, owner: Owner, now: int,
    later: seq<Store.Event>, caller: Caller)
    requires WorkingLibrary(x) && GoodChunks(x, chunks) && Inv(x, st) && SlotsSound(x, st.xorbs, chunks, before)
    requires PlanMade(x, chunks, before, m, plan) && |plan.shardBytes| <= MAX_SHARD_SIZE
    ensures Download(x, Uploaded(x, st, plan, owner, now), Caller(owner, false), plan.fileHash, None, None)
      == Ok(Join(Datas(chunks)))
    ensures var end := Run(x, Uploaded(x, st, plan, owner, now), later);
      plan.fileHash in end.fileIndex && MayRead(end, caller, plan.fileHash) ==>
        Download(x, end, caller, plan.fileHash, None, None) == Ok(Join(Datas(chunks)))
  {
    hide Inv, SealsReadBack, SealsFit, Serialisable, PlanMade, Uploaded, Run, Download, FileContent, Join, SlotsSound, StandardLimits,
      FootersChecked, DataHashInjective, FileHashInjective, XorbHashInjective, ShardsPrint, OnlyVersionZero, Hashed, ChunksSmall;
    UploadIndexesFile(x, st, chunks, before, m, plan, owner, now);
    var first := Uploaded(x, st, plan, owner, now);
    var end := Run(x, first, later);
    WholeDownload(x, first, Caller(owner, false), plan.fileHash);
    RunKeepsInv(x, first, later);
    if plan.fileHash in end.fileIndex && MayRead(end, caller, plan.fileHash) {
      ContentIsFixed(x, first, end, plan.fileHash);
      WholeDownload(x, end, caller, plan.fileHash);
    }
  }

  // ---- ranges ----

  // Chunk indices inside a term are distinct, so a term is bounded by its xorb.
  lemma {:induction false} TermWithinXorb(x: Xet, xorbs: map<Hash, Blob>, t: Term)
    requires TermInStore(x, xorbs, t)
    ensures UnpackedLen(TermFrames(x, xorbs, t)) <= UnpackedLen(FramesOf(x, xorbs[t.xorb].bytes))
  {
    var fs := FramesOf(x, xorbs[t.xorb].bytes);
    var lens := Lens(Raws(fs));
    assert Lens(Raws(fs[t.start..t.end])) == lens[t.start..t.end];
    SumSlice(lens, t.start, t.end);
    SumSplit(lens, t.end);
  }

  lemma {:induction false} StoredGroupSize(x: Xet, st: State, chunks: seq<Chunk>, g: seq<nat>)
    requires Inv(x, st) && XorbHashInjective(x)
    requires InRange(chunks, g) && GroupHash(x, chunks, g) in st.xorbs
    ensures UnpackedLen(FramesOf(x, st.xorbs[GroupHash(x, chunks, g)].bytes)) == BytesOf(chunks, g)
  {
    var h := GroupHash(x, chunks, g);
    assert SoundBody(x, h, st.xorbs[h].bytes);
    hide Inv, SoundBody, FramesOf;
    var fs := FramesOf(x, st.xorbs[h].bytes);
    assert x.xorbHash(SizedOf(x, fs)) == x.xorbHash(SizedAt(chunks, g));
    assert SizedOf(x, fs) == SizedAt(chunks, g);
    assert |SizedOf(x, fs)| == |fs|;
    forall i | 0 <= i < |fs| ensures Lens(Raws(fs))[i] == LensAt(chunks, g)[i] {
      assert SizedOf(x, fs)[i] == SizedAt(chunks, g)[i];
    }
    assert Lens(Raws(fs)) == LensAt(chunks, g);
  }

  // The xorbs deduplicated chunks were found in unpack to less than 4 GiB.
  ghost predicate DedupedFit(x: Xet, xorbs: map<Hash, Blob>, before: Slots) {
    forall i :: 0 <= i < |before| && before[i].Some? && before[i].value.xorb in xorbs ==>
      UnpackedLen(FramesOf(x, xorbs[before[i].value.xorb].bytes)) < U32
  }

  // Whatever a plan refers to is a xorb of its own, under the caps, or one dedup named.
  lemma {:induction false} SlotXorbFits(
    x: Xet, st: State, chunks: seq<Chunk>, before: Slots, m: Making, plan: UploadPlan, now: int, i: nat)
    requires WorkingLibrary(x) && GoodChunks(x, chunks) && Inv(x, st) && SlotsSound(x, st.xorbs, chunks, before)
    requires PlanMade(x, chunks, before, m, plan) && DedupedFit(x, st.xorbs, before) && i < |m.slots|
    ensures var h, next := m.slots[i].value.xorb, UploadXorbs(x, st, plan.xorbs, now);
      h in next.xorbs && UnpackedLen(FramesOf(x, next.xorbs[h].bytes)) < U32
  {
    PlannedSpots(x, st, chunks, before, m, plan, now);
    PlanXorbsAcceptable(x, chunks, before, m, plan);
    UploadsAreStored(x, st, plan.xorbs, now);
    var next := UploadXorbs(x, st, plan.xorbs, now);
    SameLengths(x, chunks, before, m.groups, m.slots);
    hide Inv, SealsReadBack, SealsFit, FootersChecked, Serialisable, Acceptable, UploadXorbs, PlacedBy, IsPacking, UnpackedLen, GroupHash,
      BytesOf, ClosedWhenFull, Maximal, DescribesAll, Expand, SpotsSound, FramesOf;
    if before[i].Some? {
      UnresolvedOnly(x, chunks, before, m.groups, i);
      PlacedElsewhere(x, chunks, before, m.groups, m.slots, i);
      assert SpotSound(x, st.xorbs, chunks[i], before[i].value);
    } else {
      UnresolvedIsComplete(before, |before|, i);
      PackedIsUnresolved(x, chunks, before, m.groups);
      var at := GroupPosition<nat>(m.groups, i);
      PlacedInGroup(x, chunks, before, m.groups, m.slots, at.0, at.1);
      assert plan.xorbs[at.0].0 in next.xorbs.Keys;
      StoredGroupSize(x, next, chunks, m.groups[at.0]);
    }
  }

  lemma {:induction false} PackedIsUnresolved(x: Xet, chunks: seq<Chunk>, before: Slots, groups: seq<seq<nat>>)
    requires IsPacking(x, chunks, Unresolved(before, |before|), groups)
    ensures Join(groups) == Unresolved(before, |before|)
  {
  }

  // No plan makes a term of 4 GiB or more, except for a file that large, deduplicated against
  // a xorb that unpacks to 4 GiB or more.
  lemma {:induction false} PlannedTermsFit(
    x: Xet, st: State, chunks: seq<Chunk>, before: Slots, m: Making, plan: UploadPlan, now: int)
    requires WorkingLibrary(x) && GoodChunks(x, chunks) && Inv(x, st) && SlotsSound(x, st.xorbs, chunks, before)
    requires PlanMade(x, chunks, before, m, plan)
    requires DedupedFit(x, st.xorbs, before) || |Join(Datas(chunks))| < U32
    ensures TermsFit(x, UploadXorbs(x, st, plan.xorbs, now).xorbs, TermsOf(m.entries))
  {
    hide *;
    if |Join(Datas(chunks))| < U32 {
      SmallPlanFits(x, st, chunks, before, m, plan, now);
    } else {
      forall k | 0 <= k < |m.entries|
        ensures UnpackedLen(TermFrames(x, UploadXorbs(x, st, plan.xorbs, now).xorbs, m.entries[k].term)) < U32
      {
        PlannedTermFits(x, st, chunks, before, m, plan, now, k);
      }
      AllTermsFit(x, UploadXorbs(x, st, plan.xorbs, now).xorbs, m.entries);
    }
  }

  lemma {:induction false} AllTermsFit(x: Xet, xorbs: map<Hash, Blob>, entries: seq<Entry>)
    requires forall k :: 0 <= k < |entries| ==> UnpackedLen(TermFrames(x, xorbs, entries[k].term)) < U32
    ensures TermsFit(x, xorbs, TermsOf(entries))
  {
    hide UnpackedLen, TermFrames;
  }

  lemma {:induction false} SmallPlanFits(
    x: Xet, st: State, chunks: seq<Chunk>, before: Slots, m: Making, plan: UploadPlan, now: int)
    requires WorkingLibrary(x) && GoodChunks(x, chunks) && Inv(x, st) && SlotsSound(x, st.xorbs, chunks, before)
    requires PlanMade(x, chunks, before, m, plan) && |Join(Datas(chunks))| < U32
    ensures TermsFit(x, UploadXorbs(x, st, plan.xorbs, now).xorbs, TermsOf(m.entries))
  {
    var next := UploadXorbs(x, st, plan.xorbs, now);
    PlannedSpots(x, st, chunks, before, m, plan, now);
    hide Inv, UploadXorbs, SlotsSound, PlacedBy, IsPacking, SealsReadBack, SealsFit, FootersChecked, Serialisable, Trusted,
      ClosedWhenFull, Maximal, DescribesAll, SpotsSound;
    PlannedFileIsValid(x, next.xorbs, chunks, m.entries);
    hide *;
    ContentOfRaws(x, next.xorbs, m.entries);
    SmallFileFits(x, next.xorbs, TermsOf(m.entries));
  }

  lemma {:induction false} PlannedTermFits(
    x: Xet, st: State, chunks: seq<Chunk>, before: Slots, m: Making, plan: UploadPlan, now: int, k: nat)
    requires WorkingLibrary(x) && GoodChunks(x, chunks) && Inv(x, st) && SlotsSound(x, st.xorbs, chunks, before)
    requires PlanMade(x, chunks, before, m, plan) && DedupedFit(x, st.xorbs, before) && k < |m.entries|
    ensures UnpackedLen(TermFrames(x, UploadXorbs(x, st, plan.xorbs, now).xorbs, m.entries[k].term)) < U32
  {
    var next := UploadXorbs(x, st, plan.xorbs, now);
    PlannedSpots(x, st, chunks, before, m, plan, now);
    hide Inv, WorkingLibrary, GoodChunks, SpotsSound, UploadXorbs, SlotsSound, PlacedBy, IsPacking, DescribesAll, ClosedWhenFull, Maximal,
      FramesOf, UnpackedLen, Expand, DedupedFit;
    TermHasSpot(m.entries, k);
    var i :| 0 <= i < |Expand(m.entries)| && Expand(m.entries)[i].xorb == m.entries[k].term.xorb;
    SlotXorbFits(x, st, chunks, before, m, plan, now, i);
    TermIsChunks(x, next.xorbs, chunks, m.entries, k);
    TermWithinXorb(x, next.xorbs, m.entries[k].term);
  }

  // Right after the upload its terms fit under the same condition.
  lemma {:induction false} FreshUploadFits(
    x: Xet, st: State, chunks: seq<Chunk>, before: Slots, m: Making, plan: UploadPlan, owner: Owner, now: int)
    requires WorkingLibrary(x) && GoodChunks(x, chunks) && Inv(x, st) && SlotsSound(x, st.xorbs, chunks, before)
    requires PlanMade(x, chunks, before, m, plan) && |plan.shardBytes| <= MAX_SHARD_SIZE
    requires DedupedFit(x, st.xorbs, before) || |Join(Datas(chunks))| < U32
    ensures var next := Uploaded(x, st, plan, owner, now);
      TermsFit(x, next.xorbs, TermsOf(FileEntries(x, next, plan.fileHash)))
  {
    PlannedTermsFit(x, st, chunks, before, m, plan, now);
    PlannedSpots(x, st, chunks, before, m, plan, now);
    PlanIsAcceptedIff(x, st, chunks, before, m, plan, now);
    GroupsInRange(x, chunks, before, m.groups, m.slots);
    ParsesToPlan(x, chunks, m, plan);
    hide Inv, SealsReadBack, SealsFit, FootersChecked, Serialisable, SpotsSound, PlacedBy, IsPacking, UploadXorbs, ValidFile,
      ClosedWhenFull, Maximal, DescribesAll, ValidUpload, SlotsSound, TermsFit, DedupedFit, Join, Register;
    var mid := UploadXorbs(x, st, plan.xorbs, now);
    RegisteredContent(x, mid, plan.shardBytes, FileBlock(plan.fileHash, true, m.entries), owner, now);
  }

  // Any sub-range of an uploaded file reads back exactly, for whoever may read it, whatever has
  // happened since, as long as the file is indexed: for a file under 4 GiB always, for a larger
  // one if the terms it is indexed with fit.
  lemma {:induction false} UploadThenRange(
    x: Xet, st: State, chunks: seq<Chunk>, before: Slots, m: Making, plan: UploadPlan, owner: Owner, now: int,
    later: seq<Store.Event>, caller: Caller, a: nat, b: nat)
    requires WorkingLibrary(x) && GoodChunks(x, chunks) && Inv(x, st) && SlotsSound(x, st.xorbs, chunks, before)
    requires PlanMade(x, chunks, before, m, plan) && |plan.shardBytes| <= MAX_SHARD_SIZE && a <= b
    requires MayReadAfter(x, st, plan, owner, now, later, caller)
    requires |Join(Datas(chunks))| < U32 || TermsFitAfter(x, st, plan, owner, now, later)
    ensures Download(x, Run(x, Uploaded(x, st, plan, owner, now), later), caller, plan.fileHash, Some(a), Some(b)) ==
      RangeAnswer(Join(Datas(chunks)), a, b)
  {
    hide RangeAnswer, Inv, SealsReadBack, SealsFit, Serialisable, PlanMade, Download, FileContent, Join, FileEntries, Uploaded, StandardLimits, Run,
      FootersChecked, DataHashInjective, FileHashInjective, XorbHashInjective, ShardsPrint, OnlyVersionZero, Hashed, ChunksSmall,
      MayRead, TermsFit, Min, SlotsSound;
    UploadIndexesFile(x, st, chunks, before, m, plan, owner, now);
    var first := Uploaded(x, st, plan, owner, now);
    var end := Run(x, first, later);
    RunKeepsInv(x, first, later);
    ContentIsFixed(x, first, end, plan.fileHash);
    if |Join(Datas(chunks))| < U32 {
      SmallContentFits(x, end, plan.fileHash);
    }
    RangeDownload(x, end, caller, plan.fileHash, a, b);
  }

  ghost predicate MayReadAfter(
    x: Xet, st: State, plan: UploadPlan, owner: Owner, now: int, later: seq<Store.Event>, caller: Caller)
  {
    var end := Run(x, Uploaded(x, st, plan, owner, now), later);
    plan.fileHash in end.fileIndex && MayRead(end, caller, plan.fileHash)
  }

  ghost predicate TermsFitAfter(x: Xet, st: State, plan: UploadPlan, owner: Owner, now: int, later: seq<Store.Event>) {
    var end := Run(x, Uploaded(x, st, plan, owner, now), later);
    TermsFit(x, end.xorbs, TermsOf(FileEntries(x, end, plan.fileHash)))
  }

  lemma {:induction false} SmallContentFits(x: Xet, st: State, f: Hash)
    requires |FileContent(x, st, f)| < U32
    ensures TermsFit(x, st.xorbs, TermsOf(FileEntries(x, st, f)))
  {
    hide FileEntries, TermParts;
    SmallFileFits(x, st.xorbs, TermsOf(FileEntries(x, st, f)));
  }
}
