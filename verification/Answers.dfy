/**
 The reconstruction answer (crates/server/src/routes/reconstruction.rs): which chunks of which
 xorbs it tells the client to fetch, and at which bytes, said of the terms and the stored frames.
 */
module Answers {
  import opened Basics
  import opened XetCore
  import opened Frames
  import opened XorbMeta
  import opened Decoding
  import opened RangeMerging
  import opened RangeHeaders
  import opened Store
  import opened Invariants
  import opened Reconstruction
  import opened Access

  function SpanOf(offsets: seq<(nat, nat)>, r: ChunkRange): FetchInfo
    requires r.start < r.end <= |offsets|
  {
    FetchInfo(r, offsets[r.start].0, Less(offsets[r.end - 1].1))
  }

  // Ranges inside the known chunks get their spans one by one; none drops out.
  lemma {:induction false} SpansOf(offsets: seq<(nat, nat)>, ranges: Ranges)
    requires forall i :: 0 <= i < |ranges| ==> ranges[i].start < ranges[i].end <= |offsets|
    ensures |FetchInfos(offsets, ranges)| == |ranges|
    ensures forall i :: 0 <= i < |ranges| ==> FetchInfos(offsets, ranges)[i] == SpanOf(offsets, ranges[i])
  {
    if ranges != [] {
      SpansOf(offsets, ranges[1..]);
    }
  }

  // Chunk p of xorb h is part of some term.
  ghost predicate Needed(terms: seq<Term>, h: Hash, p: nat) {
    exists t :: t in terms && t.xorb == h && t.start <= p < t.end
  }

  lemma {:induction false} CoversNeeded(terms: seq<Term>, h: Hash, p: nat)
    ensures Covers(RangesOf(terms, h), p) <==> Needed(terms, h, p)
  {
    var ranges := RangesOf(terms, h);
    if Covers(ranges, p) {
      var i :| 0 <= i < |ranges| && Holds(ranges[i], p);
      RangesOfMembers(terms, h, ranges[i]);
      var k :| 0 <= k < |terms| && terms[k].xorb == h && ranges[i] == ChunkRange(terms[k].start, terms[k].end);
      assert terms[k] in terms;
    }
    if Needed(terms, h, p) {
      var t :| t in terms && t.xorb == h && t.start <= p < t.end;
      var k :| 0 <= k < |terms| && terms[k] == t;
      RangesOfMembers(terms, h, ChunkRange(t.start, t.end));
      var i :| 0 <= i < |ranges| && ranges[i] == ChunkRange(t.start, t.end);
      assert Holds(ranges[i], p);
    }
  }

  // The merged ranges of a xorb: proper, inside its chunks, apart, and exactly what is needed.
  lemma {:induction false} MergedIsNeeded(x: Xet, xorbs: map<Hash, Blob>, terms: seq<Term>, h: Hash)
    requires AllInStore(x, xorbs, terms) && h in xorbs
    ensures var merged, n := MergedRanges(RangesOf(terms, h)), |FramesOf(x, xorbs[h].bytes)|;
      && (forall i :: 0 <= i < |merged| ==> merged[i].start < merged[i].end <= n)
      && (forall i, j :: 0 <= i < j < |merged| ==> merged[i].end < merged[j].start)
      && (forall p: nat :: Covers(merged, p) <==> Needed(terms, h, p))
      && (merged != [] <==> Mentions(terms, h))
  {
    hide MergedRanges, RangesOf, FramesOf, AllInStore, Needed, Covers, Proper, HasHome;
    var ranges := RangesOf(terms, h);
    TermsAreProper(x, xorbs, terms, h);
    MergedIsCanonical(ranges);
    MergedKeepsChunks(ranges);
    var merged := MergedRanges(ranges);
    CanonicalIsApart(merged);
    forall p: nat ensures Covers(merged, p) <==> Needed(terms, h, p) {
      CoversNeeded(terms, h, p);
      SameChunksAt(merged, ranges, p);
    }
    forall i | 0 <= i < |merged| ensures merged[i].start < merged[i].end <= |FramesOf(x, xorbs[h].bytes)| {
      CoversItsOwn(merged, i);
      NeededIsStored(x, xorbs, terms, h, merged[i].end - 1);
    }
    if merged != [] {
      CoversItsOwn(merged, 0);
      NeededIsStored(x, xorbs, terms, h, merged[0].end - 1);
    }
    if Mentions(terms, h) {
      var k :| 0 <= k < |terms| && terms[k].xorb == h;
      MentionedIsNeeded(x, xorbs, terms, k);
      CoversNothing(terms[k].start);
    }
  }

  lemma {:induction false} CanonicalIsApart(rs: Ranges)
    requires Canonical(rs)
    ensures forall i :: 0 <= i < |rs| ==> rs[i].start < rs[i].end
    ensures forall i, j :: 0 <= i < j < |rs| ==> rs[i].end < rs[j].start
  {
  }

  lemma {:induction false} SameChunksAt(a: Ranges, b: Ranges, p: nat)
    requires SameChunks(a, b)
    ensures Covers(a, p) <==> Covers(b, p)
  {
    hide Covers;
  }

  lemma {:induction false} CoversItsOwn(rs: Ranges, i: nat)
    requires i < |rs| && rs[i].start < rs[i].end
    ensures Covers(rs, rs[i].end - 1)
  {
    assert Holds(rs[i], rs[i].end - 1);
  }

  lemma {:induction false} CoversNothing(p: nat)
    ensures !Covers([], p)
  {
  }

  lemma {:induction false} TermsAreProper(x: Xet, xorbs: map<Hash, Blob>, terms: seq<Term>, h: Hash)
    requires AllInStore(x, xorbs, terms)
    ensures Proper(RangesOf(terms, h))
  {
    hide FramesOf;
    var ranges := RangesOf(terms, h);
    forall i | 0 <= i < |ranges| ensures ranges[i].start < ranges[i].end {
      RangesOfMembers(terms, h, ranges[i]);
      var k :| 0 <= k < |terms| && terms[k].xorb == h && ranges[i] == ChunkRange(terms[k].start, terms[k].end);
      assert TermInStore(x, xorbs, terms[k]);
    }
  }

  lemma {:induction false} NeededIsStored(x: Xet, xorbs: map<Hash, Blob>, terms: seq<Term>, h: Hash, p: nat)
    requires AllInStore(x, xorbs, terms) && Needed(terms, h, p)
    ensures Mentions(terms, h) && h in xorbs && p < |FramesOf(x, xorbs[h].bytes)|
  {
    hide FramesOf;
    var t :| t in terms && t.xorb == h && t.start <= p < t.end;
    var k :| 0 <= k < |terms| && terms[k] == t;
    assert TermInStore(x, xorbs, terms[k]);
  }

  lemma {:induction false} MentionedIsNeeded(x: Xet, xorbs: map<Hash, Blob>, terms: seq<Term>, k: nat)
    requires AllInStore(x, xorbs, terms) && k < |terms|
    ensures terms[k].xorb in xorbs && Needed(terms, terms[k].xorb, terms[k].start)
  {
    hide FramesOf;
    assert TermInStore(x, xorbs, terms[k]);
    assert terms[k] in terms;
  }

  // Fetching this range means the bytes from its first frame to the end of its last, inclusive.
  ghost predicate SpansFrames(x: Xet, fs: seq<Frame>, info: FetchInfo)
    requires AllWellFormed(x, fs)
  {
    && info.range.start < info.range.end <= |fs|
    && info.first == |PrintAll(x, fs[..info.range.start])|
    && info.last + 1 == |PrintAll(x, fs[..info.range.end])|
  }

  // Some entry asks for chunk p.
  ghost predicate Fetched(infos: seq<FetchInfo>, p: nat) {
    exists i :: 0 <= i < |infos| && infos[i].range.start <= p < infos[i].range.end
  }

  // The entries for a xorb: whole frames, apart from each other, in order, and exactly the chunks
  // some term needs.
  ghost predicate FetchesExactly(x: Xet, fs: seq<Frame>, terms: seq<Term>, h: Hash, infos: seq<FetchInfo>)
    requires AllWellFormed(x, fs)
  {
    && infos != []
    && (forall i :: 0 <= i < |infos| ==> SpansFrames(x, fs, infos[i]))
    && (forall i, j :: 0 <= i < j < |infos| ==> infos[i].range.end < infos[j].range.start)
    && (forall p: nat :: Fetched(infos, p) <==> Needed(terms, h, p))
  }

  lemma {:induction false} SpanIsFrames(x: Xet, fs: seq<Frame>, r: ChunkRange)
    requires AllWellFormed(x, fs) && r.start < r.end <= |fs|
    ensures SpansFrames(x, fs, FetchInfo(r, Boundaries(fs)[r.start].0, Less(Boundaries(fs)[r.end - 1].1)))
  {
    PrefixLength(x, fs, r.start);
    PrefixLength(x, fs, r.end);
    BoundaryGrows(fs, r.start, r.end);
    hide PrintAll, AllWellFormed, Sum;
  }

  lemma {:induction false} SoundFrames(x: Xet, st: State, h: Hash)
    requires Inv(x, st) && h in st.xorbs
    ensures AllWellFormed(x, FramesOf(x, st.xorbs[h].bytes))
  {
    assert SoundBody(x, h, st.xorbs[h].bytes);
  }

  lemma {:induction false} SpansAreExact(x: Xet, fs: seq<Frame>, terms: seq<Term>, h: Hash, merged: Ranges)
    requires AllWellFormed(x, fs) && merged != []
    requires forall i :: 0 <= i < |merged| ==> merged[i].start < merged[i].end <= |fs|
    requires forall i, j :: 0 <= i < j < |merged| ==> merged[i].end < merged[j].start
    requires forall p: nat :: Covers(merged, p) <==> Needed(terms, h, p)
    ensures FetchesExactly(x, fs, terms, h, FetchInfos(Boundaries(fs), merged))
  {
    hide Needed, SpansFrames, AllWellFormed, FetchInfos, Covers, Fetched;
    var infos := FetchInfos(Boundaries(fs), merged);
    SpansOf(Boundaries(fs), merged);
    forall i | 0 <= i < |infos| ensures SpansFrames(x, fs, infos[i]) && infos[i].range == merged[i] {
      SpanIsFrames(x, fs, merged[i]);
    }
    forall p: nat ensures Fetched(infos, p) <==> Needed(terms, h, p) {
      SameCover(infos, merged, p);
    }
  }

  lemma {:induction false} EntriesAreExact(x: Xet, st: State, terms: seq<Term>, h: Hash)
    requires Inv(x, st) && AllInStore(x, st.xorbs, terms) && Mentions(terms, h)
    ensures h in st.xorbs && AllWellFormed(x, FramesOf(x, st.xorbs[h].bytes)) && ChunkOffsets(x, st, h).Ok?
    ensures FetchesExactly(x, FramesOf(x, st.xorbs[h].bytes), terms, h, XorbFetch(x, st, terms, h))
  {
    hide Inv, AllInStore, FramesOf, ChunkOffsets, MergedRanges, RangesOf, Needed, AllWellFormed, FetchInfos, FetchesExactly, Boundaries,
      Covers;
    var k :| 0 <= k < |terms| && terms[k].xorb == h;
    MentionedIsNeeded(x, st.xorbs, terms, k);
    SoundFrames(x, st, h);
    OffsetsAreBoundaries(x, st, h);
    MergedIsNeeded(x, st.xorbs, terms, h);
    SpansAreExact(x, FramesOf(x, st.xorbs[h].bytes), terms, h, MergedRanges(RangesOf(terms, h)));
  }

  lemma {:induction false} SameCover(infos: seq<FetchInfo>, ranges: Ranges, p: nat)
    requires |infos| == |ranges| && forall i :: 0 <= i < |infos| ==> infos[i].range == ranges[i]
    ensures Fetched(infos, p) <==> Covers(ranges, p)
  {
    if Fetched(infos, p) {
      var i :| 0 <= i < |infos| && infos[i].range.start <= p < infos[i].range.end;
      assert Holds(ranges[i], p);
    }
    if Covers(ranges, p) {
      var i :| 0 <= i < |ranges| && Holds(ranges[i], p);
      assert infos[i].range == ranges[i];
    }
  }

  // The server's answer names exactly the xorbs its terms are in, and for each exactly the chunks
  // its terms need, as spans of whole frames that neither overlap nor touch.
  lemma {:induction false} AnswerIsExact(x: Xet, st: State, caller: Caller, f: Hash, header: RangeHeader, h: Hash)
    requires Inv(x, st) && GetReconstruction(x, st, caller, f, header).Ok?
    ensures f in st.fileIndex && MayRead(st, caller, f)
    ensures var answer := GetReconstruction(x, st, caller, f, header).value;
      && TrimTo(TermsOf(FileEntries(x, st, f)), header) == Ok((answer.offset, answer.terms))
      && (h in answer.fetch <==> Mentions(answer.terms, h))
      && (h in answer.fetch ==>
            && h in st.xorbs && AllWellFormed(x, FramesOf(x, st.xorbs[h].bytes))
            && FetchesExactly(x, FramesOf(x, st.xorbs[h].bytes), answer.terms, h, answer.fetch[h]))
  {
    AnsweredMayRead(x, st, caller, f, header);
    IndexedFileIsValid(x, st, f);
    ReaderFindsFile(x, st, caller, f, header);
    hide Inv, FileEntries, ReconstructionTerms, AllInStore, AllValid, TermsOf, PlanFetches, PerXorb, MayRead, TrimTo, FetchMap, OffsetsKnown,
      FramesOf, AllWellFormed, FetchesExactly, ChunkOffsets, XorbFetch, Mentions;
    var all := TermsOf(FileEntries(x, st, f));
    TrimToInStore(x, st.xorbs, all, header);
    var terms := TrimTo(all, header).value.1;
    AnswerIsComplete(x, st, terms);
    PlanIsFetchMap(x, st, terms);
    FetchMapMembers(x, st, terms, h);
    if Mentions(terms, h) {
      EntriesAreExact(x, st, terms, h);
      FetchesSomething(x, st, terms, h);
    }
  }

  lemma {:induction false} FetchesSomething(x: Xet, st: State, terms: seq<Term>, h: Hash)
    requires h in st.xorbs && AllWellFormed(x, FramesOf(x, st.xorbs[h].bytes)) && ChunkOffsets(x, st, h).Ok?
    requires FetchesExactly(x, FramesOf(x, st.xorbs[h].bytes), terms, h, XorbFetch(x, st, terms, h))
    ensures XorbFetch(x, st, terms, h) != []
  {
    hide FramesOf, AllWellFormed, ChunkOffsets, XorbFetch;
  }

  lemma {:induction false} AnsweredMayRead(x: Xet, st: State, caller: Caller, f: Hash, header: RangeHeader)
    requires GetReconstruction(x, st, caller, f, header).Ok?
    ensures f in st.fileIndex && MayRead(st, caller, f)
  {
    hide PlanFetches, TrimTo;
  }

  // Of several blocks about the file the first is served.
  lemma {:induction false} FirstBlockIsServed(x: Xet, st: State, caller: Caller, f: Hash)
    requires GetReconstruction(x, st, caller, f, Absent).Ok?
    ensures f in st.fileIndex && st.fileIndex[f] in st.shards && x.parseShard(st.shards[st.fileIndex[f]].bytes).Some?
    ensures var files := x.parseShard(st.shards[st.fileIndex[f]].bytes).value.files;
      exists i :: IsFirstAbout(files, f, i) && |files[i].entries| == |GetReconstruction(x, st, caller, f, Absent).value.terms|
        && forall k :: 0 <= k < |files[i].entries| ==>
             GetReconstruction(x, st, caller, f, Absent).value.terms[k] == files[i].entries[k].term
  {
    AnsweredMayRead(x, st, caller, f, Absent);
    hide PlanFetches, PerXorb;
    var i := FirstAboutIs(x.parseShard(st.shards[st.fileIndex[f]].bytes).value.files, f);
  }

  ghost predicate IsFirstAbout(files: seq<FileBlock>, f: Hash, i: int) {
    0 <= i < |files| && files[i].hash == f && forall j :: 0 <= j < i ==> files[j].hash != f
  }

  lemma {:induction false} FirstAboutIs(files: seq<FileBlock>, f: Hash) returns (i: nat)
    requires FirstAbout(files, f).Some?
    ensures IsFirstAbout(files, f, i) && FirstAbout(files, f) == Some(files[i])
  {
    if files[0].hash == f {
      i := 0;
    } else {
      var k := FirstAboutIs(files[1..], f);
      i := k + 1;
      forall j | 0 <= j < i ensures files[j].hash != f {
        assert j > 0 ==> files[1..][j - 1].hash != f;
      }
    }
  }

  // ---- a file that was stranded ----

  // When one of the xorbs of an indexed file is gone, with its layout, and the others are not, its
  // readers are told that it is missing.
  lemma {:induction false} MissingXorbAnswers(
    x: Xet, st: State, caller: Caller, f: Hash, header: RangeHeader, offset: nat, terms: seq<Term>, h: Hash)
    requires ReconstructionTerms(x, st, caller, f, header) == Ok((offset, terms)) && Mentions(terms, h)
    requires h !in st.layouts && h !in st.xorbs
    requires forall g :: Mentions(terms, g) && g != h ==> ChunkOffsets(x, st, g).Ok?
    ensures GetReconstruction(x, st, caller, f, header) == Err(ReadError.NotFound)
  {
    hide ReconstructionTerms, FirstSeen, RangesOf, MergedRanges;
    var pairs, seen := PerXorb(terms), FirstSeen(terms);
    assert ChunkOffsets(x, st, h) == Err(ReadError.NotFound);
    forall g | g in seen && g != h ensures ChunkOffsets(x, st, g).Ok? {
      FirstSeenMembers(terms, g);
    }
    FirstSeenMembers(terms, h);
    var k :| 0 <= k < |seen| && seen[k] == h;
    hide ChunkOffsets;
    assert forall i :: 0 <= i < |pairs| ==> pairs[i].0 == seen[i];
    OneMissing(x, st, pairs, h);
    assert pairs[k].0 == h;
  }

  lemma {:induction false} OneMissing(x: Xet, st: State, pairs: seq<(Hash, Ranges)>, h: Hash)
    requires ChunkOffsets(x, st, h) == Err(ReadError.NotFound)
    requires forall i :: 0 <= i < |pairs| && pairs[i].0 != h ==> ChunkOffsets(x, st, pairs[i].0).Ok?
    ensures if exists i :: 0 <= i < |pairs| && pairs[i].0 == h
      then PlanFetches(x, st, pairs) == Err(ReadError.NotFound)
      else PlanFetches(x, st, pairs).Ok?
  {
    hide ChunkOffsets, FetchInfos;
    if pairs != [] {
      OneMissing(x, st, pairs[..|pairs| - 1], h);
    }
  }

  predicate SpansTerm(info: FetchInfo, t: Term) {
    info.range.start <= t.start && t.end <= info.range.end
  }

  predicate SpanRefused(st: State, h: Hash, info: FetchInfo) {
    h !in st.xorbs || info.first > info.last || info.first >= |st.xorbs[h].bytes|
  }

  // What the client says of a term it cannot put together: nothing it was told to fetch covers it,
  // the span is refused, or the chunks in it do not decode.
  lemma {:induction false} ClientAnswers(x: Xet, st: State, answer: Answer, t: Term)
    requires t.xorb in answer.fetch && t.start <= t.end
    ensures var r, infos := FetchTerm(x, st, answer, t), answer.fetch[t.xorb];
      && (r == Err(NoFetchInfo) <==> forall i :: 0 <= i < |infos| ==> !SpansTerm(infos[i], t))
      && (r == Err(FetchFailed) ==> exists i :: 0 <= i < |infos| && SpansTerm(infos[i], t) && SpanRefused(st, t.xorb, infos[i]))
      && (t.xorb !in st.xorbs ==> r == Err(NoFetchInfo) || r == Err(FetchFailed))
      && (r.Err? ==> r.error in {NoFetchInfo, FetchFailed, DecodeFailed})
  {
    CoveringIs(answer.fetch[t.xorb], t);
    hide Decode, Clip, Covering, Join;
  }

  lemma {:induction false} CoveringIs(infos: seq<FetchInfo>, t: Term)
    ensures Covering(infos, t).None? <==> forall i :: 0 <= i < |infos| ==> !SpansTerm(infos[i], t)
    ensures Covering(infos, t).Some? ==>
      exists i :: 0 <= i < |infos| && infos[i] == Covering(infos, t).value && SpansTerm(infos[i], t)
  {
    if infos != [] {
      CoveringIs(infos[1..], t);
      assert forall i :: 0 < i < |infos| ==> infos[i] == infos[1..][i - 1];
    }
  }
}
