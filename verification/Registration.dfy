/**
 What an accepted registration proves, what it changes, and why another is refused
 (crates/server/src/routes/shard.rs), said of the uploaded shard and the stored bytes themselves.
 */
module Registration {
  import opened Basics
  import opened XetCore
  import opened Frames
  import opened XorbMeta
  import opened Store
  import opened Invariants
  import opened Validation
  import opened Ownership
  import opened Access

  // ---- what acceptance proves ----

  // The hashes of chunks from..to of a stored body.
  function ChunkHashesOf(x: Xet, body: seq<Byte>, from: nat, to: nat): seq<Hash>
    requires from <= to <= |FramesOf(x, body)|
  {
    seq(to - from, i requires 0 <= i < to - from => x.dataHash(FramesOf(x, body)[from + i].raw))
  }

  // The term names chunks of a stored xorb, the uploader knew their hashes, and the declared
  // length is theirs, as a u32 holds it.
  predicate ProvesTerm(x: Xet, xorbs: map<Hash, Blob>, e: Entry) {
    var t := e.term;
    && t.xorb in xorbs
    && t.start < t.end && t.end <= |FramesOf(x, xorbs[t.xorb].bytes)|
    && e.check == x.rangeHash(ChunkHashesOf(x, xorbs[t.xorb].bytes, t.start, t.end))
    && t.unpacked == |Join(Raws(FramesOf(x, xorbs[t.xorb].bytes)[t.start..t.end]))| % 0x1_0000_0000
  }

  // A block that may be registered: terms, verification entries, and the hash of its chunk list.
  predicate ProvesFile(x: Xet, xorbs: map<Hash, Blob>, b: FileBlock) {
    && |b.entries| > 0 && b.hasVerification
    && (forall e :: e in b.entries ==> ProvesTerm(x, xorbs, e))
    && x.fileHash(FileChunks(x, xorbs, b.entries)) == b.hash
  }

  lemma {:induction false} ProvesTermIff(x: Xet, xorbs: map<Hash, Blob>, e: Entry)
    ensures ProvesTerm(x, xorbs, e) <==> ValidTerm(x, xorbs, e)
  {
    if TermInStore(x, xorbs, e.term) {
      var body := xorbs[e.term.xorb].bytes;
      var fs := FramesOf(x, body)[e.term.start..e.term.end];
      assert HashesOf(x, fs) == ChunkHashesOf(x, body, e.term.start, e.term.end);
      JoinLength(Raws(fs));
      hide FramesOf, Sum;
      assert TermFrames(x, xorbs, e.term) == fs;
    }
  }

  lemma {:induction false} ProvesFileIff(x: Xet, xorbs: map<Hash, Blob>, b: FileBlock)
    ensures ProvesFile(x, xorbs, b) <==> ValidFile(x, xorbs, b)
  {
    hide ProvesTerm, ValidTerm, FileChunks;
    forall e ensures ProvesTerm(x, xorbs, e) <==> ValidTerm(x, xorbs, e) {
      ProvesTermIff(x, xorbs, e);
    }
    if ProvesFile(x, xorbs, b) {
      forall i | 0 <= i < |b.entries| ensures ValidTerm(x, xorbs, b.entries[i]) {
        assert b.entries[i] in b.entries;
      }
    }
  }

  // An upload is accepted exactly if it is at most 64 MiB, has no footer, parses, and every block
  // of it proves possession of the chunks it names.
  lemma {:induction false} AcceptedIff(x: Xet, xorbs: map<Hash, Blob>, body: seq<Byte>)
    ensures ValidUpload(x, xorbs, body) <==>
      && |body| <= 67108864 && x.shardFooterSize(body) == Some(0) && x.parseShard(body).Some?
      && forall b :: b in x.parseShard(body).value.files ==> ProvesFile(x, xorbs, b)
  {
    hide ProvesFile, ValidFile;
    forall b ensures ProvesFile(x, xorbs, b) <==> ValidFile(x, xorbs, b) {
      ProvesFileIff(x, xorbs, b);
    }
    if x.parseShard(body).Some? {
      var files := x.parseShard(body).value.files;
      assert forall i :: 0 <= i < |files| ==> files[i] in files;
    }
  }

  // A shard with a block that lacks verification entries, or terms, changes nothing.
  lemma {:induction false} UnverifiedIsRefused(x: Xet, st: State, owner: Owner, body: seq<Byte>, now: int, b: FileBlock)
    requires x.parseShard(body).Some? && b in x.parseShard(body).value.files
    requires !b.hasVerification || b.entries == []
    ensures !ValidUpload(x, st.xorbs, body) && Register(x, st, owner, body, now) == st
  {
    AcceptedIff(x, st.xorbs, body);
    hide ValidUpload, ProvesTerm, FileChunks, ClaimFiles, IndexFiles, PutBatch;
    assert !ProvesFile(x, st.xorbs, b);
  }

  // ---- why an upload is refused ----

  lemma {:induction false} TermAnswers(x: Xet, xorbs: map<Hash, Blob>, e: Entry, f: nat, t: nat)
    ensures var v := TermVerdict(x, xorbs, e, f, t);
      && (v.None? <==> ProvesTerm(x, xorbs, e))
      && (v == Some(EmptyRange(f, t)) <==> e.term.end <= e.term.start)
      && (v == Some(XorbNotFound(f, t)) <==> e.term.start < e.term.end && e.term.xorb !in xorbs)
      && (v == Some(RangeExceedsXorb(f, t)) <==>
            e.term.start < e.term.end && e.term.xorb in xorbs && |FramesOf(x, xorbs[e.term.xorb].bytes)| < e.term.end)
      && (v == Some(VerificationMismatch(f, t)) <==>
            && e.term.start < e.term.end && e.term.xorb in xorbs && e.term.end <= |FramesOf(x, xorbs[e.term.xorb].bytes)|
            && x.rangeHash(ChunkHashesOf(x, xorbs[e.term.xorb].bytes, e.term.start, e.term.end)) != e.check)
      && (v == Some(TermLengthMismatch(f, t)) <==>
            && e.term.start < e.term.end && e.term.xorb in xorbs && e.term.end <= |FramesOf(x, xorbs[e.term.xorb].bytes)|
            && x.rangeHash(ChunkHashesOf(x, xorbs[e.term.xorb].bytes, e.term.start, e.term.end)) == e.check
            && !ProvesTerm(x, xorbs, e))
  {
    ProvesTermIff(x, xorbs, e);
    hide ProvesTerm;
    if TermInStore(x, xorbs, e.term) {
      var body := xorbs[e.term.xorb].bytes;
      var fs := FramesOf(x, body)[e.term.start..e.term.end];
      assert HashesOf(x, fs) == ChunkHashesOf(x, body, e.term.start, e.term.end);
    }
    hide FramesOf, ChunkHashesOf, UnpackedLen, Wrap;
  }

  // Term t is the first from the k-th on that proves nothing; block f, likewise.
  ghost predicate FirstBadTerm(x: Xet, xorbs: map<Hash, Blob>, entries: seq<Entry>, k: int, t: int) {
    && 0 <= k <= t < |entries| && !ProvesTerm(x, xorbs, entries[t])
    && forall i :: k <= i < t ==> ProvesTerm(x, xorbs, entries[i])
  }

  ghost predicate FirstBadFile(x: Xet, xorbs: map<Hash, Blob>, files: seq<FileBlock>, k: int, f: int) {
    && 0 <= k <= f < |files| && !ProvesFile(x, xorbs, files[f])
    && forall i :: k <= i < f ==> ProvesFile(x, xorbs, files[i])
  }

  lemma {:induction false} TermsAnswer(x: Xet, xorbs: map<Hash, Blob>, entries: seq<Entry>, f: nat, k: nat)
    requires k <= |entries|
    ensures var v := TermsVerdict(x, xorbs, entries, f, k);
      && (v.None? <==> forall i :: k <= i < |entries| ==> ProvesTerm(x, xorbs, entries[i]))
      && forall t :: FirstBadTerm(x, xorbs, entries, k, t) ==> v == TermVerdict(x, xorbs, entries[t], f, t)
    decreases |entries| - k
  {
    hide TermVerdict, ProvesTerm;
    if k < |entries| {
      TermAnswers(x, xorbs, entries[k], f, k);
      TermsAnswer(x, xorbs, entries, f, k + 1);
      forall t | FirstBadTerm(x, xorbs, entries, k, t) ensures t == k || FirstBadTerm(x, xorbs, entries, k + 1, t) {
      }
      hide FirstBadTerm;
    }
  }

  // The answer about a block: its first defect, in the handler's order.
  lemma {:induction false} FileAnswers(x: Xet, xorbs: map<Hash, Blob>, b: FileBlock, f: nat)
    ensures var v := FileVerdict(x, xorbs, b, f);
      && (v.None? <==> ProvesFile(x, xorbs, b))
      && (|b.entries| == 0 ==> v == Some(NoEntries(f)))
      && (|b.entries| > 0 && !b.hasVerification ==> v == Some(NoVerification(f)))
      && (|b.entries| > 0 && b.hasVerification ==>
            forall t :: FirstBadTerm(x, xorbs, b.entries, 0, t) ==> v == TermVerdict(x, xorbs, b.entries[t], f, t))
      && (|b.entries| > 0 && b.hasVerification && (forall e :: e in b.entries ==> ProvesTerm(x, xorbs, e)) ==>
            (v == Some(FileHashMismatch(f)) <==> x.fileHash(FileChunks(x, xorbs, b.entries)) != b.hash))
  {
    hide TermsVerdict, TermVerdict, ProvesTerm, FileChunks, FirstBadTerm;
    TermsAnswer(x, xorbs, b.entries, f, 0);
    forall t | FirstBadTerm(x, xorbs, b.entries, 0, t) ensures TermsVerdict(x, xorbs, b.entries, f, 0).Some? {
      BadTermHasVerdict(x, xorbs, b.entries, f, t);
    }
    AllProve(x, xorbs, b.entries);
  }

  lemma {:induction false} BadTermHasVerdict(x: Xet, xorbs: map<Hash, Blob>, entries: seq<Entry>, f: nat, t: int)
    requires FirstBadTerm(x, xorbs, entries, 0, t)
    ensures TermsVerdict(x, xorbs, entries, f, 0).Some?
  {
    hide TermVerdict, ProvesTerm, TermsVerdict;
    TermsAnswer(x, xorbs, entries, f, 0);
  }

  lemma {:induction false} AllProve(x: Xet, xorbs: map<Hash, Blob>, entries: seq<Entry>)
    ensures (forall i :: 0 <= i < |entries| ==> ProvesTerm(x, xorbs, entries[i])) <==>
      forall e :: e in entries ==> ProvesTerm(x, xorbs, e)
  {
    hide ProvesTerm;
    assert forall i :: 0 <= i < |entries| ==> entries[i] in entries;
  }

  lemma {:induction false} FilesAnswer(x: Xet, xorbs: map<Hash, Blob>, files: seq<FileBlock>, k: nat)
    requires k <= |files|
    ensures var v := FilesVerdict(x, xorbs, files, k);
      && (v.None? <==> forall i :: k <= i < |files| ==> ProvesFile(x, xorbs, files[i]))
      && forall f :: FirstBadFile(x, xorbs, files, k, f) ==> v == FileVerdict(x, xorbs, files[f], f)
    decreases |files| - k
  {
    hide FileVerdict, ProvesFile, FirstBadTerm, TermVerdict;
    if k < |files| {
      FileAnswers(x, xorbs, files[k], k);
      FilesAnswer(x, xorbs, files, k + 1);
      forall f | FirstBadFile(x, xorbs, files, k, f) ensures f == k || FirstBadFile(x, xorbs, files, k + 1, f) {
      }
      hide FirstBadFile;
    }
  }

  // The answer to an upload: size, footer and syntax first, then the first defect of the first
  // block that does not prove its file.
  lemma {:induction false} UploadAnswers(x: Xet, xorbs: map<Hash, Blob>, body: seq<Byte>)
    ensures var v := UploadVerdict(x, xorbs, body);
      && (v.None? <==> ValidUpload(x, xorbs, body))
      && (v == Some(PayloadTooLarge) <==> |body| > 67108864)
      && (v == Some(FooterPresent) <==>
            |body| <= 67108864 && x.shardFooterSize(body).Some? && x.shardFooterSize(body).value != 0)
      && (v == Some(InvalidShard) <==>
            && |body| <= 67108864
            && (x.shardFooterSize(body).None? || (x.shardFooterSize(body).value == 0 && x.parseShard(body).None?)))
      && (|body| <= 67108864 && x.shardFooterSize(body) == Some(0) && x.parseShard(body).Some? ==>
            var files := x.parseShard(body).value.files;
            forall f :: FirstBadFile(x, xorbs, files, 0, f) ==> v == FileVerdict(x, xorbs, files[f], f))
  {
    AcceptedIff(x, xorbs, body);
    hide FilesVerdict, FileVerdict, ProvesFile, ValidUpload, FirstBadFile;
    if x.parseShard(body).Some? {
      var files := x.parseShard(body).value.files;
      FilesAnswer(x, xorbs, files, 0);
      assert forall i :: 0 <= i < |files| ==> files[i] in files;
      FilesVerdictKind(x, xorbs, files, 0);
    }
  }

  lemma {:induction false} FilesVerdictKind(x: Xet, xorbs: map<Hash, Blob>, files: seq<FileBlock>, k: nat)
    ensures var v := FilesVerdict(x, xorbs, files, k);
      v.Some? ==> !v.value.PayloadTooLarge? && !v.value.FooterPresent? && !v.value.InvalidShard?
    decreases |files| - k
  {
    if k < |files| {
      TermsVerdictKind(x, xorbs, files[k].entries, k, 0);
      FilesVerdictKind(x, xorbs, files, k + 1);
    }
    hide TermsVerdict, FileChunks;
  }

  lemma {:induction false} TermsVerdictKind(x: Xet, xorbs: map<Hash, Blob>, entries: seq<Entry>, f: nat, k: nat)
    ensures var v := TermsVerdict(x, xorbs, entries, f, k);
      v.Some? ==> !v.value.PayloadTooLarge? && !v.value.FooterPresent? && !v.value.InvalidShard?
    decreases |entries| - k
  {
    hide FramesOf, TermFrames, UnpackedLen;
    if k < |entries| {
      TermsVerdictKind(x, xorbs, entries, f, k + 1);
    }
  }

  // ---- what an accepted registration changes ----

  // Some block of the shard is about f.
  predicate IsAbout(files: seq<FileBlock>, f: Hash) {
    exists b :: b in files && b.hash == f
  }

  // Some block of the shard's chunk lists has this chunk at this place.
  predicate ListsChunk(cas: seq<CasBlock>, r: Row) {
    exists c :: c in cas && c.xorb == r.xorb && r.index < |c.chunks| && c.chunks[r.index] == r.chunk
  }

  lemma {:induction false} CasRowsAre(cas: seq<CasBlock>, r: Row)
    ensures r in CasRows(cas) <==> ListsChunk(cas, r)
  {
    if cas != [] {
      var init, last := cas[..|cas| - 1], cas[|cas| - 1];
      CasRowsAre(init, r);
      assert cas == init + [last];
      var rows := XorbRows(last.xorb, last.chunks);
      if r in rows {
        var i :| 0 <= i < |rows| && rows[i] == r;
      }
      if last.xorb == r.xorb && r.index < |last.chunks| && last.chunks[r.index] == r.chunk {
        assert rows[r.index] == r;
      }
    }
  }

  lemma {:induction false} BatchExtends(rows: seq<Row>, entries: seq<Row>)
    ensures rows <= PutBatch(rows, entries)
    ensures forall r :: r in PutBatch(rows, entries) <==> r in rows || r in entries
  {
    if entries != [] {
      var init, last := entries[..|entries| - 1], entries[|entries| - 1];
      BatchExtends(rows, init);
      assert entries == init + [last];
    }
  }

  // Every table after an accepted registration, entry by entry: the shard is stored at this time
  // if it is new; the files it declares resolve to it; their claims by this owner have the file's
  // size and the time of the first; its chunk lists are located behind what was located before.
  lemma {:induction false} RegistrationChanges(x: Xet, st: State, owner: Owner, body: seq<Byte>, now: int)
    requires Trusted(x) && Inv(x, st) && ValidUpload(x, st.xorbs, body)
    ensures var next, sh, shard := Register(x, st, owner, body, now), x.dataHash(body), x.parseShard(body).value;
      && next.xorbs == st.xorbs && next.layouts == st.layouts
      && (forall s :: s in next.shards <==> s in st.shards || s == sh)
      && (forall s :: s in st.shards ==> next.shards[s] == st.shards[s])
      && (sh !in st.shards ==> next.shards[sh] == Blob(body, now))
      && (forall f :: f in next.fileIndex <==> f in st.fileIndex || IsAbout(shard.files, f))
      && (forall f :: f in next.fileIndex ==> next.fileIndex[f] == if IsAbout(shard.files, f) then sh else st.fileIndex[f])
      && st.rows <= next.rows
      && (forall r :: r in next.rows <==> r in st.rows || ListsChunk(shard.cas, r))
  {
    var files := x.parseShard(body).value.files;
    var next := Register(x, st, owner, body, now);
    BatchExtends(st.rows, CasRows(x.parseShard(body).value.cas));
    hide ValidFile, ClaimFiles, CasRows, PutBatch, ListsChunk, Inv;
    forall f ensures
      (f in next.fileIndex <==> f in st.fileIndex || IsAbout(files, f))
      && (f in next.fileIndex ==> next.fileIndex[f] == if IsAbout(files, f) then x.dataHash(body) else st.fileIndex[f])
    {
      IndexedFiles(st.fileIndex, files, x.dataHash(body), f);
      AboutIff(files, f);
    }
    hide IndexFiles, IsAbout;
    forall r ensures r in CasRows(x.parseShard(body).value.cas) <==> ListsChunk(x.parseShard(body).value.cas, r) {
      CasRowsAre(x.parseShard(body).value.cas, r);
    }
  }

  // The claims: those of this owner on the declared files, and nobody else's.
  lemma {:induction false} RegistrationClaims(x: Xet, st: State, owner: Owner, body: seq<Byte>, now: int, f: Hash, o: Owner)
    requires Trusted(x) && Inv(x, st) && ValidUpload(x, st.xorbs, body)
    ensures var next, mine := Register(x, st, owner, body, now), o == owner && IsAbout(x.parseShard(body).value.files, f);
      && ((f, o) in next.claims <==> (f, o) in st.claims || mine)
      && ((f, o) in st.claims && !mine ==> next.claims[(f, o)] == st.claims[(f, o)])
      && (mine ==> next.claims[(f, o)].createdAt == if (f, o) in st.claims then st.claims[(f, o)].createdAt else now)
      && (mine ==> forall b :: b in x.parseShard(body).value.files && b.hash == f ==>
            next.claims[(f, o)].logicalBytes == Sum(SizesOf(FileChunks(x, st.xorbs, b.entries))))
  {
    var files, next := x.parseShard(body).value.files, Register(x, st, owner, body, now);
    RegistersClaims(x, st, owner, body, now);
    hide Trusted, Inv, ValidUpload, Register, ClaimFiles, IsAbout, About, FileChunks;
    ClaimedFiles(x, st.xorbs, st.claims, files, owner, now, f, o);
    AboutIff(files, f);
    ClaimKept(x, st.xorbs, st.claims, files, owner, now, f, o);
    if (f, o) in next.claims {
      forall b | b in files && b.hash == f
        ensures next.claims[(f, o)].logicalBytes == Sum(SizesOf(FileChunks(x, st.xorbs, b.entries)))
      {
        ClaimHasSize(x, st, owner, body, now, f, o, b);
      }
    }
  }

  lemma {:induction false} RegistersClaims(x: Xet, st: State, owner: Owner, body: seq<Byte>, now: int)
    requires ValidUpload(x, st.xorbs, body)
    ensures x.parseShard(body).Some?
    ensures Register(x, st, owner, body, now).claims == ClaimFiles(x, st.xorbs, st.claims, x.parseShard(body).value.files, owner, now)
  {
    hide ValidFile, ClaimFiles, IndexFiles, PutBatch, CasRows;
  }

  lemma {:induction false} ClaimHasSize(
    x: Xet, st: State, owner: Owner, body: seq<Byte>, now: int, f: Hash, o: Owner, b: FileBlock)
    requires Trusted(x) && Inv(x, st) && ValidUpload(x, st.xorbs, body)
    requires b in x.parseShard(body).value.files && b.hash == f && (f, o) in Register(x, st, owner, body, now).claims
    ensures Register(x, st, owner, body, now).claims[(f, o)].logicalBytes == Sum(SizesOf(FileChunks(x, st.xorbs, b.entries)))
  {
    RegisterKeepsInv(x, st, owner, body, now);
    AcceptedIff(x, st.xorbs, body);
    var next := Register(x, st, owner, body, now);
    assert ClaimsSized(x, next.claims);
    hide Inv, Trusted, ValidUpload, Register, ProvesTerm, FileChunks;
    assert ProvesFile(x, st.xorbs, b);
    assert x.fileHash(FileChunks(x, st.xorbs, b.entries)) == (f, o).0;
  }

  lemma {:induction false} ClaimKept(
    x: Xet, xorbs: map<Hash, Blob>, claims: Claims, files: seq<FileBlock>, owner: Owner, now: int, f: Hash, o: Owner)
    ensures var next := ClaimFiles(x, xorbs, claims, files, owner, now);
      && ((f, o) in claims && !(o == owner && About(files, f)) ==> (f, o) in next && next[(f, o)] == claims[(f, o)])
      && ((f, o) in next ==> next[(f, o)].createdAt == if (f, o) in claims then claims[(f, o)].createdAt else now)
  {
    hide LogicalBytes, About;
    if files != [] {
      ClaimKept(x, xorbs, claims, files[..|files| - 1], owner, now, f, o);
      ClaimedFiles(x, xorbs, claims, files[..|files| - 1], owner, now, f, o);
      AboutSnoc(files, f);
    }
  }

  // ---- every run ----

  // In every state a run from the empty store reaches, each indexed file's blocks carry
  // verification entries and prove the file on what is stored.
  lemma {:induction false} IndexedFilesAreProven(x: Xet, events: seq<Event>, f: Hash)
    requires Trusted(x) && f in Run(x, EMPTY, events).fileIndex
    ensures var st := Run(x, EMPTY, events);
      && st.fileIndex[f] in st.shards && x.parseShard(st.shards[st.fileIndex[f]].bytes).Some?
      && var files := x.parseShard(st.shards[st.fileIndex[f]].bytes).value.files;
         && IsAbout(files, f)
         && forall b :: b in files && b.hash == f ==> |b.entries| > 0 && b.hasVerification && ProvesFile(x, st.xorbs, b)
  {
    EveryRunIsSafe(x, events);
    hide Run, Trusted, Inv, IsAbout, ProvesTerm, FileChunks;
    SoundFileIsProven(x, Run(x, EMPTY, events), f);
  }

  lemma {:induction false} SoundFileIsFound(x: Xet, st: State, f: Hash)
    requires Inv(x, st) && f in st.fileIndex
    ensures st.fileIndex[f] in st.shards && x.parseShard(st.shards[st.fileIndex[f]].bytes).Some?
    ensures FileIn(x, st.xorbs, x.parseShard(st.shards[st.fileIndex[f]].bytes).value.files, f)
  {
    hide FileIn, BlobsSound, LayoutsMatch, RowsDistinct, ClaimsMatch, ClaimsSized;
    assert FileSound(x, st, f);
    assert ShardsSound(x, st.shards);
  }

  lemma {:induction false} SoundFileIsProven(x: Xet, st: State, f: Hash)
    requires Inv(x, st) && f in st.fileIndex
    ensures st.fileIndex[f] in st.shards && x.parseShard(st.shards[st.fileIndex[f]].bytes).Some?
    ensures var files := x.parseShard(st.shards[st.fileIndex[f]].bytes).value.files;
      IsAbout(files, f) && forall b :: b in files && b.hash == f ==> ProvesFile(x, st.xorbs, b)
  {
    hide Inv, ValidFile, ProvesFile;
    SoundFileIsFound(x, st, f);
    var files := x.parseShard(st.shards[st.fileIndex[f]].bytes).value.files;
    AboutIff(files, f);
    forall b | b in files && b.hash == f ensures ProvesFile(x, st.xorbs, b) {
      var i :| 0 <= i < |files| && files[i] == b;
      ProvesFileIff(x, st.xorbs, b);
    }
  }
}
