/**
 The validation loops of `register_shard` (crates/server/src/routes/shard.rs), over the
 metadata of stored xorbs, and what an accepted shard guarantees.
 */
module Validation {
  import opened Basics
  import opened XetCore
  import opened Frames
  import opened XorbMeta
  import opened Store
  import opened Invariants

  datatype RegisterError =
    | PayloadTooLarge
    | InvalidShard
    | FooterPresent
    | NoEntries(file: nat)
    | NoVerification(file: nat)
    | EmptyRange(file: nat, term: nat)
    | XorbNotFound(file: nat, term: nat)
    | RangeExceedsXorb(file: nat, term: nat)
    | VerificationMismatch(file: nat, term: nat)
    | TermLengthMismatch(file: nat, term: nat)
    | FileHashMismatch(file: nat)

  type MetaCache = map<Hash, XorbInfo>

  ghost predicate CacheSound(x: Xet, xorbs: map<Hash, Blob>, cache: MetaCache) {
    forall h :: h in cache ==> h in xorbs && cache[h] == InfoOf(x, FramesOf(x, xorbs[h].bytes))
  }

  // ---- one term ----

  // Differences of wrapped running totals are wrapped differences.
  lemma {:induction false} WrappedSpan(before: nat, span: nat)
    ensures Sub32(Wrap(before + span), Wrap(before)) == Wrap(span)
  {
    var q, r := before / U32, before % U32;
    var p, s := (before + span) / U32, (before + span) % U32;
    assert before == q * U32 + r && before + span == p * U32 + s;
    assert span == (p - q) * U32 + (s - r);
    ModuloShift(s - r, p - q, span);
  }

  lemma {:induction false} ModuloShift(a: int, k: int, b: int)
    requires b == k * U32 + a
    ensures Wrap(a) == Wrap(b)
  {
    var q, r := a / U32, a % U32;
    assert b == (k + q) * U32 + r;
  }

  // What the chunk loop of one term appends, and the byte count it compares.
  lemma {:induction false} TermTotals(x: Xet, fs: seq<Frame>, s: nat, e: nat)
    requires s <= e <= |fs|
    ensures Sub32(Wrap(Sum(Lens(Raws(fs))[..e])), Wrap(Sum(Lens(Raws(fs))[..s]))) == Wrap(UnpackedLen(fs[s..e]))
    ensures HashesOf(x, fs)[s..e] == HashesOf(x, fs[s..e])
  {
    hide Sum, Wrap, Sub32;
    var lens := Lens(Raws(fs));
    assert Lens(Raws(fs[s..e])) == lens[s..e];
    SumSlice(lens, s, e);
    WrappedSpan(Sum(lens[..s]), Sum(lens[s..e]));
  }

  method TermChunks(x: Xet, ghost fs: seq<Frame>, info: XorbInfo, s: nat, e: nat) returns (chunks: seq<Sized>, total: nat)
    requires AllWellFormed(x, fs) && info == InfoOf(x, fs) && s < e <= |fs|
    ensures chunks == SizedOf(x, fs[s..e]) && total == Wrap(UnpackedLen(fs[s..e]))
  {
    hide AllWellFormed, Sum, Wrap, Sub32, Ends, Raws, UnpackedLen;
    ghost var lens := Lens(Raws(fs));
    StartOffset(x, fs, s);
    var prevUnpacked := if s == 0 then 0 else info.unpackedOffsets[s - 1];
    var termStart := prevUnpacked;
    chunks := [];
    for k := s to e
      invariant chunks == SizedOf(x, fs[s..k]) && prevUnpacked == Wrap(Sum(lens[..k]))
    {
      ChunkStep(x, fs, s, k);
      var unpackedEnd := info.unpackedOffsets[k];
      chunks := chunks + [(info.chunkHashes[k], Sub32(unpackedEnd, prevUnpacked))];
      prevUnpacked := unpackedEnd;
    }
    TermTotals(x, fs, s, e);
    total := Sub32(prevUnpacked, termStart);
  }

  lemma {:induction false} StartOffset(x: Xet, fs: seq<Frame>, s: nat)
    requires s < |fs|
    ensures (if s == 0 then 0 else InfoOf(x, fs).unpackedOffsets[s - 1]) == Wrap(Sum(Lens(Raws(fs))[..s]))
    ensures fs[s..s] == []
  {
  }

  lemma {:induction false} ChunkStep(x: Xet, fs: seq<Frame>, s: nat, k: nat)
    requires AllWellFormed(x, fs) && s <= k < |fs|
    ensures var info, lens := InfoOf(x, fs), Lens(Raws(fs));
      && info.unpackedOffsets[k] == Wrap(Sum(lens[..k + 1]))
      && SizedOf(x, fs[s..k + 1]) ==
           SizedOf(x, fs[s..k]) + [(info.chunkHashes[k], Sub32(info.unpackedOffsets[k], Wrap(Sum(lens[..k]))))]
  {
    assert WellFormed(x, fs[k]);
    EndsDifference(Lens(Raws(fs)), k);
    assert fs[s..k + 1] == fs[s..k] + [fs[k]];
  }

  // ---- one file ----

  // The first thing wrong with a file, at the term it was found.
  ghost predicate TermDefect(x: Xet, xorbs: map<Hash, Blob>, e: Entry, error: RegisterError) {
    match error
    case EmptyRange(_, _) => e.term.end <= e.term.start
    case XorbNotFound(_, _) => e.term.xorb !in xorbs
    case RangeExceedsXorb(_, _) => e.term.xorb in xorbs && e.term.end > |FramesOf(x, xorbs[e.term.xorb].bytes)|
    case VerificationMismatch(_, _) =>
      TermInStore(x, xorbs, e.term) && x.rangeHash(HashesOf(x, TermFrames(x, xorbs, e.term))) != e.check
    case TermLengthMismatch(_, _) =>
      TermInStore(x, xorbs, e.term) && Wrap(UnpackedLen(TermFrames(x, xorbs, e.term))) != e.term.unpacked
    case _ => false
  }

  ghost predicate FileDefect(x: Xet, xorbs: map<Hash, Blob>, b: FileBlock, error: RegisterError) {
    match error
    case NoEntries(_) => b.entries == []
    case NoVerification(_) => !b.hasVerification
    case FileHashMismatch(_) => x.fileHash(FileChunks(x, xorbs, b.entries)) != b.hash
    case EmptyRange(_, t) => t < |b.entries| && TermDefect(x, xorbs, b.entries[t], error)
    case XorbNotFound(_, t) => t < |b.entries| && TermDefect(x, xorbs, b.entries[t], error)
    case RangeExceedsXorb(_, t) => t < |b.entries| && TermDefect(x, xorbs, b.entries[t], error)
    case VerificationMismatch(_, t) => t < |b.entries| && TermDefect(x, xorbs, b.entries[t], error)
    case TermLengthMismatch(_, t) => t < |b.entries| && TermDefect(x, xorbs, b.entries[t], error)
    case _ => false
  }

  // The answer for a term: the first check that fails, in the handler's order.
  function TermVerdict(x: Xet, xorbs: map<Hash, Blob>, e: Entry, file: nat, term: nat): Option<RegisterError> {
    if e.term.end <= e.term.start then Some(EmptyRange(file, term))
    else if e.term.xorb !in xorbs then Some(XorbNotFound(file, term))
    else if e.term.end > |FramesOf(x, xorbs[e.term.xorb].bytes)| then Some(RangeExceedsXorb(file, term))
    else if x.rangeHash(HashesOf(x, TermFrames(x, xorbs, e.term))) != e.check then Some(VerificationMismatch(file, term))
    else if Wrap(UnpackedLen(TermFrames(x, xorbs, e.term))) != e.term.unpacked then Some(TermLengthMismatch(file, term))
    else None
  }

  // The first answer among the terms from the k-th on.
  function TermsVerdict(x: Xet, xorbs: map<Hash, Blob>, entries: seq<Entry>, file: nat, k: nat): Option<RegisterError>
    decreases |entries| - k
  {
    if k >= |entries| then None
    else if TermVerdict(x, xorbs, entries[k], file, k).Some? then TermVerdict(x, xorbs, entries[k], file, k)
    else TermsVerdict(x, xorbs, entries, file, k + 1)
  }

  function FileVerdict(x: Xet, xorbs: map<Hash, Blob>, b: FileBlock, file: nat): Option<RegisterError> {
    if b.entries == [] then Some(NoEntries(file))
    else if !b.hasVerification then Some(NoVerification(file))
    else if TermsVerdict(x, xorbs, b.entries, file, 0).Some? then TermsVerdict(x, xorbs, b.entries, file, 0)
    else if x.fileHash(FileChunks(x, xorbs, b.entries)) != b.hash then Some(FileHashMismatch(file))
    else None
  }

  function FilesVerdict(x: Xet, xorbs: map<Hash, Blob>, files: seq<FileBlock>, i: nat): Option<RegisterError>
    decreases |files| - i
  {
    if i >= |files| then None
    else if FileVerdict(x, xorbs, files[i], i).Some? then FileVerdict(x, xorbs, files[i], i)
    else FilesVerdict(x, xorbs, files, i + 1)
  }

  function UploadVerdict(x: Xet, xorbs: map<Hash, Blob>, body: seq<Byte>): Option<RegisterError> {
    if |body| > MAX_SHARD_SIZE then Some(PayloadTooLarge)
    else match x.shardFooterSize(body)
      case None => Some(InvalidShard)
      case Some(size) =>
        if size != 0 then Some(FooterPresent)
        else if x.parseShard(body).None? then Some(InvalidShard)
        else FilesVerdict(x, xorbs, x.parseShard(body).value.files, 0)
  }

  method CachedInfo(x: Xet, xorbs: map<Hash, Blob>, cache: MetaCache, h: Hash) returns (info: XorbInfo, next: MetaCache)
    requires BlobsSound(x, xorbs) && CacheSound(x, xorbs, cache) && h in xorbs
    ensures info == InfoOf(x, FramesOf(x, xorbs[h].bytes)) && CacheSound(x, xorbs, next)
    ensures AllWellFormed(x, FramesOf(x, xorbs[h].bytes))
  {
    assert SoundBody(x, h, xorbs[h].bytes);
    if h in cache { return cache[h], cache; }
    var stored := XorbInfoFromStored(x, xorbs[h].bytes);
    info, next := stored.value, cache[h := stored.value];
  }

  // Which check decides about a term.
  lemma {:induction false} TermVerdicts(x: Xet, xorbs: map<Hash, Blob>, e: Entry, file: nat, term: nat)
    ensures e.term.end <= e.term.start ==>
      !ValidTerm(x, xorbs, e) && TermDefect(x, xorbs, e, EmptyRange(file, term))
    ensures e.term.xorb !in xorbs ==>
      !ValidTerm(x, xorbs, e) && TermDefect(x, xorbs, e, XorbNotFound(file, term))
    ensures e.term.xorb in xorbs && e.term.end > |FramesOf(x, xorbs[e.term.xorb].bytes)| ==>
      !ValidTerm(x, xorbs, e) && TermDefect(x, xorbs, e, RangeExceedsXorb(file, term))
    ensures TermInStore(x, xorbs, e.term) ==>
      var fs := TermFrames(x, xorbs, e.term);
      && (x.rangeHash(HashesOf(x, fs)) != e.check ==>
            !ValidTerm(x, xorbs, e) && TermDefect(x, xorbs, e, VerificationMismatch(file, term)))
      && (Wrap(UnpackedLen(fs)) != e.term.unpacked ==>
            !ValidTerm(x, xorbs, e) && TermDefect(x, xorbs, e, TermLengthMismatch(file, term)))
      && (x.rangeHash(HashesOf(x, fs)) == e.check && Wrap(UnpackedLen(fs)) == e.term.unpacked ==> ValidTerm(x, xorbs, e))
  {
    hide FramesOf, TermFrames, UnpackedLen, Wrap;
  }

  method ValidateTerm(x: Xet, xorbs: map<Hash, Blob>, cache: MetaCache, e: Entry, file: nat, term: nat)
    returns (r: Result<seq<Sized>, RegisterError>, next: MetaCache)
    requires BlobsSound(x, xorbs) && CacheSound(x, xorbs, cache)
    ensures CacheSound(x, xorbs, next)
    ensures r.Ok? <==> ValidTerm(x, xorbs, e)
    ensures r.Ok? ==> r.value == SizedOf(x, TermFrames(x, xorbs, e.term))
    ensures r.Err? ==> TermDefect(x, xorbs, e, r.error) && NamesTerm(r.error, file, term)
    ensures TermVerdict(x, xorbs, e, file, term) == if r.Ok? then None else Some(r.error)
  {
    hide BlobsSound, SoundBody, FramesOf, Ends, SizedOf, AllWellFormed, CacheSound, ValidTerm, TermDefect;
    next := cache;
    TermVerdicts(x, xorbs, e, file, term);
    var t := e.term;
    if t.end <= t.start { return Err(EmptyRange(file, term)), next; }
    if t.xorb !in xorbs { return Err(XorbNotFound(file, term)), next; }
    ghost var fs := FramesOf(x, xorbs[t.xorb].bytes);
    var info;
    info, next := CachedInfo(x, xorbs, cache, t.xorb);
    if t.end > info.numChunks { return Err(RangeExceedsXorb(file, term)), next; }
    TermTotals(x, fs, t.start, t.end);
    if x.rangeHash(info.chunkHashes[t.start..t.end]) != e.check { return Err(VerificationMismatch(file, term)), next; }
    var chunks, total := TermChunks(x, fs, info, t.start, t.end);
    if total != t.unpacked { return Err(TermLengthMismatch(file, term)), next; }
    return Ok(chunks), next;
  }

  predicate NamesTerm(error: RegisterError, f: nat, t: nat) {
    match error
    case EmptyRange(file, term) => file == f && term == t
    case XorbNotFound(file, term) => file == f && term == t
    case RangeExceedsXorb(file, term) => file == f && term == t
    case VerificationMismatch(file, term) => file == f && term == t
    case TermLengthMismatch(file, term) => file == f && term == t
    case _ => false
  }

  method ValidateFile(x: Xet, xorbs: map<Hash, Blob>, cache: MetaCache, b: FileBlock, file: nat)
    returns (r: Result<nat, RegisterError>, next: MetaCache)
    requires BlobsSound(x, xorbs) && CacheSound(x, xorbs, cache)
    ensures CacheSound(x, xorbs, next)
    ensures r.Ok? <==> ValidFile(x, xorbs, b)
    ensures r.Ok? ==> r.value == LogicalBytes(x, xorbs, b.entries)
    ensures r.Err? ==> FileDefect(x, xorbs, b, r.error)
    ensures FileVerdict(x, xorbs, b, file) == if r.Ok? then None else Some(r.error)
  {
    hide BlobsSound, CacheSound, ValidTerm, TermFrames, SizedOf, TermDefect, TermVerdict;
    next := cache;
    if b.entries == [] { return Err(NoEntries(file)), next; }
    if !b.hasVerification { return Err(NoVerification(file)), next; }
    var fileChunks: seq<Sized> := [];
    for i := 0 to |b.entries|
      invariant CacheSound(x, xorbs, next)
      invariant forall j :: 0 <= j < i ==> ValidTerm(x, xorbs, b.entries[j])
      invariant fileChunks == FileChunks(x, xorbs, b.entries[..i])
      invariant TermsVerdict(x, xorbs, b.entries, file, 0) == TermsVerdict(x, xorbs, b.entries, file, i)
    {
      var term;
      term, next := ValidateTerm(x, xorbs, next, b.entries[i], file, i);
      if term.Err? { return Err(term.error), next; }
      assert b.entries[..i + 1][..i] == b.entries[..i];
      fileChunks := fileChunks + term.value;
    }
    assert b.entries[..|b.entries|] == b.entries;
    if x.fileHash(fileChunks) != b.hash { return Err(FileHashMismatch(file)), next; }
    var logical := SumSizes(fileChunks);
    return Ok(logical), next;
  }

  method SumSizes(chunks: seq<Sized>) returns (total: nat)
    ensures total == Sum(SizesOf(chunks))
  {
    total := 0;
    for i := 0 to |chunks|
      invariant total == Sum(SizesOf(chunks)[..i])
    {
      SumStep(SizesOf(chunks), i);
      total := total + chunks[i].1;
    }
    assert SizesOf(chunks)[..|chunks|] == SizesOf(chunks);
  }

  // ---- the whole upload ----

  ghost predicate SomeFileDefect(x: Xet, xorbs: map<Hash, Blob>, files: seq<FileBlock>, error: RegisterError) {
    exists i :: 0 <= i < |files| && FileDefect(x, xorbs, files[i], error)
  }

  ghost predicate UploadDefect(x: Xet, xorbs: map<Hash, Blob>, body: seq<Byte>, error: RegisterError) {
    match error
    case PayloadTooLarge => |body| > MAX_SHARD_SIZE
    case FooterPresent => x.shardFooterSize(body).Some? && x.shardFooterSize(body) != Some(0)
    case InvalidShard => x.shardFooterSize(body).None? || x.parseShard(body).None?
    case _ =>
      x.parseShard(body).Some? && SomeFileDefect(x, xorbs, x.parseShard(body).value.files, error)
  }

  // Sizes of the files of a valid shard, for the ownership accounting.
  function FileSizes(x: Xet, xorbs: map<Hash, Blob>, files: seq<FileBlock>): (r: seq<(Hash, nat)>)
    ensures |r| == |files|
    ensures forall i :: 0 <= i < |files| ==> r[i] == (files[i].hash, LogicalBytes(x, xorbs, files[i].entries))
  {
    seq(|files|, i requires 0 <= i < |files| =>
      var size: nat := LogicalBytes(x, xorbs, files[i].entries); (files[i].hash, size))
  }

  method ValidateUpload(x: Xet, xorbs: map<Hash, Blob>, body: seq<Byte>)
    returns (r: Result<(Shard, seq<(Hash, nat)>), RegisterError>)
    requires BlobsSound(x, xorbs)
    ensures r.Ok? <==> ValidUpload(x, xorbs, body)
    ensures r.Ok? ==> r.value.0 == x.parseShard(body).value && r.value.1 == FileSizes(x, xorbs, r.value.0.files)
    ensures r.Err? ==> UploadDefect(x, xorbs, body, r.error)
    ensures UploadVerdict(x, xorbs, body) == if r.Ok? then None else Some(r.error)
  {
    hide BlobsSound, ValidFile, FileDefect, LogicalBytes, FileVerdict;
    if |body| > MAX_SHARD_SIZE { return Err(PayloadTooLarge); }
    var footer := x.shardFooterSize(body);
    if footer.None? { return Err(InvalidShard); }
    if footer.value != 0 { return Err(FooterPresent); }
    var parsed := x.parseShard(body);
    if parsed.None? { return Err(InvalidShard); }
    var shard := parsed.value;
    var cache: MetaCache := map[];
    var sizes: seq<(Hash, nat)> := [];
    for i := 0 to |shard.files|
      invariant CacheSound(x, xorbs, cache)
      invariant forall j :: 0 <= j < i ==> ValidFile(x, xorbs, shard.files[j])
      invariant sizes == FileSizes(x, xorbs, shard.files)[..i]
      invariant FilesVerdict(x, xorbs, shard.files, 0) == FilesVerdict(x, xorbs, shard.files, i)
    {
      hide CacheSound;
      var file;
      file, cache := ValidateFile(x, xorbs, cache, shard.files[i], i);
      if file.Err? {
        DefectIsReported(x, xorbs, body, i, file.error);
        return Err(file.error);
      }
      sizes := sizes + [(shard.files[i].hash, file.value)];
    }
    return Ok((shard, sizes));
  }

  lemma {:induction false} DefectIsReported(x: Xet, xorbs: map<Hash, Blob>, body: seq<Byte>, i: nat, error: RegisterError)
    requires x.parseShard(body).Some? && i < |x.parseShard(body).value.files|
    requires FileDefect(x, xorbs, x.parseShard(body).value.files[i], error)
    ensures UploadDefect(x, xorbs, body, error)
  {
  }

  // ---- what acceptance guarantees ----

  // Every file of an accepted shard: terms inside stored xorbs, declared lengths equal to the
  // chunk sizes up to u32 wrap-around, and the chunk list hashes to the declared id.
  lemma {:induction false} AcceptedFileIsSound(x: Xet, xorbs: map<Hash, Blob>, body: seq<Byte>, i: nat, k: nat)
    requires ValidUpload(x, xorbs, body) && i < |x.parseShard(body).value.files|
    requires k < |x.parseShard(body).value.files[i].entries|
    ensures var b := x.parseShard(body).value.files[i];
      var t, chunks := b.entries[k].term, SizedOf(x, TermFrames(x, xorbs, b.entries[k].term));
      && t.xorb in xorbs && t.start < t.end <= |FramesOf(x, xorbs[t.xorb].bytes)|
      && |chunks| == t.end - t.start
      && t.unpacked == Wrap(Sum(SizesOf(chunks)))
      && (Sum(SizesOf(chunks)) < U32 ==> t.unpacked == Sum(SizesOf(chunks)))
      && x.fileHash(FileChunks(x, xorbs, b.entries)) == b.hash
  {
    var b := x.parseShard(body).value.files[i];
    assert ValidFile(x, xorbs, b) && ValidTerm(x, xorbs, b.entries[k]);
    hide *;
    ValidTermIsSound(x, xorbs, b.entries[k]);
    ValidFileHashes(x, xorbs, b);
  }

  lemma {:induction false} ValidFileHashes(x: Xet, xorbs: map<Hash, Blob>, b: FileBlock)
    requires ValidFile(x, xorbs, b)
    ensures x.fileHash(FileChunks(x, xorbs, b.entries)) == b.hash
  {
  }

  lemma {:induction false} ValidTermIsSound(x: Xet, xorbs: map<Hash, Blob>, e: Entry)
    requires ValidTerm(x, xorbs, e)
    ensures var t, chunks := e.term, SizedOf(x, TermFrames(x, xorbs, e.term));
      && t.xorb in xorbs && t.start < t.end <= |FramesOf(x, xorbs[t.xorb].bytes)|
      && |chunks| == t.end - t.start
      && t.unpacked == Wrap(Sum(SizesOf(chunks)))
      && (Sum(SizesOf(chunks)) < U32 ==> t.unpacked == Sum(SizesOf(chunks)))
  {
    hide FramesOf, Sum;
    var fs := TermFrames(x, xorbs, e.term);
    assert SizesOf(SizedOf(x, fs)) == Lens(Raws(fs));
  }
}
