/** The hypotheses on the library are consistent: here is a library that meets all of them. */
module Examples {
  import opened Basics
  import opened XetCore
  import opened Frames
  import opened XorbMeta
  import opened Packing
  import opened Terms
  import opened UploadSessions
  import opened Store
  import opened Decoding
  import opened RoundTrip

  // ---- numbering everything ----

  function Pair(a: nat, b: nat): (n: nat)
    ensures n > 0
  {
    if a == 0 then 2 * b + 1 else 2 * Pair(a - 1, b)
  }

  lemma {:induction false} PairInjective(a: nat, b: nat, c: nat, d: nat)
    requires Pair(a, b) == Pair(c, d)
    ensures a == c && b == d
  {
    if a > 0 && c > 0 {
      PairInjective(a - 1, b, c - 1, d);
    }
  }

  function IntCode(i: int): nat {
    if i >= 0 then 2 * i else -2 * i - 1
  }

  ghost predicate Injective<T(!new)>(code: T -> nat) {
    forall a, b :: code(a) == code(b) ==> a == b
  }

  function SeqCode<T>(code: T -> nat, s: seq<T>): nat {
    if s == [] then 0 else Pair(SeqCode(code, s[..|s| - 1]), code(s[|s| - 1]))
  }

  lemma {:induction false} SeqCodeInjective<T(!new)>(code: T -> nat, s: seq<T>, t: seq<T>)
    requires Injective(code) && SeqCode(code, s) == SeqCode(code, t)
    ensures s == t
  {
    if s != [] && t != [] {
      var a, b := s[..|s| - 1], t[..|t| - 1];
      PairInjective(SeqCode(code, a), code(s[|s| - 1]), SeqCode(code, b), code(t[|t| - 1]));
      SeqCodeInjective(code, a, b);
      assert s == a + [s[|s| - 1]] && t == b + [t[|t| - 1]];
    }
  }

  function BytesCode(b: seq<Byte>): nat {
    SeqCode((n: Byte) => IntCode(n), b)
  }

  function HashesCode(s: seq<Hash>): nat {
    SeqCode((h: Hash) => IntCode(h), s)
  }

  function SizedCode(s: seq<Sized>): nat {
    SeqCode((e: Sized) => Pair(IntCode(e.0), e.1), s)
  }

  function EntryCode(e: Entry): nat {
    Pair(IntCode(e.check), Pair(IntCode(e.term.xorb), Pair(e.term.unpacked, Pair(e.term.start, e.term.end))))
  }

  function FileCode(f: FileBlock): nat {
    Pair(IntCode(f.hash), Pair(if f.hasVerification then 1 else 0, SeqCode(EntryCode, f.entries)))
  }

  function CasCode(c: CasBlock): nat {
    Pair(IntCode(c.xorb), HashesCode(c.chunks))
  }

  function ShardCode(s: Shard): nat {
    Pair(SeqCode(FileCode, s.files), SeqCode(CasCode, s.cas))
  }

  lemma {:induction false} BytesCodeInjective(a: seq<Byte>, b: seq<Byte>)
    requires BytesCode(a) == BytesCode(b)
    ensures a == b
  {
    SeqCodeInjective((n: Byte) => IntCode(n), a, b);
  }

  lemma {:induction false} HashesCodeInjective(a: seq<Hash>, b: seq<Hash>)
    requires HashesCode(a) == HashesCode(b)
    ensures a == b
  {
    SeqCodeInjective((h: Hash) => IntCode(h), a, b);
  }

  lemma {:induction false} SizedCodeInjective(a: seq<Sized>, b: seq<Sized>)
    requires SizedCode(a) == SizedCode(b)
    ensures a == b
  {
    var code := (e: Sized) => Pair(IntCode(e.0), e.1);
    forall p: Sized, q: Sized | code(p) == code(q) ensures p == q {
      PairInjective(IntCode(p.0), p.1, IntCode(q.0), q.1);
    }
    assert Injective(code);
    SeqCodeInjective(code, a, b);
  }

  lemma {:induction false} EntryCodeInjective(a: Entry, b: Entry)
    requires EntryCode(a) == EntryCode(b)
    ensures a == b
  {
    var s, t := a.term, b.term;
    PairInjective(IntCode(a.check), Pair(IntCode(s.xorb), Pair(s.unpacked, Pair(s.start, s.end))),
                  IntCode(b.check), Pair(IntCode(t.xorb), Pair(t.unpacked, Pair(t.start, t.end))));
    PairInjective(IntCode(s.xorb), Pair(s.unpacked, Pair(s.start, s.end)),
                  IntCode(t.xorb), Pair(t.unpacked, Pair(t.start, t.end)));
    PairInjective(s.unpacked, Pair(s.start, s.end), t.unpacked, Pair(t.start, t.end));
    PairInjective(s.start, s.end, t.start, t.end);
  }

  lemma {:induction false} FileCodeInjective(a: FileBlock, b: FileBlock)
    requires FileCode(a) == FileCode(b)
    ensures a == b
  {
    var p, q := if a.hasVerification then 1 else 0, if b.hasVerification then 1 else 0;
    PairInjective(IntCode(a.hash), Pair(p, SeqCode(EntryCode, a.entries)),
                  IntCode(b.hash), Pair(q, SeqCode(EntryCode, b.entries)));
    PairInjective(p, SeqCode(EntryCode, a.entries), q, SeqCode(EntryCode, b.entries));
    forall e: Entry, g: Entry | EntryCode(e) == EntryCode(g) ensures e == g {
      EntryCodeInjective(e, g);
    }
    SeqCodeInjective(EntryCode, a.entries, b.entries);
  }

  lemma {:induction false} ShardCodeInjective(a: Shard, b: Shard)
    requires ShardCode(a) == ShardCode(b)
    ensures a == b
  {
    PairInjective(SeqCode(FileCode, a.files), SeqCode(CasCode, a.cas), SeqCode(FileCode, b.files), SeqCode(CasCode, b.cas));
    forall f: FileBlock, g: FileBlock | FileCode(f) == FileCode(g) ensures f == g {
      FileCodeInjective(f, g);
    }
    SeqCodeInjective(FileCode, a.files, b.files);
    forall c: CasBlock, d: CasBlock | CasCode(c) == CasCode(d) ensures c == d {
      PairInjective(IntCode(c.xorb), HashesCode(c.chunks), IntCode(d.xorb), HashesCode(d.chunks));
      HashesCodeInjective(c.chunks, d.chunks);
    }
    SeqCodeInjective(CasCode, a.cas, b.cas);
  }

  // ---- a small file and a large one ----

  // One chunk holding one zero byte, alone in its xorb, and two shards with that file: one
  // without chunk rows and one with them.
  const BYTES: seq<Byte> := [0]
  const FRAME: Frame := Frame(0, 0, BYTES, BYTES)
  const SIZED: seq<Sized> := [(BytesCode(BYTES), 1)]
  const XORB: Hash := SizedCode(SIZED)
  const BLOCK: FileBlock :=
    FileBlock(SizedCode(SIZED), true, [Entry(Term(XORB, 1, 0, 1), HashesCode([BytesCode(BYTES)]))])
  const SHARD: Shard := Shard([BLOCK], [])
  const AGAIN: Shard := Shard([BLOCK], [CasBlock(XORB, [BytesCode(BYTES)])])

  // 512 chunks of eight MiB of zeros, each compressed to one byte: 4 GiB in a body of a few
  // KiB, and a shard with one term over all of it. The term's length does not fit a u32.
  ghost function Zeros(): seq<Byte> {
    seq(0x80_0000, _ => 0)
  }

  ghost function LongFrame(): Frame {
    Frame(0, 1, BYTES, Zeros())
  }

  ghost function LongFrames(): seq<Frame> {
    seq(512, _ => LongFrame())
  }

  ghost function LongSized(): seq<Sized> {
    seq(512, _ => (BytesCode(Zeros()), 0x80_0000))
  }

  ghost function LongBlock(): FileBlock {
    FileBlock(SizedCode(LongSized()), true,
              [Entry(Term(SizedCode(LongSized()), 0, 0, 512), HashesCode(seq(512, _ => BytesCode(Zeros()))))])
  }

  // ---- the library ----

  // Shards are printed in unary, except that the examples' own shards are one byte long.
  ghost function PrintShard(s: Shard): seq<Byte> {
    if s == SHARD then [0]
    else if s == AGAIN then [1]
    else if s == Shard([LongBlock()], []) then [2]
    else [3] + seq(ShardCode(s), _ => 0)
  }

  lemma {:induction false} PrintShardInjective(a: Shard, b: Shard)
    requires PrintShard(a) == PrintShard(b)
    ensures a == b
  {
    hide ShardCode, LongBlock;
    assert PrintShard(a)[0] == PrintShard(b)[0];
    if PrintShard(a)[0] == 3 {
      assert |PrintShard(a)| == 1 + ShardCode(a) && |PrintShard(b)| == 1 + ShardCode(b);
      ShardCodeInjective(a, b);
    }
  }

  ghost function ParseShard(b: seq<Byte>): Option<Shard> {
    if exists s :: PrintShard(s) == b then
      var s :| PrintShard(s) == b;
      Some(s)
    else None
  }

  ghost function DecodeAll(x: Xet, b: seq<Byte>): Option<(seq<Byte>, seq<nat>)> {
    match Walk(x, b, 0)
    case Err(_) => None
    case Ok(fs) => Some((Join(Raws(fs)), seq(|fs| + 1, i requires 0 <= i <= |fs| => Sum(Lens(Raws(fs))[..i]))))
  }

  // Hashes number their input, whatever was compressed unpacks to zeros, nothing is compressed
  // on the way in, and no body has a footer.
  ghost function Core(): Xet {
    Xet(
      (h: Header) => h.version == 0,
      (b: seq<Byte>) => Some(Zeros()),
      (b: seq<Byte>) => (0, b),
      (datas: seq<seq<Byte>>) => [],
      (b: seq<Byte>) => None,
      (b: seq<Byte>) => None,
      (body: seq<Byte>, h: Hash) => None,
      (b: seq<Byte>) => BytesCode(b),
      (s: seq<Sized>) => SizedCode(s),
      (s: seq<Sized>) => SizedCode(s),
      (s: seq<Hash>) => HashesCode(s),
      (h: Hash, key: Hash) => h,
      (h: Hash) => false,
      (b: seq<Byte>) => Some(0),
      (b: seq<Byte>) => ParseShard(b),
      (s: Shard) => PrintShard(s),
      64 * 1024 * 1024,
      8 * 1024)
  }

  ghost function Library(): Xet {
    Core().(deserializeChunks := (b: seq<Byte>) => DecodeAll(Core(), b))
  }

  lemma {:induction false} LibraryHashes()
    ensures DataHashInjective(Library()) && FileHashInjective(Library()) && XorbHashInjective(Library())
    ensures forall key :: HmacInjective(Library(), key)
  {
    var x := Library();
    forall a, b | x.dataHash(a) == x.dataHash(b) ensures a == b {
      BytesCodeInjective(a, b);
    }
    forall a, b | x.fileHash(a) == x.fileHash(b) ensures a == b {
      SizedCodeInjective(a, b);
    }
    forall a, b | x.xorbHash(a) == x.xorbHash(b) ensures a == b {
      SizedCodeInjective(a, b);
    }
  }

  lemma {:induction false} LibraryPrintsShards()
    ensures ShardsPrint(Library())
  {
    var x := Library();
    forall s ensures x.parseShard(x.printShard(s)) == Some(s) {
      assert PrintShard(s) == x.printShard(s);
      var t := ParseShard(PrintShard(s)).value;
      PrintShardInjective(s, t);
    }
  }

  lemma {:induction false} LibrarySeals()
    ensures SealsReadBack(Library()) && SealsFit(Library())
  {
    var x := Library();
    forall cs: seq<Chunk> | Serialisable(x, cs) ensures |SealedBytes(x, cs)| == Sum(ChunkLens(cs)) + HEADER * |cs| {
      PrintAllLength(x, PackedFrames(x, cs));
      FramesWeigh(x, cs);
    }
  }

  lemma {:induction false} FramesWeigh(x: Xet, cs: seq<Chunk>)
    requires x.pack == Library().pack
    ensures Sum(FrameLens(PackedFrames(x, cs))) == Sum(ChunkLens(cs)) + HEADER * |cs|
  {
    if cs != [] {
      var init := cs[..|cs| - 1];
      FramesWeigh(x, init);
      assert FrameLens(PackedFrames(x, cs))[..|init|] == FrameLens(PackedFrames(x, init));
      assert ChunkLens(cs)[..|init|] == ChunkLens(init);
    }
  }

  // Frames do not depend on the chunk decoder.
  lemma {:induction false} SameFrames(fs: seq<Frame>)
    requires AllWellFormed(Library(), fs)
    ensures AllWellFormed(Core(), fs) && PrintAll(Core(), fs) == PrintAll(Library(), fs)
  {
    hide PrintHeader, Zeros;
    forall i | 0 <= i < |fs| ensures WellFormed(Core(), fs[i]) {
      assert WellFormed(Library(), fs[i]);
    }
    if fs != [] {
      SameFrames(fs[1..]);
    }
  }

  lemma {:induction false} LibraryDecodes()
    ensures DecodesFrames(Library())
  {
    var x := Library();
    forall fs: seq<Frame> | AllWellFormed(x, fs)
      ensures x.deserializeChunks(PrintAll(x, fs)) ==
        Some((Join(Raws(fs)), seq(|fs| + 1, i requires 0 <= i <= |fs| => Sum(Lens(Raws(fs))[..i]))))
    {
      SameFrames(fs);
      WalkPrinted(Core(), fs, [], 0);
      assert PrintAll(x, fs) + [] == PrintAll(x, fs);
    }
  }

  lemma {:induction false} LibraryIsSimple()
    ensures FootersChecked(Library()) && OnlyVersionZero(Library()) && StandardLimits(Library())
    ensures Library().acceptsHeader(Header(0, 1, 0, 1)) && Library().pack(BYTES) == (0, BYTES)
    ensures forall b :: Library().dataHash(b) == BytesCode(b)
  {
    hide Zeros, DecodeAll, ParseShard, PrintShard, Walk;
  }

  lemma {:induction false} SmallFileIsGood()
    ensures GoodChunks(Library(), [Chunk(Library().dataHash(BYTES), BYTES)])
  {
    LibraryIsSimple();
    hide Library;
    var x, cs := Library(), [Chunk(Library().dataHash(BYTES), BYTES)];
    assert PackedFrames(x, cs) == [FRAME];
    assert WellFormed(x, FRAME);
  }

  // Every hypothesis of the project holds of it at once.
  lemma {:induction false} HypothesesAreConsistent()
    ensures WorkingLibrary(Library()) && DecodesFrames(Library())
    ensures forall key :: HmacInjective(Library(), key)
    ensures GoodChunks(Library(), [Chunk(Library().dataHash(BYTES), BYTES)])
  {
    LibraryHashes();
    LibraryPrintsShards();
    LibrarySeals();
    LibraryDecodes();
    LibraryIsSimple();
    SmallFileIsGood();
    hide *;
    CollectsWorking(Library());
  }

  lemma {:induction false} CollectsWorking(x: Xet)
    requires FootersChecked(x) && DataHashInjective(x) && FileHashInjective(x) && StandardLimits(x)
    requires OnlyVersionZero(x) && XorbHashInjective(x) && SealsReadBack(x) && SealsFit(x) && ShardsPrint(x)
    ensures WorkingLibrary(x)
  {
    hide FootersChecked, DataHashInjective, FileHashInjective, StandardLimits, OnlyVersionZero, XorbHashInjective, SealsReadBack,
      SealsFit, ShardsPrint;
  }
}
