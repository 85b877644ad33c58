/** Literal runs from the empty store that show what the code does not protect against. */
module ExampleRuns {
  import opened Basics
  import opened XetCore
  import opened Frames
  import opened XorbMeta
  import opened RangeReads
  import opened Packing
  import opened UploadSessions
  import opened Store
  import opened Invariants
  import opened Interleaving
  import opened Completion
  import opened Reconstruction
  import opened RoundTrip
  import opened InFlight
  import opened Examples

  // ---- the small file ----

  const CHUNKS: seq<Chunk> := [Chunk(BytesCode(BYTES), BYTES)]

  ghost function Body(): seq<Byte> {
    SealIsWritten();
    SealedBytes(Library(), CHUNKS)
  }

  lemma {:induction false} SealIsWritten()
    ensures Serialisable(Library(), CHUNKS) && Hashed(Library(), CHUNKS)
    ensures PackedFrames(Library(), CHUNKS) == [FRAME] && SizedChunks(CHUNKS) == SIZED
  {
    hide Zeros;
  }

  lemma {:induction false} BodyIsAcceptable()
    ensures Acceptable(Library(), XORB, Body())
    ensures FramesOf(Library(), Body()) == [FRAME]
  {
    HypothesesAreConsistent();
    SealIsWritten();
    hide Library;
    LibraryHasXorbHash();
    SealIsAcceptable(Library(), CHUNKS);
    SealedWalks(Library(), CHUNKS);
  }

  lemma {:induction false} LibraryHasXorbHash()
    ensures Library().xorbHash(SIZED) == XORB && Library().maxXorbBytes == 64 * 1024 * 1024
    ensures ChunksSmall(Library(), CHUNKS) && Library().maxXorbChunks > 0
  {
    hide Zeros;
  }

  lemma {:induction false} LibraryIsTrusted()
    ensures Trusted(Library()) && DataHashInjective(Library()) && ShardsPrint(Library())
    ensures forall s :: Library().printShard(s) == PrintShard(s)
    ensures forall b :: Library().dataHash(b) == BytesCode(b)
  {
    HypothesesAreConsistent();
    hide Zeros;
  }

  lemma {:induction false} BlockIsValid(xorbs: map<Hash, Blob>)
    requires XORB in xorbs && FramesOf(Library(), xorbs[XORB].bytes) == [FRAME]
    ensures ValidFile(Library(), xorbs, BLOCK)
  {
    hide FramesOf, ParseShard, Zeros;
    var x, e := Library(), BLOCK.entries[0];
    assert FramesOf(x, xorbs[XORB].bytes)[0..1] == [FRAME];
    assert TermFrames(x, xorbs, e.term) == [FRAME];
    assert HashesOf(x, [FRAME]) == [BytesCode(BYTES)] && SizedOf(x, [FRAME]) == SIZED;
    assert Lens(Raws([FRAME])) == [1] && Sum([1]) == 1;
    OneTermFile(x, xorbs, BLOCK, [FRAME]);
  }

  lemma {:induction false} PrintedIsSmall(s: Shard)
    requires s == SHARD || s == AGAIN || s == Shard([LongBlock()], [])
    ensures |PrintShard(s)| == 1
  {
    hide LongBlock;
  }

  // Both shards are accepted wherever the xorb is stored.
  lemma {:induction false} ShardIsAccepted(xorbs: map<Hash, Blob>, s: Shard)
    requires XORB in xorbs && xorbs[XORB].bytes == Body() && (s == SHARD || s == AGAIN)
    ensures ValidUpload(Library(), xorbs, PrintShard(s)) && Declares(Library(), PrintShard(s), BLOCK.hash)
    ensures Library().parseShard(PrintShard(s)) == Some(s)
    ensures DeclaredUses(Library(), PrintShard(s), BLOCK.hash, XORB)
  {
    LibraryIsTrusted();
    BodyIsAcceptable();
    PrintedIsSmall(s);
    BlockIsValid(xorbs);
    hide Library, Body, PrintShard, ValidFile, FramesOf;
    assert Library().parseShard(Library().printShard(s)) == Some(s);
    OneBlockUpload(Library(), xorbs, PrintShard(s), BLOCK);
    assert s.files[0].hash == BLOCK.hash && s.files[0].entries[0].term.xorb == XORB;
  }

  // ---- building a run ----

  // These moves lead from the empty store to this world.
  ghost predicate Reaches(moves: seq<Move>, w: World) {
    Possible(Library(), START, moves) && Play(Library(), START, moves) == w && Safe(Library(), w)
    && w.pending == map[]
  }

  lemma {:induction false} Extend(moves: seq<Move>, w: World, m: Move)
    requires Reaches(moves, w) && Enabled(Library(), w, m) && Harmless(w, m) && !m.Validate?
    ensures Reaches(moves + [m], Next(Library(), w, m))
  {
    LibraryIsTrusted();
    NoneBegun(Library(), w, m);
    hide Enabled, Next, Safe, Harmless, Library, Possible, Play;
    MoveKeeps(Library(), w, m);
    PlayLast(Library(), w, m);
    PlayBoth(Library(), START, moves, [m]);
  }

  lemma {:induction false} NoneBegun(x: Xet, w: World, m: Move)
    requires w.pending == map[] && Enabled(x, w, m) && !m.Validate?
    ensures AllPendingAvoid(x, w) && Next(x, w, m).pending == map[]
  {
    NewPending(x, w, m);
    hide Enabled, Next;
    assert forall r :: r !in Next(x, w, m).pending;
  }

  // Single steps of a pass, and the worlds they lead to.
  lemma {:induction false} BeginPass(moves: seq<Move>, w: World, p: Id) returns (z: World)
    requires Reaches(moves, w) && p !in w.passes
    ensures Reaches(moves + [Mark(p, 100, 1)], z)
    ensures z == w.(passes := w.passes[p :=
      Sweep(w.st.fileIndex, LiveShards(w.st), LiveShards(w.st), {}, 100, 1, Marking, map[], None, map[])])
  {
    hide Library, Reaches, LiveShards;
    Extend(moves, w, Mark(p, 100, 1));
    z := Next(Library(), w, Mark(p, 100, 1));
  }

  lemma {:induction false} ReadOne(moves: seq<Move>, w: World, p: Id, t: Hash) returns (z: World)
    requires Reaches(moves, w) && p in w.passes && w.passes[p].phase == Marking && t in w.passes[p].unread
    requires !CorruptShard(Library(), w.st, t)
    ensures Reaches(moves + [ReadShard(p, t)], z)
    ensures z == w.(passes := w.passes[p := w.passes[p].(unread := w.passes[p].unread - {t},
      reachable := w.passes[p].reachable + BlockXorbs(w.passes[p].index, ShardFiles(Library(), w.st.shards, t), t))])
  {
    hide Library, Reaches, BlockXorbs, ShardFiles, CorruptShard;
    Extend(moves, w, ReadShard(p, t));
    z := Next(Library(), w, ReadShard(p, t));
  }

  lemma {:induction false} ListItsXorbs(moves: seq<Move>, w: World, p: Id) returns (z: World)
    requires Reaches(moves, w) && p in w.passes && w.passes[p].phase == Marking && w.passes[p].unread == {}
    ensures Reaches(moves + [ListXorbs(p)], z)
    ensures z == w.(passes := w.passes[p := w.passes[p].(phase := SweepingXorbs, listedXorbs := Listing(w.st.xorbs))])
  {
    hide Library, Reaches, Listing;
    Extend(moves, w, ListXorbs(p));
    z := Next(Library(), w, ListXorbs(p));
  }

  lemma {:induction false} ListItsShards(moves: seq<Move>, w: World, p: Id) returns (z: World)
    requires Reaches(moves, w) && p in w.passes && w.passes[p].phase == SweepingXorbs && w.passes[p].purged == None
    requires XorbsDone(w.passes[p])
    ensures Reaches(moves + [ListShards(p)], z)
    ensures z == w.(passes := w.passes[p := w.passes[p].(phase := SweepingShards, listedShards := Listing(w.st.shards))])
  {
    hide Library, Reaches, Listing, XorbsDone;
    Extend(moves, w, ListShards(p));
    z := Next(Library(), w, ListShards(p));
  }

  // A whole registration of what no pass dooms.
  lemma {:induction false} ExtendRegister(moves: seq<Move>, w: World, body: seq<Byte>, at: int)
    requires Reaches(moves, w) && ValidUpload(Library(), w.st.xorbs, body)
    requires forall f, h :: DeclaredUses(Library(), body, f, h) ==> !XorbDoomed(Library(), w, h)
    requires !ShardDoomed(AfterRegister(Library(), w, "owner", body, at), Library().dataHash(body))
    ensures Reaches(moves + Registering(0, "owner", body, at), AfterRegister(Library(), w, "owner", body, at))
  {
    LibraryIsTrusted();
    hide Enabled, Next, Safe, Library, Possible, Play, Register, ValidUpload, Registering, ShardsPrint, Trusted, DataHashInjective,
      XorbDoomed, ShardDoomed, DeclaredUses;
    assert AllPendingAvoid(Library(), w);
    hide AllPendingAvoid;
    RegistrationStaysSafe(Library(), w, 0, "owner", body, at);
    PlayBoth(Library(), START, moves, Registering(0, "owner", body, at));
  }

  lemma {:induction false} NothingDoomed(x: Xet, w: World, body: seq<Byte>, at: int)
    requires w.passes == map[]
    ensures forall h :: !XorbDoomed(x, w, h) && !ShardDoomed(AfterRegister(x, w, "owner", body, at), h)
  {
    hide Register;
  }

  lemma {:induction false} StartReached()
    ensures Reaches([], START)
  {
    StartIsSafe(Library());
    hide Safe, Library;
  }

  // ---- after the upload ----

  ghost function Uploading(): seq<Move> {
    [StoreBlob(XORB, Body(), 0), WriteRows(XORB), WriteLayout(XORB)]
  }

  ghost predicate Stored(w: World) {
    && w.st.xorbs == map[XORB := Blob(Body(), 0)] && w.st.shards == map[] && w.st.fileIndex == map[]
    && w.uploads == map[] && w.passes == map[]
  }

  lemma {:induction false} UploadReaches() returns (w: World)
    ensures Reaches(Uploading(), w) && Stored(w)
  {
    hide Body, Library, Reaches, BodyLayout, PutBatch, XorbRows, HashesOf, FramesOf;
    var x := Library();
    StartReached();
    BodyIsAcceptable();
    BodyIsNew();
    Extend([], START, StoreBlob(XORB, Body(), 0));
    var w1 := Next(x, START, StoreBlob(XORB, Body(), 0));
    assert [] + [StoreBlob(XORB, Body(), 0)] == [StoreBlob(XORB, Body(), 0)];
    Extend([StoreBlob(XORB, Body(), 0)], w1, WriteRows(XORB));
    var w2 := Next(x, w1, WriteRows(XORB));
    assert [StoreBlob(XORB, Body(), 0)] + [WriteRows(XORB)] == [StoreBlob(XORB, Body(), 0), WriteRows(XORB)];
    Extend([StoreBlob(XORB, Body(), 0), WriteRows(XORB)], w2, WriteLayout(XORB));
    w := Next(x, w2, WriteLayout(XORB));
    assert [StoreBlob(XORB, Body(), 0), WriteRows(XORB)] + [WriteLayout(XORB)] == Uploading();
    assert w1.uploads == map[XORB := Interleaving.Upload(Body(), RowsDue)];
    assert w2.uploads == map[XORB := Interleaving.Upload(Body(), LayoutDue)];
    assert w.uploads == map[];
  }

  lemma {:induction false} BodyIsNew()
    ensures AcceptsXorb(Library(), EMPTY, XORB, Body())
  {
    hide Library, Body;
    BodyIsAcceptable();
  }

  // ---- a xorb deleted under a registration ----

  ghost function Listed(): seq<Move> {
    Uploading() + [Mark(1, 100, 1)] + [ListXorbs(1)] + [PurgeIndex(1, XORB)]
  }

  lemma {:induction false} NothingLive(x: Xet, st: State)
    requires st.fileIndex == map[]
    ensures LiveShards(st) == {} && Reachable(x, st) == {}
  {
    assert LiveShards(st) == {};
  }

  lemma {:induction false} PurgeReaches() returns (w: World)
    ensures Reaches(Listed(), w)
    ensures w.st.xorbs == map[XORB := Blob(Body(), 0)] && Enabled(Library(), w, DeleteBlob(1, XORB))
  {
    hide Body, Library, Reaches, Uploading, DropAllRows;
    var x := Library();
    var w0 := UploadReaches();
    NothingLive(x, w0.st);
    hide Reachable, LiveShards;
    var w1 := BeginPass(Uploading(), w0, 1);
    var w2 := ListItsXorbs(Uploading() + [Mark(1, 100, 1)], w1, 1);
    assert Listing(w1.st.xorbs) == map[XORB := 0];
    Extend(Uploading() + [Mark(1, 100, 1)] + [ListXorbs(1)], w2, PurgeIndex(1, XORB));
    w := Next(x, w2, PurgeIndex(1, XORB));
  }

  // Upload, mark, list, purge; then register, which is accepted, and delete: the file is
  // indexed and has lost its xorb. It is lost too if the deletion comes between the validation
  // and the index writes.
  lemma {:induction false} StrandingHappens() returns (w: World)
    ensures Reaches(Listed(), w)
    ensures Strands(Library(), w, Registering(0, "owner", PrintShard(SHARD), 100) + [DeleteBlob(1, XORB)], BLOCK.hash)
    ensures Strands(Library(), w,
              [Validate(0, "owner", PrintShard(SHARD), 100), DeleteBlob(1, XORB), StoreShard(0), IndexShard(0)], BLOCK.hash)
  {
    w := PurgeReaches();
    LibraryIsTrusted();
    ShardIsAccepted(w.st.xorbs, SHARD);
    ReachedIsSafe(Listed(), w);
    hide *;
    AcceptedThenStranded(Library(), w, 0, "owner", PrintShard(SHARD), 100, BLOCK.hash, 1, XORB);
    ValidatedThenLost(Library(), w, 0, "owner", PrintShard(SHARD), 100, BLOCK.hash, 1, XORB);
  }

  lemma {:induction false} ReachedIsSafe(moves: seq<Move>, w: World)
    requires Reaches(moves, w)
    ensures Safe(Library(), w) && 0 !in w.pending
  {
    hide Safe, Library, Possible, Play;
  }

  // ---- a xorb stored anew under an old list ----

  ghost predicate ListedBy(w: World, p: Id) {
    && p in w.passes && w.passes[p].phase == SweepingXorbs && w.passes[p].purged == None
    && w.passes[p].reachable == {} && w.passes[p].unread == {} && w.passes[p].listedXorbs == map[XORB := 0]
  }

  ghost predicate AllAtHundred(w: World) {
    forall p :: p in w.passes ==> w.passes[p].now == 100 && w.passes[p].grace == 1
  }

  ghost predicate OnlyStored(w: World, at: int) {
    w.st.xorbs == map[XORB := Blob(Body(), at)] && w.st.fileIndex == map[]
  }

  lemma {:induction false} ListAgain(moves: seq<Move>, w: World, p: Id) returns (z: World)
    requires Reaches(moves, w) && OnlyStored(w, 0) && p !in w.passes && AllAtHundred(w)
    ensures Reaches(moves + [Mark(p, 100, 1)] + [ListXorbs(p)], z) && OnlyStored(z, 0) && ListedBy(z, p) && AllAtHundred(z)
    ensures z.uploads == w.uploads && z.passes.Keys == w.passes.Keys + {p} && forall q :: q in w.passes ==> z.passes[q] == w.passes[q]
  {
    hide Body, Library, Reaches;
    NothingLive(Library(), w.st);
    hide Reachable, LiveShards;
    var a := BeginPass(moves, w, p);
    z := ListItsXorbs(moves + [Mark(p, 100, 1)], a, p);
    assert Listing(a.st.xorbs) == map[XORB := 0];
  }

  ghost function BothListed(): seq<Move> {
    Uploading() + [Mark(1, 100, 1)] + [ListXorbs(1)] + [Mark(2, 100, 1)] + [ListXorbs(2)]
  }

  lemma {:induction false} BothHaveListed() returns (w: World)
    ensures Reaches(BothListed(), w) && OnlyStored(w, 0) && ListedBy(w, 1) && ListedBy(w, 2) && AllAtHundred(w) && w.uploads == map[]
  {
    hide Body, Library, Reaches, Uploading;
    var a := UploadReaches();
    var b := ListAgain(Uploading(), a, 1);
    w := ListAgain(Uploading() + [Mark(1, 100, 1)] + [ListXorbs(1)], b, 2);
  }

  lemma {:induction false} SweepByList(moves: seq<Move>, w: World, p: Id) returns (z: World)
    requires Reaches(moves, w) && OnlyStored(w, 0) && ListedBy(w, p) && AllAtHundred(w)
    ensures Reaches(moves + [PurgeIndex(p, XORB)] + [DeleteBlob(p, XORB)], z)
    ensures z.st.xorbs == map[] && z.st.fileIndex == map[] && z.uploads == w.uploads && AllAtHundred(z)
    ensures forall q :: q in w.passes && q != p ==> q in z.passes && z.passes[q] == w.passes[q]
  {
    hide Body, Library, Reaches, DropAllRows, BlockXorbs, ShardFiles, LiveShards;
    var x := Library();
    Extend(moves, w, PurgeIndex(p, XORB));
    var a := Next(x, w, PurgeIndex(p, XORB));
    Extend(moves + [PurgeIndex(p, XORB)], a, DeleteBlob(p, XORB));
    z := Next(x, a, DeleteBlob(p, XORB));
    assert z.st.xorbs == map[];
  }

  ghost function OneDeleted(): seq<Move> {
    BothListed() + [PurgeIndex(1, XORB)] + [DeleteBlob(1, XORB)]
  }

  lemma {:induction false} FirstDeletes() returns (w: World)
    ensures Reaches(OneDeleted(), w) && w.st.xorbs == map[] && w.st.fileIndex == map[] && w.uploads == map[]
    ensures ListedBy(w, 2) && AllAtHundred(w)
  {
    hide Body, Library, Reaches, BothListed;
    var a := BothHaveListed();
    w := SweepByList(BothListed(), a, 1);
  }

  ghost function StoredAnew(): seq<Move> {
    OneDeleted() + [StoreBlob(XORB, Body(), 100)] + [WriteRows(XORB)] + [WriteLayout(XORB)]
  }

  lemma {:induction false} StoredAgain() returns (w: World)
    ensures Reaches(StoredAnew(), w) && OnlyStored(w, 100) && ListedBy(w, 2) && AllAtHundred(w)
  {
    hide Body, Library, Reaches, OneDeleted, PutBatch, BodyLayout, XorbRows, HashesOf, FramesOf;
    var x := Library();
    var a := FirstDeletes();
    AgainAcceptable(a.st);
    Extend(OneDeleted(), a, StoreBlob(XORB, Body(), 100));
    var b := Next(x, a, StoreBlob(XORB, Body(), 100));
    Extend(OneDeleted() + [StoreBlob(XORB, Body(), 100)], b, WriteRows(XORB));
    var c := Next(x, b, WriteRows(XORB));
    Extend(OneDeleted() + [StoreBlob(XORB, Body(), 100)] + [WriteRows(XORB)], c, WriteLayout(XORB));
    w := Next(x, c, WriteLayout(XORB));
    assert w.uploads == map[];
  }

  lemma {:induction false} AgainAcceptable(st: State)
    requires st.xorbs == map[]
    ensures AcceptsXorb(Library(), st, XORB, Body())
  {
    BodyIsAcceptable();
    hide Library, Body;
  }

  // Two passes list the old xorb and the first deletes it; it is uploaded anew at 100, as young
  // as can be for a pass at 100, and registered; the second pass still deletes it.
  lemma {:induction false} OverlapLosesYoungXorb() returns (w: World)
    ensures Reaches(StoredAnew(), w)
    ensures forall p :: p in w.passes ==> XorbSpared(Library(), w.st, w.passes[p], XORB)
    ensures Strands(Library(), w,
              Registering(0, "owner", PrintShard(SHARD), 100) + [PurgeIndex(2, XORB), DeleteBlob(2, XORB)], BLOCK.hash)
  {
    w := StoredAgain();
    StillCondemned(w);
    YoungToAll(w);
    LibraryIsTrusted();
    ReachedIsSafe(StoredAnew(), w);
    ShardIsAccepted(w.st.xorbs, SHARD);
    hide *;
    StaleListStrands(Library(), w, 0, "owner", PrintShard(SHARD), 100, BLOCK.hash, 2, XORB);
  }

  lemma {:induction false} StillCondemned(w: World)
    requires ListedBy(w, 2) && AllAtHundred(w)
    ensures Enabled(Library(), w, PurgeIndex(2, XORB))
  {
    hide Library;
  }

  lemma {:induction false} YoungToAll(w: World)
    requires OnlyStored(w, 100) && AllAtHundred(w)
    ensures XORB in w.st.xorbs && w.st.xorbs[XORB].bytes == Body()
    ensures forall p :: p in w.passes ==> XorbSpared(Library(), w.st, w.passes[p], XORB)
  {
    hide Body;
  }

  // ---- a layout left behind ----

  ghost function Early(): seq<Move> {
    [StoreBlob(XORB, Body(), 0)] + [Mark(1, 100, 1)] + [ListXorbs(1)] + [PurgeIndex(1, XORB)] + [DeleteBlob(1, XORB)]
  }

  // A pass deletes an old xorb before its upload has written rows and layout: the layout then
  // describes a xorb that is not stored.
  lemma {:induction false} LayoutLeftBehind() returns (w: World)
    ensures Reaches(Early() + [WriteRows(XORB)] + [WriteLayout(XORB)], w)
    ensures XORB !in w.st.xorbs && XORB in w.st.layouts
  {
    hide Body, Library, Reaches, Early, PutBatch, BodyLayout, XorbRows, HashesOf, FramesOf;
    var x := Library();
    var a := DeletedEarly();
    Extend(Early(), a, WriteRows(XORB));
    var b := Next(x, a, WriteRows(XORB));
    Extend(Early() + [WriteRows(XORB)], b, WriteLayout(XORB));
    w := Next(x, b, WriteLayout(XORB));
  }

  lemma {:induction false} DeletedEarly() returns (w: World)
    ensures Reaches(Early(), w) && w.st.xorbs == map[]
    ensures w.uploads == map[XORB := Interleaving.Upload(Body(), RowsDue)]
  {
    hide Body, Library, Reaches;
    var x := Library();
    StartReached();
    BodyIsNew();
    Extend([], START, StoreBlob(XORB, Body(), 0));
    assert [] + [StoreBlob(XORB, Body(), 0)] == [StoreBlob(XORB, Body(), 0)];
    var a := Next(x, START, StoreBlob(XORB, Body(), 0));
    var b := ListAgain([StoreBlob(XORB, Body(), 0)], a, 1);
    w := SweepByList([StoreBlob(XORB, Body(), 0)] + [Mark(1, 100, 1)] + [ListXorbs(1)], b, 1);
  }

  // ---- a shard deleted under a registration ----

  // The file is registered through one shard, then through another; the first is stale.
  lemma {:induction false} RegisterOne(x: Xet, st: State, owner: Owner, body: seq<Byte>, at: int, s: Shard)
    requires ValidUpload(x, st.xorbs, body) && x.parseShard(body) == Some(s) && s.files == [BLOCK]
    ensures var next := Register(x, st, owner, body, at);
      && next.xorbs == st.xorbs && next.shards == PutAbsent(st.shards, x.dataHash(body), body, at)
      && next.fileIndex == st.fileIndex[BLOCK.hash := x.dataHash(body)]
  {
    hide ValidUpload, ClaimFiles, PutBatch;
    assert [BLOCK][..0] == [];
    assert IndexFiles(st.fileIndex, [], x.dataHash(body)) == st.fileIndex;
  }

  lemma {:induction false} ShardsDiffer()
    ensures Library().dataHash(PrintShard(SHARD)) != Library().dataHash(PrintShard(AGAIN))
  {
    LibraryIsTrusted();
    hide Library, LongBlock;
    assert SHARD.cas != AGAIN.cas;
    assert PrintShard(SHARD)[0] != PrintShard(AGAIN)[0];
  }

  lemma {:induction false} OneFileLive(x: Xet, st: State, body: seq<Byte>, s: Shard)
    requires st.fileIndex == map[BLOCK.hash := x.dataHash(body)] && x.dataHash(body) in st.shards
    requires st.shards[x.dataHash(body)].bytes == body && x.parseShard(body) == Some(s) && s.files == [BLOCK]
    ensures LiveShards(st) == {x.dataHash(body)} && XORB in Reachable(x, st)
    ensures XORB in BlockXorbs(st.fileIndex, ShardFiles(x, st.shards, x.dataHash(body)), x.dataHash(body))
  {
    assert ShardFiles(x, st.shards, st.fileIndex[BLOCK.hash]) == [BLOCK];
    MarkReaches(x, st, BLOCK.hash, 0, 0);
    OneBlockMarks(st.fileIndex, x.dataHash(body));
    hide Reachable;
    assert BLOCK.hash in st.fileIndex;
  }

  lemma {:induction false} OneBlockMarks(index: map<Hash, Hash>, s: Hash)
    requires index == map[BLOCK.hash := s]
    ensures XORB in BlockXorbs(index, [BLOCK], s)
  {
    assert BLOCK in [BLOCK] && BLOCK.entries[0] in BLOCK.entries;
  }

  ghost function TwoRegistrations(): seq<Move> {
    Uploading() + Registering(0, "owner", PrintShard(SHARD), 0) + Registering(0, "owner", PrintShard(AGAIN), 0)
  }

  ghost predicate BothStored(w: World) {
    var s1, s2 := Library().dataHash(PrintShard(SHARD)), Library().dataHash(PrintShard(AGAIN));
    && w.st.xorbs == map[XORB := Blob(Body(), 0)]
    && w.st.shards == map[s1 := Blob(PrintShard(SHARD), 0), s2 := Blob(PrintShard(AGAIN), 0)]
    && w.st.fileIndex == map[BLOCK.hash := s2]
    && w.uploads == map[] && w.passes == map[]
  }

  lemma {:induction false} BothReached() returns (w: World)
    ensures Reaches(TwoRegistrations(), w) && BothStored(w)
  {
    hide Body, Library, Reaches, Uploading, PrintShard, Register, ValidUpload, Registering;
    var x := Library();
    var a := UploadReaches();
    ShardIsAccepted(a.st.xorbs, SHARD);
    RegisterOne(x, a.st, "owner", PrintShard(SHARD), 0, SHARD);
    NothingDoomed(x, a, PrintShard(SHARD), 0);
    hide XorbDoomed, ShardDoomed;
    ExtendRegister(Uploading(), a, PrintShard(SHARD), 0);
    var b := AfterRegister(x, a, "owner", PrintShard(SHARD), 0);
    ShardIsAccepted(b.st.xorbs, AGAIN);
    RegisterOne(x, b.st, "owner", PrintShard(AGAIN), 0, AGAIN);
    NothingDoomed(x, b, PrintShard(AGAIN), 0);
    ExtendRegister(Uploading() + Registering(0, "owner", PrintShard(SHARD), 0), b, PrintShard(AGAIN), 0);
    w := AfterRegister(x, b, "owner", PrintShard(AGAIN), 0);
    ShardsDiffer();
  }

  // Marking finds the second shard and, through it, the xorb.
  ghost predicate MarkedBoth(w: World) {
    var s1, s2 := Library().dataHash(PrintShard(SHARD)), Library().dataHash(PrintShard(AGAIN));
    && w.st.xorbs == map[XORB := Blob(Body(), 0)]
    && w.st.shards == map[s1 := Blob(PrintShard(SHARD), 0), s2 := Blob(PrintShard(AGAIN), 0)]
    && w.uploads == map[] && 1 in w.passes
    && w.passes[1].live == {s2} && w.passes[1].unread == {} && XORB in w.passes[1].reachable
    && w.passes[1].now == 100 && w.passes[1].grace == 1
    && w.passes[1].phase == Marking && w.passes[1].purged == None
  }

  // A pass that begins where the file resolves to the second shard has that one to read.
  lemma {:induction false} ReadOnlyShard(moves: seq<Move>, w: World, p: Id, at: int) returns (z: World)
    requires Reaches(moves, w) && p !in w.passes
    requires var s2 := Library().dataHash(PrintShard(AGAIN));
      w.st.fileIndex == map[BLOCK.hash := s2] && s2 in w.st.shards && w.st.shards[s2] == Blob(PrintShard(AGAIN), at)
    ensures var s2 := Library().dataHash(PrintShard(AGAIN));
      && Reaches(moves + [Mark(p, 100, 1)] + [ReadShard(p, s2)], z)
      && z.st == w.st && z.uploads == w.uploads && z.passes.Keys == w.passes.Keys + {p}
      && z.passes[p].live == {s2} && z.passes[p].unread == {} && XORB in z.passes[p].reachable
      && z.passes[p].now == 100 && z.passes[p].grace == 1
      && z.passes[p].phase == Marking && z.passes[p].purged == None
      && forall q :: q in w.passes ==> z.passes[q] == w.passes[q]
  {
    var x, s2 := Library(), Library().dataHash(PrintShard(AGAIN));
    AgainParses();
    hide Library, Reaches, PrintShard, BlockXorbs;
    OneFileLive(x, w.st, PrintShard(AGAIN), AGAIN);
    hide Reachable, LiveShards;
    var a := BeginPass(moves, w, p);
    z := ReadOne(moves + [Mark(p, 100, 1)], a, p, s2);
    assert z.passes[p].unread == {s2} - {s2} == {};
  }

  lemma {:induction false} AgainParses()
    ensures Library().parseShard(PrintShard(AGAIN)) == Some(AGAIN)
    ensures Library().parseShard(PrintShard(SHARD)) == Some(SHARD)
  {
    LibraryIsTrusted();
    hide Library, PrintShard, LongBlock;
    assert Library().parseShard(Library().printShard(AGAIN)) == Some(AGAIN);
    assert Library().parseShard(Library().printShard(SHARD)) == Some(SHARD);
  }

  ghost function BothRead(): seq<Move> {
    TwoRegistrations() + [Mark(1, 100, 1)] + [ReadShard(1, Library().dataHash(PrintShard(AGAIN)))]
  }

  lemma {:induction false} BothMarked() returns (w: World)
    ensures Reaches(BothRead(), w) && MarkedBoth(w)
  {
    hide Body, Library, Reaches, TwoRegistrations, PrintShard;
    var a := BothReached();
    ShardsDiffer();
    w := ReadOnlyShard(TwoRegistrations(), a, 1, 0);
  }

  lemma {:induction false} NothingToSweep(s: Sweep)
    requires s.listedXorbs == map[XORB := 0] && XORB in s.reachable
    ensures XorbsDone(s)
  {
  }

  lemma {:induction false} OldShardCondemned(x: Xet, w: World, p: Id, t: Hash)
    requires p in w.passes && w.passes[p].phase == SweepingShards && w.passes[p].now == 100 && w.passes[p].grace == 1
    requires t in w.passes[p].listedShards && w.passes[p].listedShards[t] == 0 && t !in w.passes[p].live
    ensures Enabled(x, w, DeleteShard(p, t))
  {
  }

  ghost function StaleListed(): seq<Move> {
    BothRead() + [ListXorbs(1)] + [ListShards(1)]
  }

  lemma {:induction false} StaleReaches() returns (w: World)
    ensures Reaches(StaleListed(), w)
    ensures w.st.xorbs == map[XORB := Blob(Body(), 0)]
    ensures Enabled(Library(), w, DeleteShard(1, Library().dataHash(PrintShard(SHARD))))
    ensures 1 in w.passes && XORB in w.passes[1].reachable
  {
    hide Body, Library, Reaches, PrintShard, BothRead, Enabled, XorbsDone;
    var a := BothMarked();
    ShardsDiffer();
    var b := ListItsXorbs(BothRead(), a, 1);
    assert Listing(a.st.xorbs) == map[XORB := 0];
    NothingToSweep(b.passes[1]);
    w := ListItsShards(BothRead() + [ListXorbs(1)], b, 1);
    OldShardCondemned(Library(), w, 1, Library().dataHash(PrintShard(SHARD)));
  }

  // Register through two shards, mark, list; then register through the first shard again,
  // which is accepted, and delete it: every xorb is there, and the file has lost its shard.
  lemma {:induction false} ShardLossHappens() returns (w: World)
    ensures Reaches(StaleListed(), w) && 1 in w.passes && XORB in w.passes[1].reachable
    ensures Strands(Library(), w,
              Registering(0, "owner", PrintShard(SHARD), 100) + [DeleteShard(1, Library().dataHash(PrintShard(SHARD)))], BLOCK.hash)
  {
    w := StaleReaches();
    LibraryIsTrusted();
    ShardIsAccepted(w.st.xorbs, SHARD);
    ReachedIsSafe(StaleListed(), w);
    hide *;
    AcceptedThenShardLost(Library(), w, 0, "owner", PrintShard(SHARD), 100, BLOCK.hash, 1);
  }

  // ---- a file lost although it is indexed all along ----

  ghost function FirstBegun(): seq<Move> {
    Uploading() + Registering(0, "owner", PrintShard(SHARD), 0) + [Mark(1, 100, 1)]
  }

  // The first pass has begun and has the first shard to read.
  ghost predicate FirstUnread(w: World) {
    var s1 := Library().dataHash(PrintShard(SHARD));
    && w.st.xorbs == map[XORB := Blob(Body(), 0)] && w.st.shards == map[s1 := Blob(PrintShard(SHARD), 0)]
    && w.st.fileIndex == map[BLOCK.hash := s1] && w.passes.Keys == {1} && OldPass(w.passes[1], s1)
  }

  ghost predicate OldPass(s: Sweep, s1: Hash) {
    && s.phase == Marking && s.index == map[BLOCK.hash := s1] && s.live == {s1} && s.unread == {s1} && s.reachable == {}
    && s.now == 100 && s.grace == 1
  }

  lemma {:induction false} FirstBegins() returns (w: World)
    ensures Reaches(FirstBegun(), w) && FirstUnread(w)
  {
    hide Body, Library, Reaches, Uploading, PrintShard, Register, ValidUpload, Registering, Declares, DeclaredUses;
    var x := Library();
    var a := UploadReaches();
    ShardIsAccepted(a.st.xorbs, SHARD);
    RegisterOne(x, a.st, "owner", PrintShard(SHARD), 0, SHARD);
    NothingDoomed(x, a, PrintShard(SHARD), 0);
    hide XorbDoomed, ShardDoomed;
    ExtendRegister(Uploading(), a, PrintShard(SHARD), 0);
    var b := AfterRegister(x, a, "owner", PrintShard(SHARD), 0);
    OneFileLive(x, b.st, PrintShard(SHARD), SHARD);
    hide LiveShards, Reachable;
    w := BeginPass(Uploading() + Registering(0, "owner", PrintShard(SHARD), 0), b, 1);
  }

  // The xorb is spared by the first pass, which will mark it when it reads the first shard.
  lemma {:induction false} StillToMark(w: World, a: World)
    requires FirstUnread(w) && a == AfterRegister(Library(), w, "owner", PrintShard(AGAIN), 100)
    requires a.st.shards == PutAbsent(w.st.shards, Library().dataHash(PrintShard(AGAIN)), PrintShard(AGAIN), 100)
    ensures !XorbDoomed(Library(), w, XORB) && !ShardDoomed(a, Library().dataHash(PrintShard(AGAIN)))
  {
    ShardsDiffer();
    AgainParses();
    hide Library, Body, PrintShard, Register, BlockXorbs;
    var x, s1 := Library(), Library().dataHash(PrintShard(SHARD));
    OneBlockMarks(w.st.fileIndex, s1);
    ToMarkHas(x, w.st.shards, w.passes[1], XORB);
    hide ToMark;
  }

  lemma {:induction false} OnlyXorbUsed(f: Hash, h: Hash)
    requires DeclaredUses(Library(), PrintShard(AGAIN), f, h)
    ensures h == XORB
  {
    AgainParses();
    hide Library, PrintShard;
  }

  ghost function Again(): seq<Move> {
    FirstBegun() + Registering(0, "owner", PrintShard(AGAIN), 100)
  }

  ghost predicate RegisteredAgain(w: World) {
    var s1, s2 := Library().dataHash(PrintShard(SHARD)), Library().dataHash(PrintShard(AGAIN));
    && w.st.xorbs == map[XORB := Blob(Body(), 0)]
    && w.st.shards == map[s1 := Blob(PrintShard(SHARD), 0), s2 := Blob(PrintShard(AGAIN), 100)]
    && w.st.fileIndex == map[BLOCK.hash := s2] && w.passes.Keys == {1} && OldPass(w.passes[1], s1)
  }

  lemma {:induction false} RegistersAgain() returns (w: World)
    ensures Reaches(Again(), w) && RegisteredAgain(w)
  {
    hide Body, Library, Reaches, FirstBegun, PrintShard, Register, ValidUpload, Registering, Declares, DeclaredUses, OldPass;
    var x := Library();
    var a := FirstBegins();
    w := AfterRegister(x, a, "owner", PrintShard(AGAIN), 100);
    ShardIsAccepted(a.st.xorbs, AGAIN);
    RegisterOne(x, a.st, "owner", PrintShard(AGAIN), 100, AGAIN);
    ShardsDiffer();
    StillToMark(a, w);
    hide XorbDoomed, ShardDoomed;
    forall f, h | DeclaredUses(x, PrintShard(AGAIN), f, h) ensures !XorbDoomed(x, a, h) {
      OnlyXorbUsed(f, h);
    }
    ExtendRegister(FirstBegun(), a, PrintShard(AGAIN), 100);
  }

  ghost function SecondRead(): seq<Move> {
    Again() + [Mark(2, 100, 1)] + [ReadShard(2, Library().dataHash(PrintShard(AGAIN)))]
  }

  // Both shards are stored, the file resolves to the second, and the first pass is where it was.
  ghost predicate SecondUnderWay(w: World, s1: Hash, s2: Hash) {
    && w.st.xorbs == map[XORB := Blob(Body(), 0)]
    && w.st.shards == map[s1 := Blob(PrintShard(SHARD), 0), s2 := Blob(PrintShard(AGAIN), 100)]
    && w.st.fileIndex == map[BLOCK.hash := s2] && w.passes.Keys == {1, 2} && OldPass(w.passes[1], s1)
    && w.passes[2].live == {s2} && XORB in w.passes[2].reachable && w.passes[2].now == 100 && w.passes[2].grace == 1
    && w.passes[2].purged == None
  }

  lemma {:induction false} SecondReads() returns (w: World)
    ensures Reaches(SecondRead(), w)
    ensures SecondUnderWay(w, Library().dataHash(PrintShard(SHARD)), Library().dataHash(PrintShard(AGAIN)))
    ensures w.passes[2].phase == Marking && w.passes[2].unread == {}
  {
    hide Body, Library, Reaches, Again, PrintShard, OldPass;
    var a := RegistersAgain();
    ShardsDiffer();
    w := ReadOnlyShard(Again(), a, 2, 100);
  }

  ghost function SecondListed(): seq<Move> {
    SecondRead() + [ListXorbs(2)] + [ListShards(2)]
  }

  lemma {:induction false} SecondLists() returns (w: World)
    ensures Reaches(SecondListed(), w)
    ensures SecondUnderWay(w, Library().dataHash(PrintShard(SHARD)), Library().dataHash(PrintShard(AGAIN)))
    ensures Enabled(Library(), w, DeleteShard(2, Library().dataHash(PrintShard(SHARD))))
  {
    hide Body, Library, Reaches, SecondRead, PrintShard, OldPass, Enabled, XorbsDone;
    var a := SecondReads();
    ShardsDiffer();
    var b := ListItsXorbs(SecondRead(), a, 2);
    assert Listing(a.st.xorbs) == map[XORB := 0];
    NothingToSweep(b.passes[2]);
    w := ListItsShards(SecondRead() + [ListXorbs(2)], b, 2);
    OldShardCondemned(Library(), w, 2, Library().dataHash(PrintShard(SHARD)));
  }

  // The file is registered, a pass begins, the file is registered again through a new shard, and
  // a second pass marks by that one. From then on the file is lost if the second pass deletes the
  // old shard before the first has read it, though it was indexed all the time.
  lemma {:induction false} IndexedFileLost() returns (w: World)
    ensures Reaches(SecondListed(), w) && w.pending == map[] && BLOCK.hash in w.st.fileIndex
    ensures var s1 := Library().dataHash(PrintShard(SHARD));
      Strands(Library(), w, [DeleteShard(2, s1), ReadShard(1, s1), ListXorbs(1), PurgeIndex(1, XORB), DeleteBlob(1, XORB)], BLOCK.hash)
  {
    w := SecondLists();
    LibraryIsTrusted();
    AgainParses();
    ReachedIsSafe(SecondListed(), w);
    var x, s1, s2 := Library(), Library().dataHash(PrintShard(SHARD)), Library().dataHash(PrintShard(AGAIN));
    BlockUsesXorb(x, w.st, s2);
    hide Library, Body, PrintShard, Reaches, SecondListed, Safe, Trusted, Enabled, Uses, ShardFiles, Strands;
    StaleMarkStrands(x, w, 1, 2, s1, BLOCK.hash, XORB);
  }

  lemma {:induction false} BlockUsesXorb(x: Xet, st: State, s: Hash)
    requires s in st.shards && x.parseShard(st.shards[s].bytes) == Some(AGAIN)
    ensures Uses(ShardFiles(x, st.shards, s), BLOCK.hash, XORB)
  {
    var files := ShardFiles(x, st.shards, s);
    assert files == AGAIN.files;
    hide ShardFiles;
    assert 0 < |files| && files[0].hash == BLOCK.hash && 0 < |files[0].entries| && files[0].entries[0].term.xorb == XORB;
  }

  // ---- a re-posted xorb collected while its upload is in flight ----

  ghost function Reposting(): seq<Store.Event> {
    [UploadXorb(XORB, Body(), 0), UploadXorb(XORB, Body(), 100), CollectGarbage(100, 50)]
  }

  // The second post is as young as can be when the collection runs, and still the xorb is gone
  // when the registration comes.
  lemma {:induction false} RepostingLoses()
    ensures InGrace(100, 50, 100)
    ensures XORB !in Run(Library(), EMPTY, Reposting()).xorbs
    ensures !ValidUpload(Library(), Run(Library(), EMPTY, Reposting()).xorbs, PrintShard(SHARD))
  {
    LibraryIsTrusted();
    BodyIsNew();
    hide Body, Library, PrintShard, AcceptsXorb, Run, ValidUpload, Trusted;
    RepostRun(Library(), XORB, Body());
    ShardNeedsXorb(Run(Library(), EMPTY, Reposting()).xorbs);
  }

  lemma {:induction false} RepostRun(x: Xet, h: Hash, body: seq<Byte>)
    requires Trusted(x) && AcceptsXorb(x, EMPTY, h, body)
    ensures h !in Run(x, EMPTY, [UploadXorb(h, body, 0), UploadXorb(h, body, 100), CollectGarbage(100, 50)]).xorbs
  {
    hide Inv, PostXorb, Gc, Reachable, LiveShards, Run, AcceptsXorb, Trusted;
    EmptyInv(x);
    UploadKeepsInv(x, EMPTY, h, body, 0);
    PostedAlone(x, h, body);
    var a := PostXorb(x, EMPTY, h, body, 0);
    NothingLive(x, a);
    RepostedXorbIsLost(x, a, h, body, 100, 100, 50);
    RunsThree(x, EMPTY, UploadXorb(h, body, 0), UploadXorb(h, body, 100), CollectGarbage(100, 50));
  }

  lemma {:induction false} PostedAlone(x: Xet, h: Hash, body: seq<Byte>)
    requires AcceptsXorb(x, EMPTY, h, body)
    ensures var a := PostXorb(x, EMPTY, h, body, 0);
      a.fileIndex == map[] && h in a.xorbs && a.xorbs[h] == Blob(body, 0)
  {
    hide AcceptsXorb, BodyLayout, PutBatch;
  }

  lemma {:induction false} RunsThree(x: Xet, st: State, a: Store.Event, b: Store.Event, c: Store.Event)
    ensures Run(x, st, [a, b, c]) == Step(x, Step(x, Step(x, st, a), b), c)
  {
    hide Step;
    assert [a, b, c][1..] == [b, c] && [b, c][1..] == [c] && [c][1..] == [];
    assert Run(x, Step(x, Step(x, st, a), b), [c]) == Step(x, Step(x, Step(x, st, a), b), c);
    assert Run(x, Step(x, st, a), [b, c]) == Run(x, Step(x, Step(x, st, a), b), [c]);
  }

  lemma {:induction false} ShardNeedsXorb(xorbs: map<Hash, Blob>)
    requires XORB !in xorbs
    ensures !ValidUpload(Library(), xorbs, PrintShard(SHARD))
  {
    LibraryIsTrusted();
    PrintedIsSmall(SHARD);
    hide Library, PrintShard;
    assert Library().parseShard(Library().printShard(SHARD)) == Some(SHARD);
    OneBlockUpload(Library(), xorbs, PrintShard(SHARD), BLOCK);
    assert !ValidTerm(Library(), xorbs, BLOCK.entries[0]);
  }

  // ---- a file with a term of 4 GiB ----

  ghost function LongBody(): seq<Byte> {
    LongIsWritten();
    PrintAll(Library(), LongFrames())
  }

  lemma {:induction false} LongIsWritten()
    ensures AllWellFormed(Library(), LongFrames()) && |Zeros()| == 0x80_0000
    ensures Raws(LongFrames()) == seq(512, _ => Zeros())
    ensures SizedOf(Library(), LongFrames()) == LongSized()
    ensures HashesOf(Library(), LongFrames()) == seq(512, _ => BytesCode(Zeros()))
  {
    var x := Library();
    ZerosLength();
    FrameIsWritten();
    hide Zeros, WellFormed;
    forall i | 0 <= i < |LongFrames()| ensures WellFormed(x, LongFrames()[i]) {
      assert LongFrames()[i] == LongFrame();
    }
  }

  lemma {:induction false} ZerosLength()
    ensures |Zeros()| == 0x80_0000
  {
  }

  lemma {:induction false} FrameIsWritten()
    ensures WellFormed(Library(), LongFrame())
  {
    ZerosLength();
    hide Zeros;
  }

  lemma {:induction false} SumRepeated(n: nat, c: nat)
    ensures Sum(seq(n, _ => c)) == n * c
  {
    if n > 0 {
      SumRepeated(n - 1, c);
      assert seq(n, _ => c)[..n - 1] == seq(n - 1, _ => c);
    }
  }

  lemma {:induction false} LongLengths()
    ensures Sum(FrameLens(LongFrames())) == 512 * 9
    ensures UnpackedLen(LongFrames()) == U32
  {
    LongIsWritten();
    hide Zeros;
    assert FrameLens(LongFrames()) == seq(512, _ => 9);
    SumRepeated(512, 9);
    assert Lens(Raws(LongFrames())) == seq(512, _ => 0x80_0000);
    SumRepeated(512, 0x80_0000);
  }

  lemma {:induction false} PrintedWalks(x: Xet, fs: seq<Frame>)
    requires AllWellFormed(x, fs)
    ensures |PrintAll(x, fs)| == Sum(FrameLens(fs)) && Walk(x, PrintAll(x, fs), 0) == Ok(fs)
  {
    hide AllWellFormed, Walk, FrameLens, OpaqueTail;
    PrintAllLength(x, fs);
    EmptyIsOpaque(x);
    WalkPrinted(x, fs, [], 0);
    assert PrintAll(x, fs) + [] == PrintAll(x, fs);
  }

  lemma {:induction false} LongWalks()
    ensures |LongBody()| == 512 * 9 && Walk(Library(), LongBody(), 0) == Ok(LongFrames())
  {
    LongIsWritten();
    LongLengths();
    hide Library, Zeros, LongFrames, LongSized, AllWellFormed, Walk, FrameLens, PrintAll, UnpackedLen, SizedOf, HashesOf, Raws;
    PrintedWalks(Library(), LongFrames());
  }

  lemma {:induction false} EmptyIsOpaque(x: Xet)
    ensures OpaqueTail(x, [])
  {
  }

  lemma {:induction false} LongIsAcceptable()
    ensures AcceptsXorb(Library(), EMPTY, SizedCode(LongSized()), LongBody())
    ensures FramesOf(Library(), LongBody()) == LongFrames()
  {
    var x, fs, body := Library(), LongFrames(), LongBody();
    LongIsWritten();
    LongWalks();
    LongHash();
    LibraryHasXorbHash();
    NoFooters(body);
    hide Library, Zeros, LongFrames, LongSized, LongBody, AllWellFormed, Walk, SizedCode;
    InfoRecoversSizes(x, fs);
    hide SizedFromInfo, SizedOf, HashesOf, Ends;
  }

  lemma {:induction false} NoFooters(b: seq<Byte>)
    ensures Library().readFooter(b) == None
  {
    hide Zeros;
  }

  lemma {:induction false} LongHash()
    ensures Library().xorbHash(LongSized()) == SizedCode(LongSized()) && |LongFrames()| == 512
    ensures Library().fileHash(LongSized()) == SizedCode(LongSized())
    ensures forall hs :: Library().rangeHash(hs) == HashesCode(hs)
  {
    hide Zeros;
  }

  lemma {:induction false} LongBlockIsValid(xorbs: map<Hash, Blob>)
    requires SizedCode(LongSized()) in xorbs && FramesOf(Library(), xorbs[SizedCode(LongSized())].bytes) == LongFrames()
    ensures ValidFile(Library(), xorbs, LongBlock())
    ensures UnpackedLen(TermFrames(Library(), xorbs, LongBlock().entries[0].term)) == U32
  {
    var x, e := Library(), LongBlock().entries[0];
    LongIsWritten();
    LongLengths();
    LongHash();
    hide FramesOf, Library, Zeros, LongFrames, LongSized, UnpackedLen, HashesCode, SizedCode, AllWellFormed, SizedOf, HashesOf, Raws;
    assert TermFrames(x, xorbs, e.term) == LongFrames();
    OneTermFile(x, xorbs, LongBlock(), LongFrames());
  }

  // A file of one term is valid if the term's frames match what it declares.
  lemma {:induction false} OneTermFile(x: Xet, xorbs: map<Hash, Blob>, b: FileBlock, fs: seq<Frame>)
    requires |b.entries| == 1 && b.hasVerification && TermInStore(x, xorbs, b.entries[0].term)
    requires TermFrames(x, xorbs, b.entries[0].term) == fs
    requires x.rangeHash(HashesOf(x, fs)) == b.entries[0].check && Wrap(UnpackedLen(fs)) == b.entries[0].term.unpacked
    requires x.fileHash(SizedOf(x, fs)) == b.hash
    ensures ValidFile(x, xorbs, b)
  {
    hide TermFrames, TermInStore, UnpackedLen, HashesOf;
    var es := b.entries;
    assert es[..0] == [] && FileChunks(x, xorbs, []) == [];
    assert FileChunks(x, xorbs, es) == [] + SizedOf(x, fs) == SizedOf(x, fs);
    assert ValidTerm(x, xorbs, es[0]);
  }

  lemma {:induction false} LongShardIsAccepted(xorbs: map<Hash, Blob>)
    requires SizedCode(LongSized()) in xorbs && FramesOf(Library(), xorbs[SizedCode(LongSized())].bytes) == LongFrames()
    ensures var body := PrintShard(Shard([LongBlock()], []));
      ValidUpload(Library(), xorbs, body) && Library().parseShard(body) == Some(Shard([LongBlock()], []))
  {
    var s := Shard([LongBlock()], []);
    LibraryIsTrusted();
    PrintedIsSmall(s);
    LongBlockIsValid(xorbs);
    hide Library, PrintShard, ValidFile, FramesOf, LongBlock;
    assert Library().parseShard(Library().printShard(s)) == Some(s);
    OneBlockUpload(Library(), xorbs, PrintShard(s), LongBlock());
  }

  ghost function LongUpload(): seq<Store.Event> {
    [UploadXorb(SizedCode(LongSized()), LongBody(), 0), RegisterShard("owner", PrintShard(Shard([LongBlock()], [])), 0)]
  }

  // Upload and register: the file is indexed, its owner may read it, its content is 4 GiB long,
  // and its very first byte is refused as past the end.
  lemma {:induction false} LongTermHappens()
    ensures var st, f := Run(Library(), EMPTY, LongUpload()), LongBlock().hash;
      && Inv(Library(), st) && f in st.fileIndex && MayRead(st, Caller("owner", false), f)
      && !TermsFit(Library(), st.xorbs, TermsOf(FileEntries(Library(), st, f)))
      && |FileContent(Library(), st, f)| == U32
      && Download(Library(), st, Caller("owner", false), f, Some(0), Some(0)) == Err(RangeNotSatisfiable)
  {
    var x, f, body := Library(), LongBlock().hash, PrintShard(Shard([LongBlock()], []));
    LibraryIsTrusted();
    EveryRunIsSafe(x, LongUpload());
    var a := LongPosted();
    LongShardIsAccepted(a.xorbs);
    LongBlockIsValid(a.xorbs);
    hide Library, LongBlock, LongBody, LongSized, LongFrames, PrintShard, FramesOf, UnpackedLen, Inv, ValidUpload, ValidFile;
    RegisteredEntries(x, a, body, LongBlock(), "owner", 0);
    OnlyVersionZeroHere();
    LongEntry();
    var st := Register(x, a, "owner", body, 0);
    assert Run(x, EMPTY, LongUpload()) == st;
    assert MayRead(st, Caller("owner", false), f);
    hide Register, Run, MayRead, Download, TermsFit, FileEntries, FileContent, OnlyVersionZero, Trusted, LongUpload;
    LongRead(x, st, Caller("owner", false), f, LongBlock().entries[0]);
  }

  lemma {:induction false} LongEntry()
    ensures |LongBlock().entries| == 1 && LongBlock().entries[0].term.unpacked == 0
  {
    hide Zeros, LongSized, SizedCode, HashesCode;
  }

  lemma {:induction false} LongPosted() returns (a: State)
    ensures a == PostXorb(Library(), EMPTY, SizedCode(LongSized()), LongBody(), 0)
    ensures Inv(Library(), a) && SizedCode(LongSized()) in a.xorbs
    ensures FramesOf(Library(), a.xorbs[SizedCode(LongSized())].bytes) == LongFrames()
    ensures forall e :: Run(Library(), EMPTY, [UploadXorb(SizedCode(LongSized()), LongBody(), 0), e]) == Step(Library(), a, e)
  {
    LongIsAcceptable();
    LibraryIsTrusted();
    EmptyInv(Library());
    UploadKeepsInv(Library(), EMPTY, SizedCode(LongSized()), LongBody(), 0);
    hide Library, LongBody, LongSized, LongFrames, FramesOf, Inv, AcceptsXorb, BodyLayout, PutBatch, SizedCode;
    a := PostXorb(Library(), EMPTY, SizedCode(LongSized()), LongBody(), 0);
    forall e ensures Run(Library(), EMPTY, [UploadXorb(SizedCode(LongSized()), LongBody(), 0), e]) == Step(Library(), a, e) {
      RunsTwo(Library(), EMPTY, UploadXorb(SizedCode(LongSized()), LongBody(), 0), e);
    }
  }

  lemma {:induction false} RunsTwo(x: Xet, st: State, a: Store.Event, b: Store.Event)
    ensures Run(x, st, [a, b]) == Step(x, Step(x, st, a), b)
  {
    hide Step;
    assert [a, b][1..] == [b] && [b][1..] == [];
    assert Run(x, Step(x, st, a), [b]) == Step(x, Step(x, st, a), b);
  }

  lemma {:induction false} LongRead(x: Xet, st: State, caller: Caller, f: Hash, e: Entry)
    requires Inv(x, st) && OnlyVersionZero(x) && f in st.fileIndex && MayRead(st, caller, f)
    requires FileEntries(x, st, f) == [e] && e.term.unpacked == 0
    requires UnpackedLen(TermFrames(x, st.xorbs, e.term)) == U32
    ensures !TermsFit(x, st.xorbs, TermsOf(FileEntries(x, st, f)))
    ensures |FileContent(x, st, f)| == U32
    ensures Download(x, st, caller, f, Some(0), Some(0)) == Err(RangeNotSatisfiable)
  {
    hide FramesOf, UnpackedLen, Inv, TermFrames, Download, MayRead, FileEntries, TermBytes, Join, TotalSize, OnlyVersionZero, TermParts;
    assert TermsOf([e]) == [e.term];
    OneTermLength(x, st.xorbs, e.term);
    OneLongTerm(x, st.xorbs, e.term);
    hide TermsFit, TermsOf;
    OverlongTermBreaksRanges(x, st, caller, f);
  }

  lemma {:induction false} OneLongTerm(x: Xet, xorbs: map<Hash, Blob>, t: Term)
    requires UnpackedLen(TermFrames(x, xorbs, t)) >= U32
    ensures !TermsFit(x, xorbs, [t])
  {
    hide UnpackedLen, TermFrames;
    assert [t][0] == t;
  }

  lemma {:induction false} OnlyVersionZeroHere()
    ensures OnlyVersionZero(Library())
  {
    HypothesesAreConsistent();
    hide Library;
  }

  lemma {:induction false} OneTermLength(x: Xet, xorbs: map<Hash, Blob>, t: Term)
    ensures |Join(TermParts(x, xorbs, [t]))| == UnpackedLen(TermFrames(x, xorbs, t))
    ensures TotalSize([t]) == t.unpacked
  {
    hide TermFrames, UnpackedLen, TermBytes;
    LengthIsUnpacked(x, xorbs, t);
    var parts := TermParts(x, xorbs, [t]);
    assert parts == [] + [TermBytes(x, xorbs, t)];
    JoinSnoc([], parts[0]);
    assert TermLens([t]) == [] + [t.unpacked] && TermLens([t])[..1] == TermLens([t]);
    SumSnoc([], t.unpacked);
  }

  lemma {:induction false} LengthIsUnpacked(x: Xet, xorbs: map<Hash, Blob>, t: Term)
    ensures |TermBytes(x, xorbs, t)| == UnpackedLen(TermFrames(x, xorbs, t))
  {
    hide TermFrames;
    JoinLength(Raws(TermFrames(x, xorbs, t)));
  }
}
