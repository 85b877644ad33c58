/**
 How passes end (crates/server/src/gc.rs:101-133): from any point, completing the passes under
 way deletes exactly what they doom, so a file survives if and only if it needs nothing doomed.
 The ways a registration can be stranded follow.
 */
module Completion {
  import opened Basics
  import opened XetCore
  import opened Store
  import opened Invariants
  import opened Interleaving

  // The steps of passes, and the writes that finish uploads in flight.
  predicate PassMove(m: Move) {
    m.WriteRows? || m.WriteLayout? || m.ReadShard? || m.ListXorbs? || m.PurgeIndex? || m.DeleteBlob? || m.ListShards?
    || m.DeleteShard? || m.EndPass?
  }

  ghost predicate Completes(x: Xet, w: World, moves: seq<Move>) {
    && (forall i :: 0 <= i < |moves| ==> PassMove(moves[i]))
    && Possible(x, w, moves) && Play(x, w, moves).passes == map[]
  }

  ghost function DoomedXorbs(x: Xet, w: World): set<Hash> {
    set h | h in w.st.xorbs && XorbDoomed(x, w, h)
  }

  ghost function DoomedShards(w: World): set<Hash> {
    set h | h in w.st.shards && ShardDoomed(w, h)
  }

  // No pass has still to read a shard that some pass is about to delete.
  ghost predicate Settled(w: World) {
    forall p, t :: p in w.passes && t in w.passes[p].unread && t in w.st.shards ==> !ShardDoomed(w, t)
  }

  lemma {:induction false} SettledIsHarmless(x: Xet, w: World, m: Move)
    requires Consistent(w) && Settled(w) && Enabled(x, w, m)
    ensures Harmless(w, m)
  {
    DeletedIsDoomed(x, w, m);
    hide Consistent, Enabled, ShardDoomed;
  }

  lemma {:induction false} StaysSettled(x: Xet, w: World, m: Move)
    requires Consistent(w) && Settled(w) && Enabled(x, w, m) && PassMove(m)
    ensures Settled(Next(x, w, m))
  {
    MoveXorbs(x, w, m);
    hide Consistent, Enabled, Next, ShardDoomed;
    var next := Next(x, w, m);
    forall p, t | p in next.passes && t in next.passes[p].unread && t in next.st.shards ensures !ShardDoomed(next, t) {
      PassesBefore(x, w, m, p);
      StillMarking(x, w, m, p);
      ShardStaysUndoomed(x, w, m, t);
    }
  }

  // ---- a pass deletes what it dooms ----

  // Shards only go, so a pass comes to mark nothing it would not have marked before.
  lemma {:induction false} MarksDoNotGrow(x: Xet, w: World, m: Move, p: Id, h: Hash)
    requires Enabled(x, w, m) && PassMove(m) && p in w.passes && p in Next(x, w, m).passes
    requires h in ToMark(x, Next(x, w, m).st.shards, Next(x, w, m).passes[p])
    ensures h in ToMark(x, w.st.shards, w.passes[p])
  {
    hide Enabled, Next, BlockXorbs, ShardFiles, ToMark;
    var s, next := w.passes[p], Next(x, w, m);
    ToMarkHas(x, w.st.shards, s, h);
    ToMarkHas(x, next.st.shards, next.passes[p], h);
    StillMarking(x, w, m, p);
    if h !in next.passes[p].reachable {
      var t :| t in next.passes[p].unread && h in BlockXorbs(s.index, ShardFiles(x, next.st.shards, t), t);
      NoFilesNoMarks(s.index, t);
      FilesOfShard(x, w, m, t);
    }
  }

  // A pass gives up no doomed object but by deleting it.
  lemma {:induction false} StaysDoomed(x: Xet, w: World, m: Move, p: Id, h: Hash)
    requires Enabled(x, w, m) && PassMove(m) && p in w.passes
    ensures DoomsXorb(x, w.st, w.passes[p], h) && !(m.DeleteBlob? && m.hash == h) ==>
      p in Next(x, w, m).passes && DoomsXorb(x, Next(x, w, m).st, Next(x, w, m).passes[p], h)
  {
    hide AcceptsXorb, NextState, NextUploads, NextPending, ValidUpload, InGrace, ToMark, BlockXorbs, ShardFiles, LiveShards, CorruptShard;
    MoveXorbs(x, w, m);
    var next := Next(x, w, m);
    if p in next.passes {
      StillMarking(x, w, m, p);
      if h in ToMark(x, next.st.shards, next.passes[p]) {
        MarksDoNotGrow(x, w, m, p, h);
      }
      if m.ListXorbs? && m.pass == p {
        AllRead(x, w.st.shards, w.passes[p]);
      }
    }
  }

  lemma {:induction false} ShardStaysDoomed(x: Xet, w: World, m: Move, p: Id, h: Hash)
    requires Enabled(x, w, m) && PassMove(m) && p in w.passes
    ensures DoomsShard(w.st, w.passes[p], h) && h in Next(x, w, m).st.shards ==>
      p in Next(x, w, m).passes && DoomsShard(Next(x, w, m).st, Next(x, w, m).passes[p], h)
  {
    hide AcceptsXorb, NextState, NextUploads, NextPending, ValidUpload, InGrace, BlockXorbs, ShardFiles, LiveShards, CorruptShard;
    MoveXorbs(x, w, m);
  }

  lemma {:induction false} DoomedStays(x: Xet, w: World, m: Move, h: Hash)
    requires Enabled(x, w, m) && PassMove(m)
    ensures XorbDoomed(x, w, h) && h in Next(x, w, m).st.xorbs ==> XorbDoomed(x, Next(x, w, m), h)
    ensures ShardDoomed(w, h) && h in Next(x, w, m).st.shards ==> ShardDoomed(Next(x, w, m), h)
  {
    hide Enabled, Next, DoomsXorb, DoomsShard;
    MoveXorbs(x, w, m);
    if XorbDoomed(x, w, h) {
      var p :| p in w.passes && DoomsXorb(x, w.st, w.passes[p], h);
      StaysDoomed(x, w, m, p, h);
    }
    if ShardDoomed(w, h) {
      var p :| p in w.passes && DoomsShard(w.st, w.passes[p], h);
      ShardStaysDoomed(x, w, m, p, h);
    }
  }

  // A step of a pass deletes nothing but doomed objects, and dooms no others.
  lemma {:induction false} PassStep(x: Xet, w: World, m: Move)
    requires Consistent(w) && Settled(w) && Enabled(x, w, m) && PassMove(m)
    ensures var next := Next(x, w, m);
      && next.st.xorbs - DoomedXorbs(x, next) == w.st.xorbs - DoomedXorbs(x, w)
      && next.st.shards - DoomedShards(next) == w.st.shards - DoomedShards(w)
      && next.st.fileIndex == w.st.fileIndex
  {
    hide Consistent, Enabled, Next, XorbDoomed, ShardDoomed;
    var next := Next(x, w, m);
    MoveXorbs(x, w, m);
    SameFiles(x, w, m);
    forall h ensures h in next.st.xorbs && !XorbDoomed(x, next, h) <==> h in w.st.xorbs && !XorbDoomed(x, w, h) {
      XorbOutcome(x, w, m, h);
    }
    forall h ensures h in next.st.shards && !ShardDoomed(next, h) <==> h in w.st.shards && !ShardDoomed(w, h) {
      ShardOutcome(x, w, m, h);
    }
  }

  lemma {:induction false} SameFiles(x: Xet, w: World, m: Move)
    requires Enabled(x, w, m) && PassMove(m)
    ensures Next(x, w, m).st.fileIndex == w.st.fileIndex
  {
    hide PutBatch, BodyLayout, DropAllRows, Allows;
  }

  lemma {:induction false} XorbOutcome(x: Xet, w: World, m: Move, h: Hash)
    requires Consistent(w) && Settled(w) && Enabled(x, w, m) && PassMove(m)
    ensures var next := Next(x, w, m);
      h in next.st.xorbs && !XorbDoomed(x, next, h) <==> h in w.st.xorbs && !XorbDoomed(x, w, h)
  {
    hide Consistent, Settled, Harmless, Enabled, Next, XorbDoomed, ShardDoomed;
    MoveXorbs(x, w, m);
    DoomedStays(x, w, m, h);
    SettledIsHarmless(x, w, m);
    if h in w.st.xorbs && !XorbDoomed(x, w, h) {
      XorbKept(x, w, m, h);
      StaysUndoomed(x, w, m, h);
    }
  }

  lemma {:induction false} ShardOutcome(x: Xet, w: World, m: Move, h: Hash)
    requires Consistent(w) && Settled(w) && Enabled(x, w, m) && PassMove(m)
    ensures var next := Next(x, w, m);
      h in next.st.shards && !ShardDoomed(next, h) <==> h in w.st.shards && !ShardDoomed(w, h)
  {
    hide Consistent, Enabled, Next, XorbDoomed, ShardDoomed;
    MoveXorbs(x, w, m);
    DoomedStays(x, w, m, h);
    if h in w.st.shards && !ShardDoomed(w, h) {
      ShardKept(x, w, m, h);
      ShardStaysUndoomed(x, w, m, h);
    }
  }

  // However the passes under way are completed, exactly the doomed objects are deleted, if no
  // pass has still to read a shard that another may delete first.
  lemma {:induction false} CompletionDeletesDoomed(x: Xet, w: World, moves: seq<Move>)
    requires Consistent(w) && Settled(w) && Completes(x, w, moves)
    ensures var end := Play(x, w, moves).st;
      && end.xorbs == w.st.xorbs - DoomedXorbs(x, w) && end.shards == w.st.shards - DoomedShards(w)
      && end.fileIndex == w.st.fileIndex
    decreases |moves|
  {
    hide Consistent, Settled, Enabled, Next, PassMove, DoomsXorb, DoomsShard;
    if moves == [] {
      assert w.st.xorbs - {} == w.st.xorbs && w.st.shards - {} == w.st.shards;
    } else {
      var rest := moves[1..];
      forall i | 0 <= i < |rest| ensures PassMove(rest[i]) {
        assert rest[i] == moves[i + 1];
      }
      hide DoomedXorbs, DoomedShards;
      PassStep(x, w, moves[0]);
      MoveConsistent(x, w, moves[0]);
      StaysSettled(x, w, moves[0]);
      CompletionDeletesDoomed(x, Next(x, w, moves[0]), rest);
    }
  }

  // A pass nothing interferes with leaves the objects the collection step leaves.
  lemma {:induction false} UninterruptedPass(x: Xet, st: State, p: Id, now: int, grace: int, moves: seq<Move>)
    requires !(exists s :: s in LiveShards(st) && CorruptShard(x, st, s))
    requires Completes(x, Begun(x, st, p, now, grace), moves)
    ensures var end := Play(x, Begun(x, st, p, now, grace), moves).st;
      && end.xorbs == Gc(x, st, now, grace).xorbs && end.shards == Gc(x, st, now, grace).shards
      && end.fileIndex == Gc(x, st, now, grace).fileIndex
  {
    var w := Begun(x, st, p, now, grace);
    BegunDooms(x, st, p, now, grace);
    CompletionDeletesDoomed(x, w, moves);
    hide Completes, Begun, Settled, DoomedXorbs, DoomedShards, Swept, Condemned, Reachable, LiveShards, CorruptShard, DropAllRows;
  }

  lemma {:induction false} BegunDooms(x: Xet, st: State, p: Id, now: int, grace: int)
    ensures var w := Begun(x, st, p, now, grace);
      && w.st == st && Consistent(w) && Settled(w)
      && st.xorbs - DoomedXorbs(x, w) == Swept(st.xorbs, Reachable(x, st), now, grace)
      && st.shards - DoomedShards(w) == Swept(st.shards, LiveShards(st), now, grace)
  {
    var w := Begun(x, st, p, now, grace);
    MarksReachable(x, st, w.passes[p]);
    hide Reachable, LiveShards, InGrace, ToMark;
    assert p in w.passes && forall q :: q in w.passes ==> q == p;
    forall h ensures XorbDoomed(x, w, h) <==> DoomsXorb(x, st, w.passes[p], h) {
    }
    forall h ensures ShardDoomed(w, h) <==> DoomsShard(st, w.passes[p], h) {
    }
    hide XorbDoomed, ShardDoomed;
  }

  // A quiet server on which one pass has begun to mark.
  ghost function Begun(x: Xet, st: State, p: Id, now: int, grace: int): World {
    var w := World(st, map[], map[], map[]);
    assert Enabled(x, w, Mark(p, now, grace));
    Next(x, w, Mark(p, now, grace))
  }

  // A file that is sound now survives the completion of the passes under way if and only if
  // neither its shard nor any of its xorbs is doomed.
  lemma {:induction false} SurvivesPassesIff(x: Xet, w: World, moves: seq<Move>, f: Hash)
    requires Consistent(w) && Settled(w) && Completes(x, w, moves)
    requires f in w.st.fileIndex && FileSound(x, w.st, f)
    ensures f in Play(x, w, moves).st.fileIndex
    ensures FileSound(x, Play(x, w, moves).st, f) <==> AvoidsDoomed(x, w, f)
  {
    CompletionDeletesDoomed(x, w, moves);
    hide Consistent, Completes, Possible, Play, FileIn, Uses, XorbDoomed, ShardDoomed;
    var end, s := Play(x, w, moves).st, w.st.fileIndex[f];
    var files := ShardFiles(x, w.st.shards, s);
    forall h | Uses(files, f, h) ensures h in w.st.xorbs {
      SoundNeedsXorb(x, w.st.xorbs, files, f, h);
    }
    if AvoidsDoomed(x, w, f) {
      UnusedCanGo(x, w.st.xorbs, files, f, DoomedXorbs(x, w));
    }
    if FileSound(x, end, f) {
      assert ShardFiles(x, end.shards, s) == files;
      forall h | Uses(files, f, h) ensures !XorbDoomed(x, w, h) {
        SoundNeedsXorb(x, end.xorbs, files, f, h);
      }
    }
  }

  // ---- every pass can be completed ----

  function PhaseRank(p: Phase): nat {
    match p case Marking => 2 case SweepingXorbs => 1 case SweepingShards => 0
  }

  // The next step of a pass.
  ghost function NextPassMove(p: Id, s: Sweep): Move {
    match s.phase
    case Marking =>
      if s.unread == {} then ListXorbs(p) else ReadShard(p, Pick(s.unread))
    case SweepingXorbs =>
      if s.purged.Some? then DeleteBlob(p, s.purged.value)
      else if XorbsDone(s) then ListShards(p)
      else
        var h :| h in s.listedXorbs && XorbCondemned(s, h);
        PurgeIndex(p, h)
    case SweepingShards =>
      if ShardsDone(s) then EndPass(p)
      else
        var h :| h in s.listedShards && ShardCondemned(s, h);
        DeleteShard(p, h)
  }

  lemma {:induction false} NextIsEnabled(x: Xet, w: World, p: Id)
    requires p in w.passes && NoneCorrupt(x, w.st)
    ensures var m := NextPassMove(p, w.passes[p]);
      && Enabled(x, w, m) && PassMove(m)
      && Next(x, w, m).passes == if m.EndPass? then w.passes - {p} else w.passes[p := NextSweep(x, w.st, w.passes[p], m)]
  {
    hide Condemns, BlockXorbs, ShardFiles;
  }

  lemma {:induction false} FewerKeys(m: map<Hash, int>, h: Hash)
    requires h in m
    ensures |m - {h}| < |m|
  {
    assert (m - {h}).Keys == m.Keys - {h};
  }

  lemma {:induction false} FewerMembers(s: set<Hash>, h: Hash)
    requires h in s
    ensures |s - {h}| < |s|
  {
  }

  // A step brings the pass closer to its end: first by phase, then by shards to read, then by
  // listed xorbs, then by the deletion it has purged for, then by listed shards.
  ghost predicate Closer(b: Sweep, a: Sweep) {
    || PhaseRank(b.phase) < PhaseRank(a.phase)
    || (b.phase == a.phase && (
        || |b.unread| < |a.unread|
        || (b.unread == a.unread && (
            || |b.listedXorbs| < |a.listedXorbs|
            || (|b.listedXorbs| == |a.listedXorbs| && (
                || (b.purged.Some? && a.purged.None?)
                || (b.purged == a.purged && |b.listedShards| < |a.listedShards|)))))))
  }

  lemma {:induction false} NextIsCloser(x: Xet, w: World, p: Id)
    requires Consistent(w) && p in w.passes && !NextPassMove(p, w.passes[p]).EndPass?
    ensures Closer(NextSweep(x, w.st, w.passes[p], NextPassMove(p, w.passes[p])), w.passes[p])
  {
    NextAllowed(w, p);
    hide Consistent, NextPassMove, Closer;
    MoveIsCloser(x, w.st, w.passes[p], NextPassMove(p, w.passes[p]));
  }

  lemma {:induction false} NextAllowed(w: World, p: Id)
    requires Consistent(w) && p in w.passes
    ensures var m := NextPassMove(p, w.passes[p]);
      && Allows(w.passes[p], m) && PassMove(m)
      && (m.DeleteBlob? ==> m.hash in w.passes[p].listedXorbs)
      && (m.DeleteShard? ==> m.hash in w.passes[p].listedShards)
  {
    hide InGrace;
  }

  lemma {:induction false} MoveIsCloser(x: Xet, st: State, s: Sweep, m: Move)
    requires Allows(s, m) && PassMove(m) && !m.EndPass?
    requires m.DeleteBlob? ==> m.hash in s.listedXorbs
    requires m.DeleteShard? ==> m.hash in s.listedShards
    ensures Closer(NextSweep(x, st, s, m), s)
  {
    hide Condemns, XorbsDone, ShardsDone, BlockXorbs, ShardFiles, Listing;
    if m.ReadShard? {
      FewerMembers(s.unread, m.hash);
    } else if m.DeleteBlob? {
      FewerKeys(s.listedXorbs, m.hash);
    } else if m.DeleteShard? {
      FewerKeys(s.listedShards, m.hash);
    }
  }

  // Every stored shard parses, as it does in every safe world.
  ghost predicate NoneCorrupt(x: Xet, st: State) {
    forall t :: !CorruptShard(x, st, t)
  }

  lemma {:induction false} SafeIsNotCorrupt(x: Xet, w: World)
    requires Safe(x, w)
    ensures Consistent(w) && NoneCorrupt(x, w.st)
  {
    InvHasSoundShards(x, w.st.(layouts := map[]));
  }

  lemma {:induction false} StaysUncorrupt(x: Xet, w: World, m: Move)
    requires NoneCorrupt(x, w.st) && Enabled(x, w, m) && PassMove(m)
    ensures NoneCorrupt(x, Next(x, w, m).st)
  {
    hide Enabled, Next;
    MoveXorbs(x, w, m);
    var next := Next(x, w, m).st;
    forall t ensures !CorruptShard(x, next, t) {
      assert !CorruptShard(x, w.st, t);
    }
  }

  // One pass runs to its end while the others wait.
  lemma {:induction false} PassCanComplete(x: Xet, w: World, p: Id) returns (moves: seq<Move>)
    requires Consistent(w) && NoneCorrupt(x, w.st) && p in w.passes
    ensures forall i :: 0 <= i < |moves| ==> PassMove(moves[i])
    ensures Possible(x, w, moves)
    ensures Play(x, w, moves).passes == w.passes - {p} && NoneCorrupt(x, Play(x, w, moves).st)
    decreases PhaseRank(w.passes[p].phase), |w.passes[p].unread|, |w.passes[p].listedXorbs|,
      if w.passes[p].purged.Some? then 0 else 1, |w.passes[p].listedShards|
  {
    hide Consistent, NoneCorrupt, Enabled, Next, NextPassMove, PassMove, Possible, Play, NextSweep;
    var m := NextPassMove(p, w.passes[p]);
    NextIsEnabled(x, w, p);
    StaysUncorrupt(x, w, m);
    if m.EndPass? {
      moves := [m];
      PlayLast(x, w, m);
    } else {
      MoveConsistent(x, w, m);
      NextIsCloser(x, w, p);
      var rest := PassCanComplete(x, Next(x, w, m), p);
      moves := [m] + rest;
      PlayFirst(x, w, m, rest);
    }
  }

  lemma {:induction false} FewerPasses(passes: map<Id, Sweep>, p: Id)
    requires p in passes
    ensures |passes - {p}| < |passes|
  {
    assert (passes - {p}).Keys == passes.Keys - {p};
  }

  // From any point all passes under way can be completed.
  lemma {:induction false} PassesCanComplete(x: Xet, w: World) returns (moves: seq<Move>)
    requires Consistent(w) && NoneCorrupt(x, w.st)
    ensures Completes(x, w, moves)
    decreases |w.passes|
  {
    hide Consistent, NoneCorrupt, Enabled, Next, PassMove;
    if w.passes == map[] {
      moves := [];
    } else {
      var p :| p in w.passes;
      var first := PassCanComplete(x, w, p);
      RunConsistent(x, w, first);
      FewerPasses(w.passes, p);
      var rest := PassesCanComplete(x, Play(x, w, first));
      PlayBoth(x, w, first, rest);
      moves := first + rest;
    }
  }

  // ---- a registration while passes are under way ----

  lemma {:induction false} RegisteredFile(x: Xet, st: State, owner: Owner, body: seq<Byte>, at: int, file: Hash)
    requires Trusted(x) && FilesInv(x, st) && ValidUpload(x, st.xorbs, body) && Declares(x, body, file)
    ensures var next := Register(x, st, owner, body, at);
      && FilesInv(x, next) && file in next.fileIndex && next.fileIndex[file] == x.dataHash(body)
      && FileSound(x, next, file)
      && ShardFiles(x, next.shards, x.dataHash(body)) == x.parseShard(body).value.files
  {
    var bare, files, next := st.(layouts := map[]), x.parseShard(body).value.files, Register(x, st, owner, body, at);
    RegisterKeepsInv(x, bare, owner, body, at);
    StrippedRegister(x, st, owner, body, at);
    IndexedFiles(st.fileIndex, files, x.dataHash(body), file);
    hide Inv, FileSound, ShardFiles, ValidFile, IndexFiles, ClaimFiles, PutBatch;
    StoredFiles(x, next, body);
    InvHasSoundFile(x, next.(layouts := map[]), file);
    SameSound(x, next, file);
  }

  lemma {:induction false} SameSound(x: Xet, st: State, f: Hash)
    requires f in st.fileIndex
    ensures FileSound(x, st.(layouts := map[]), f) <==> FileSound(x, st, f)
  {
    hide FileIn, ShardFiles;
  }

  ghost function AfterRegister(x: Xet, w: World, owner: Owner, body: seq<Byte>, at: int): World {
    w.(st := Register(x, w.st, owner, body, at))
  }

  // A registration of a shard and xorbs that no pass dooms can be made at once, and all stays safe.
  lemma {:induction false} RegistrationStaysSafe(x: Xet, w: World, r: Id, owner: Owner, body: seq<Byte>, at: int)
    requires Trusted(x) && Safe(x, w) && AllPendingAvoid(x, w) && r !in w.pending && ValidUpload(x, w.st.xorbs, body)
    requires forall f, h :: DeclaredUses(x, body, f, h) ==> !XorbDoomed(x, w, h)
    requires !ShardDoomed(AfterRegister(x, w, owner, body, at), x.dataHash(body))
    ensures Possible(x, w, Registering(r, owner, body, at))
    ensures Play(x, w, Registering(r, owner, body, at)) == AfterRegister(x, w, owner, body, at)
    ensures Safe(x, AfterRegister(x, w, owner, body, at))
  {
    RegisterIsThreeMoves(x, w, r, owner, body, at);
    var a, b := FirstTwo(x, w, r, owner, body, at);
    hide Trusted, Safe, ValidUpload, Register, Enabled, Next, AllPendingAvoid, XorbDoomed, ShardDoomed, DeclaredUses;
    MoveKeeps(x, w, Validate(r, owner, body, at));
    ValidatedAvoids(x, w, a, r);
    MoveKeeps(x, a, StoreShard(r));
    SameShardDoom(b, AfterRegister(x, w, owner, body, at), x.dataHash(body));
    StoredAvoids(x, a, r);
    MoveKeeps(x, b, IndexShard(r));
  }

  lemma {:induction false} FirstTwo(x: Xet, w: World, r: Id, owner: Owner, body: seq<Byte>, at: int) returns (a: World, b: World)
    requires r !in w.pending && ValidUpload(x, w.st.xorbs, body)
    ensures Enabled(x, w, Validate(r, owner, body, at)) && a == Next(x, w, Validate(r, owner, body, at))
    ensures a == w.(pending := w.pending[r := Pending(owner, body, at, w.st.xorbs, false)])
    ensures Enabled(x, a, StoreShard(r)) && b == Next(x, a, StoreShard(r))
    ensures b.passes == w.passes && b.st.shards == Register(x, w.st, owner, body, at).shards
    ensures Enabled(x, b, IndexShard(r))
    ensures Next(x, b, IndexShard(r)) == w.(st := Register(x, w.st, owner, body, at))
  {
    hide ValidUpload, ClaimFiles, IndexFiles, PutBatch, CasRows, PutAbsent;
    ParsedIfValid(x, w.st.xorbs, body);
    a := Next(x, w, Validate(r, owner, body, at));
    b := Next(x, a, StoreShard(r));
    assert Next(x, b, IndexShard(r)).pending == w.pending;
  }

  lemma {:induction false} ValidatedAvoids(x: Xet, w: World, a: World, r: Id)
    requires AllPendingAvoid(x, w) && r in a.pending && a == w.(pending := w.pending[r := a.pending[r]])
    requires !a.pending[r].stored
    requires forall f, h :: DeclaredUses(x, a.pending[r].body, f, h) ==> !XorbDoomed(x, w, h)
    ensures AllPendingAvoid(x, a)
  {
    hide DeclaredUses;
    forall h ensures (XorbDoomed(x, a, h) <==> XorbDoomed(x, w, h)) && (ShardDoomed(a, h) <==> ShardDoomed(w, h)) {
    }
    hide XorbDoomed, ShardDoomed;
    forall q | q in a.pending ensures PendingAvoids(x, a, q) {
      assert q != r ==> PendingAvoids(x, w, q);
    }
  }

  lemma {:induction false} SameShardDoom(a: World, b: World, h: Hash)
    requires b.passes == a.passes && b.st.shards == a.st.shards
    ensures ShardDoomed(b, h) <==> ShardDoomed(a, h)
  {
    hide ShardCondemned, ShardSpared;
    assert forall p :: p in a.passes ==> (DoomsShard(b.st, b.passes[p], h) <==> DoomsShard(a.st, a.passes[p], h));
  }

  lemma {:induction false} StoredAvoids(x: Xet, w: World, r: Id)
    requires Safe(x, w) && AllPendingAvoid(x, w) && Enabled(x, w, StoreShard(r))
    requires !ShardDoomed(Next(x, w, StoreShard(r)), x.dataHash(w.pending[r].body))
    ensures AllPendingAvoid(x, Next(x, w, StoreShard(r)))
  {
    var m, next := StoreShard(r), Next(x, w, StoreShard(r));
    NewPending(x, w, m);
    hide FilesInv, XorbDoomed, ShardDoomed, Enabled, Next, AvoidsDoomed, DeclaredUses, ValidUpload, KeepsXorb;
    forall q | q in next.pending ensures PendingAvoids(x, next, q) {
      assert PendingAvoids(x, w, q) && PendingTrue(x, w.st, w.pending[q]);
      if q != r && w.pending[q].stored {
        ShardStaysUndoomed(x, w, m, x.dataHash(w.pending[q].body));
      }
      forall f, h | DeclaredUses(x, w.pending[q].body, f, h) ensures !XorbDoomed(x, next, h) {
        ValidNeedsXorb(x, w.pending[q].seen, w.pending[q].body, f, h);
        KeptIsThere(w.pending[q].seen, w.st.xorbs, h);
        StaysUndoomed(x, w, m, h);
      }
    }
  }

  // A file registered while passes are under way survives their completion if and only if
  // neither the shard, as it is then stored, nor any xorb it uses is doomed then.
  lemma {:induction false} RegistrationSurvivesIff(
    x: Xet, w: World, r: Id, owner: Owner, body: seq<Byte>, at: int, moves: seq<Move>, file: Hash)
    requires Trusted(x) && Safe(x, w) && r !in w.pending
    requires ValidUpload(x, w.st.xorbs, body) && Declares(x, body, file)
    requires Settled(AfterRegister(x, w, owner, body, at)) && Completes(x, AfterRegister(x, w, owner, body, at), moves)
    ensures var a := AfterRegister(x, w, owner, body, at);
      && Possible(x, w, Registering(r, owner, body, at)) && Play(x, w, Registering(r, owner, body, at)) == a
      && file in Play(x, a, moves).st.fileIndex
      && (FileSound(x, Play(x, a, moves).st, file) <==>
            !ShardDoomed(a, x.dataHash(body)) && forall h :: DeclaredUses(x, body, file, h) ==> !XorbDoomed(x, a, h))
  {
    hide Trusted, Safe, ValidUpload, Declares, DeclaredUses, Completes, Possible, Play, Registering, Register, FileSound, XorbDoomed,
      ShardDoomed, Consistent, AvoidsDoomed;
    var a := AfterRegister(x, w, owner, body, at);
    RegisterIsThreeMoves(x, w, r, owner, body, at);
    RegisteredAvoids(x, w, owner, body, at, file);
    SurvivesPassesIff(x, a, moves, file);
  }

  lemma {:induction false} RegisteredAvoids(x: Xet, w: World, owner: Owner, body: seq<Byte>, at: int, file: Hash)
    requires Trusted(x) && Safe(x, w) && ValidUpload(x, w.st.xorbs, body) && Declares(x, body, file)
    ensures var a := AfterRegister(x, w, owner, body, at);
      && Consistent(a) && file in a.st.fileIndex && FileSound(x, a.st, file)
      && (AvoidsDoomed(x, a, file) <==>
            !ShardDoomed(a, x.dataHash(body)) && forall h :: DeclaredUses(x, body, file, h) ==> !XorbDoomed(x, a, h))
  {
    hide FilesInv, ValidUpload, Uses, XorbDoomed, ShardDoomed, FileSound, ShardFiles, PendingTrue, Register, About, AvoidsDoomed;
    var a := AfterRegister(x, w, owner, body, at);
    RegisteredFile(x, w.st, owner, body, at, file);
    assert Consistent(w);
    AvoidsIff(x, a, file, body);
  }

  lemma {:induction false} AvoidsIff(x: Xet, w: World, f: Hash, body: seq<Byte>)
    requires f in w.st.fileIndex && w.st.fileIndex[f] == x.dataHash(body) && x.parseShard(body).Some?
    requires ShardFiles(x, w.st.shards, x.dataHash(body)) == x.parseShard(body).value.files
    ensures AvoidsDoomed(x, w, f) <==>
      !ShardDoomed(w, x.dataHash(body)) && forall h :: DeclaredUses(x, body, f, h) ==> !XorbDoomed(x, w, h)
  {
    hide Uses, XorbDoomed, ShardDoomed, ShardFiles;
  }

  // The hypothesis of the safety theorem is exact: once the passes under way have completed, a
  // registration that then indexes its files leaves each of them sound if and only if neither
  // its shard nor any xorb the file uses was doomed.
  lemma {:induction false} PendingSurvivesIff(x: Xet, w: World, moves: seq<Move>, r: Id, file: Hash)
    requires Trusted(x) && Safe(x, w) && Settled(w) && Completes(x, w, moves)
    requires r in w.pending && w.pending[r].stored && Declares(x, w.pending[r].body, file)
    ensures var end, body := Play(x, w, moves), w.pending[r].body;
      && Enabled(x, end, IndexShard(r)) && file in Next(x, end, IndexShard(r)).st.fileIndex
      && (FileSound(x, Next(x, end, IndexShard(r)).st, file) <==>
            !ShardDoomed(w, x.dataHash(body)) && forall h :: DeclaredUses(x, body, file, h) ==> !XorbDoomed(x, w, h))
  {
    var end, p := Play(x, w, moves), w.pending[r];
    CompletionDeletesDoomed(x, w, moves);
    PendingWaits(x, w, moves);
    assert PendingTrue(x, w.st, p);
    ParsedIfValid(x, p.seen, p.body);
    StoredFiles(x, w.st, p.body);
    NewlyIndexedHere(x, end, r, file);
    PendingBlocksSurvive(x, w, p, end.st, file);
    hide Trusted, Safe, Completes, Possible, Play, Enabled, Next, XorbDoomed, ShardDoomed, DeclaredUses, PendingTrue, FileIn, Declares;
  }

  lemma {:induction false} PendingWaits(x: Xet, w: World, moves: seq<Move>)
    requires Possible(x, w, moves) && forall i :: 0 <= i < |moves| ==> PassMove(moves[i])
    ensures Play(x, w, moves).pending == w.pending
    decreases |moves|
  {
    if moves != [] {
      var rest := moves[1..];
      forall i | 0 <= i < |rest| ensures PassMove(rest[i]) {
        assert rest[i] == moves[i + 1];
      }
      SamePending(x, w, moves[0]);
      hide Enabled, Next, PassMove;
      PendingWaits(x, Next(x, w, moves[0]), rest);
    }
  }

  lemma {:induction false} SamePending(x: Xet, w: World, m: Move)
    requires Enabled(x, w, m) && PassMove(m)
    ensures Next(x, w, m).pending == w.pending
  {
    hide Allows;
  }

  lemma {:induction false} NewlyIndexedHere(x: Xet, w: World, r: Id, file: Hash)
    requires r in w.pending && w.pending[r].stored && Declares(x, w.pending[r].body, file)
    ensures Enabled(x, w, IndexShard(r))
    ensures var st := Next(x, w, IndexShard(r)).st;
      && st.xorbs == w.st.xorbs && st.shards == w.st.shards
      && file in st.fileIndex && st.fileIndex[file] == x.dataHash(w.pending[r].body)
  {
    var p := w.pending[r];
    IndexedFiles(w.st.fileIndex, x.parseShard(p.body).value.files, x.dataHash(p.body), file);
    hide IndexFiles, ClaimFiles, PutBatch, About;
  }

  lemma {:induction false} PendingBlocksSurvive(x: Xet, w: World, p: Pending, end: State, file: Hash)
    requires PendingTrue(x, w.st, p) && p.stored && Declares(x, p.body, file)
    requires ShardFiles(x, w.st.shards, x.dataHash(p.body)) == x.parseShard(p.body).value.files
    requires end.xorbs == w.st.xorbs - DoomedXorbs(x, w) && end.shards == w.st.shards - DoomedShards(w)
    ensures x.dataHash(p.body) in end.shards && FileIn(x, end.xorbs, ShardFiles(x, end.shards, x.dataHash(p.body)), file) <==>
      !ShardDoomed(w, x.dataHash(p.body)) && forall h :: DeclaredUses(x, p.body, file, h) ==> !XorbDoomed(x, w, h)
  {
    var sh, files := x.dataHash(p.body), x.parseShard(p.body).value.files;
    assert sh in end.shards <==> !ShardDoomed(w, sh) by {
      hide ShardDoomed;
    }
    assert sh in end.shards ==> ShardFiles(x, end.shards, sh) == files by {
      hide ShardDoomed;
    }
    hide ShardFiles, FileIn, ShardDoomed, XorbDoomed, DeclaredUses, PendingTrue, Declares, DoomedXorbs, DoomedShards;
    if forall h :: DeclaredUses(x, p.body, file, h) ==> !XorbDoomed(x, w, h) {
      BlocksSurvive(x, w, p, end.xorbs, file);
    }
    if FileIn(x, end.xorbs, files, file) {
      BlocksNeed(x, w, p, end.xorbs, file);
    }
  }

  lemma {:induction false} BlocksSurvive(x: Xet, w: World, p: Pending, xorbs: map<Hash, Blob>, file: Hash)
    requires PendingTrue(x, w.st, p) && Declares(x, p.body, file) && xorbs == w.st.xorbs - DoomedXorbs(x, w)
    requires forall h :: DeclaredUses(x, p.body, file, h) ==> !XorbDoomed(x, w, h)
    ensures FileIn(x, xorbs, x.parseShard(p.body).value.files, file)
  {
    var files := x.parseShard(p.body).value.files;
    forall h | DeclaredUses(x, p.body, file, h) ensures KeepsXorb(p.seen, xorbs, h) {
      hide DeclaredUses, ValidUpload, XorbDoomed;
    }
    hide DeclaredUses, ValidUpload, KeepsXorb, DoomedXorbs, XorbDoomed;
    forall i | 0 <= i < |files| && files[i].hash == file ensures ValidFile(x, xorbs, files[i]) {
      BlockKept(x, p.seen, xorbs, p.body, i);
    }
    hide ValidFile;
  }

  lemma {:induction false} BlocksNeed(x: Xet, w: World, p: Pending, xorbs: map<Hash, Blob>, file: Hash)
    requires x.parseShard(p.body).Some? && xorbs == w.st.xorbs - DoomedXorbs(x, w)
    requires FileIn(x, xorbs, x.parseShard(p.body).value.files, file)
    ensures forall h :: DeclaredUses(x, p.body, file, h) ==> !XorbDoomed(x, w, h)
  {
    hide FileIn, XorbDoomed, Uses;
    forall h | DeclaredUses(x, p.body, file, h) ensures !XorbDoomed(x, w, h) {
      SoundNeedsXorb(x, xorbs, x.parseShard(p.body).value.files, file, h);
    }
  }

  // ---- stranded registrations ----

  // Every move is possible, and in the end the file is indexed and lost.
  ghost predicate Strands(x: Xet, w: World, moves: seq<Move>, file: Hash) {
    && Possible(x, w, moves) && file in Play(x, w, moves).st.fileIndex
    && !FileSound(x, Play(x, w, moves).st, file)
  }

  lemma {:induction false} LossStrands(x: Xet, w: World, r: Id, owner: Owner, body: seq<Byte>, at: int, losses: seq<Move>, file: Hash)
    requires Trusted(x) && Safe(x, w) && r !in w.pending && ValidUpload(x, w.st.xorbs, body) && Declares(x, body, file)
    requires Possible(x, AfterRegister(x, w, owner, body, at), losses)
    requires var a, z := AfterRegister(x, w, owner, body, at), Play(x, AfterRegister(x, w, owner, body, at), losses).st;
      && z.fileIndex == a.st.fileIndex
      && (x.dataHash(body) !in z.shards
          || (z.shards == a.st.shards && exists h :: DeclaredUses(x, body, file, h) && h !in z.xorbs))
    ensures Strands(x, w, Registering(r, owner, body, at) + losses, file)
  {
    var files, z := x.parseShard(body).value.files, Play(x, AfterRegister(x, w, owner, body, at), losses).st;
    RegisterIsThreeMoves(x, w, r, owner, body, at);
    RegisteredFile(x, w.st, owner, body, at, file);
    PlayBoth(x, w, Registering(r, owner, body, at), losses);
    hide Safe, ValidUpload, Register, Uses, FileIn, ShardFiles, About, Possible, Play, FilesInv;
    if FileSound(x, z, file) {
      var h :| DeclaredUses(x, body, file, h) && h !in z.xorbs;
      SoundNeedsXorb(x, z.xorbs, files, file, h);
    }
  }

  lemma {:induction false} UsesDeclares(x: Xet, body: seq<Byte>, f: Hash, h: Hash)
    requires DeclaredUses(x, body, f, h)
    ensures Declares(x, body, f)
  {
  }

  lemma {:induction false} DeletionLoses(x: Xet, w: World, a: World, p: Id, h: Hash)
    requires a.passes == w.passes
    ensures Enabled(x, w, DeleteBlob(p, h)) ==>
      && Possible(x, a, [DeleteBlob(p, h)])
      && Play(x, a, [DeleteBlob(p, h)]).st == a.st.(xorbs := a.st.xorbs - {h})
    ensures Enabled(x, w, DeleteShard(p, h)) ==>
      && Possible(x, a, [DeleteShard(p, h)])
      && Play(x, a, [DeleteShard(p, h)]).st == a.st.(shards := a.st.shards - {h})
  {
    if Enabled(x, w, DeleteBlob(p, h)) {
      PlayLast(x, a, DeleteBlob(p, h));
    }
    if Enabled(x, w, DeleteShard(p, h)) {
      PlayLast(x, a, DeleteShard(p, h));
    }
  }

  // Purging the index protects no registration: one that comes after the purge of an xorb it
  // refers to is accepted, and the deletion of the blob then strands its file.
  lemma {:induction false} AcceptedThenStranded(
    x: Xet, w: World, r: Id, owner: Owner, body: seq<Byte>, at: int, file: Hash, p: Id, h: Hash)
    requires Trusted(x) && Safe(x, w) && r !in w.pending && ValidUpload(x, w.st.xorbs, body)
    requires DeclaredUses(x, body, file, h) && Enabled(x, w, DeleteBlob(p, h))
    ensures Strands(x, w, Registering(r, owner, body, at) + [DeleteBlob(p, h)], file)
  {
    UsesDeclares(x, body, file, h);
    DeletionLoses(x, w, AfterRegister(x, w, owner, body, at), p, h);
    hide Safe, ValidUpload, Register, Enabled, Declares, DeclaredUses, Strands;
    LossStrands(x, w, r, owner, body, at, [DeleteBlob(p, h)], file);
  }

  // Nor is it enough that every xorb is spared: registering through a shard that was stored
  // before, is old and was not live at marking keeps its old upload time, and the shard sweep
  // strands the file.
  lemma {:induction false} AcceptedThenShardLost(
    x: Xet, w: World, r: Id, owner: Owner, body: seq<Byte>, at: int, file: Hash, p: Id)
    requires Trusted(x) && Safe(x, w) && r !in w.pending && ValidUpload(x, w.st.xorbs, body)
    requires Declares(x, body, file) && Enabled(x, w, DeleteShard(p, x.dataHash(body)))
    ensures Strands(x, w, Registering(r, owner, body, at) + [DeleteShard(p, x.dataHash(body))], file)
  {
    DeletionLoses(x, w, AfterRegister(x, w, owner, body, at), p, x.dataHash(body));
    hide Safe, ValidUpload, Register, Enabled, Declares, Strands;
    LossStrands(x, w, r, owner, body, at, [DeleteShard(p, x.dataHash(body))], file);
  }

  // Nor is it enough to be young: a list taken before the xorb was stored anew still condemns
  // it by its old time.
  lemma {:induction false} StaleListStrands(
    x: Xet, w: World, r: Id, owner: Owner, body: seq<Byte>, at: int, file: Hash, p: Id, h: Hash)
    requires Trusted(x) && Safe(x, w) && r !in w.pending && ValidUpload(x, w.st.xorbs, body)
    requires DeclaredUses(x, body, file, h) && Enabled(x, w, PurgeIndex(p, h))
    ensures Strands(x, w, Registering(r, owner, body, at) + [PurgeIndex(p, h), DeleteBlob(p, h)], file)
  {
    var a, losses := AfterRegister(x, w, owner, body, at), [PurgeIndex(p, h), DeleteBlob(p, h)];
    UsesDeclares(x, body, file, h);
    PurgeThenDelete(x, w, a, p, h);
    hide Safe, ValidUpload, Register, Enabled, Next, Declares, DeclaredUses, Strands;
    LossStrands(x, w, r, owner, body, at, losses, file);
  }

  lemma {:induction false} PurgeThenDelete(x: Xet, w: World, a: World, p: Id, h: Hash)
    requires a.passes == w.passes && Enabled(x, w, PurgeIndex(p, h))
    ensures Possible(x, a, [PurgeIndex(p, h), DeleteBlob(p, h)])
    ensures var z := Play(x, a, [PurgeIndex(p, h), DeleteBlob(p, h)]).st;
      && z.xorbs == a.st.xorbs - {h} && z.shards == a.st.shards && z.fileIndex == a.st.fileIndex
  {
    hide Condemns, DropAllRows;
    var b := Next(x, a, PurgeIndex(p, h));
    PlayLast(x, b, DeleteBlob(p, h));
    PlayFirst(x, a, PurgeIndex(p, h), [DeleteBlob(p, h)]);
    assert [PurgeIndex(p, h)] + [DeleteBlob(p, h)] == [PurgeIndex(p, h), DeleteBlob(p, h)];
  }

  // A registration is not protected by its own validation either: what it found stored can be
  // deleted before it indexes its files.
  lemma {:induction false} ValidatedThenLost(
    x: Xet, w: World, r: Id, owner: Owner, body: seq<Byte>, at: int, file: Hash, p: Id, h: Hash)
    requires Trusted(x) && Safe(x, w) && r !in w.pending && ValidUpload(x, w.st.xorbs, body)
    requires DeclaredUses(x, body, file, h) && Enabled(x, w, DeleteBlob(p, h))
    ensures Strands(x, w, [Validate(r, owner, body, at), DeleteBlob(p, h), StoreShard(r), IndexShard(r)], file)
  {
    var files := x.parseShard(body).value.files;
    UsesDeclares(x, body, file, h);
    var z := LostInBetween(x, w, r, owner, body, at, p, h);
    IndexedFiles(w.st.fileIndex, files, x.dataHash(body), file);
    InvHasSoundShards(x, w.st.(layouts := map[]));
    StoredShardIsUpload(x, w.st.shards, body, at);
    hide Inv, ValidUpload, ShardFiles, PutAbsent, IndexFiles, ClaimFiles, Enabled, Next, Possible, Play, FileIn, Uses, About, Consistent;
    if FileSound(x, z, file) {
      SoundNeedsXorb(x, z.xorbs, files, file, h);
    }
  }

  lemma {:induction false} LostInBetween(
    x: Xet, w: World, r: Id, owner: Owner, body: seq<Byte>, at: int, p: Id, h: Hash) returns (z: State)
    requires r !in w.pending && ValidUpload(x, w.st.xorbs, body) && Enabled(x, w, DeleteBlob(p, h))
    ensures var moves := [Validate(r, owner, body, at), DeleteBlob(p, h), StoreShard(r), IndexShard(r)];
      Possible(x, w, moves) && Play(x, w, moves).st == z
    ensures x.parseShard(body).Some?
    ensures z.xorbs == w.st.xorbs - {h} && z.shards == PutAbsent(w.st.shards, x.dataHash(body), body, at)
    ensures z.fileIndex == IndexFiles(w.st.fileIndex, x.parseShard(body).value.files, x.dataHash(body))
  {
    hide ValidUpload, ClaimFiles, IndexFiles, PutBatch, CasRows, PutAbsent;
    var m1, m2, m3, m4 := Validate(r, owner, body, at), DeleteBlob(p, h), StoreShard(r), IndexShard(r);
    ParsedIfValid(x, w.st.xorbs, body);
    var a := Next(x, w, m1);
    var b := Next(x, a, m2);
    var c := Next(x, b, m3);
    z := Next(x, c, m4).st;
    PlayLast(x, c, m4);
    PlayFirst(x, b, m3, [m4]);
    PlayFirst(x, a, m2, [m3] + [m4]);
    PlayFirst(x, w, m1, [m2] + ([m3] + [m4]));
    assert [m1] + ([m2] + ([m3] + [m4])) == [m1, m2, m3, m4];
  }

  // Even a file that is indexed all along can be lost: it is registered again through a new
  // shard while one pass has still to read the old one, and another pass, which began later,
  // deletes the old one first. The first pass then marks nothing on the file's behalf.
  lemma {:induction false} StaleMarkStrands(x: Xet, w: World, p: Id, q: Id, t: Hash, f: Hash, h: Hash)
    requires Trusted(x) && Safe(x, w) && p != q && p in w.passes && Enabled(x, w, DeleteShard(q, t))
    requires w.passes[p].phase == Marking && w.passes[p].unread == {t} && h !in w.passes[p].reachable
    requires h in w.st.xorbs && !InGrace(w.passes[p].now, w.passes[p].grace, w.st.xorbs[h].mtime)
    requires f in w.st.fileIndex && Uses(ShardFiles(x, w.st.shards, w.st.fileIndex[f]), f, h)
    ensures Strands(x, w, [DeleteShard(q, t), ReadShard(p, t), ListXorbs(p), PurgeIndex(p, h), DeleteBlob(p, h)], f)
  {
    var z := ReadTooLate(x, w, p, q, t, h);
    DeletedIsDoomed(x, w, DeleteShard(q, t));
    UnresolvedIfDoomed(x, w, t);
    SameFilesLeft(x, w.st.shards, t, w.st.fileIndex[f]);
    hide Safe, Enabled, Next, Possible, Play, FileIn, Uses, ShardFiles, ShardDoomed;
    if FileSound(x, z, f) {
      SoundNeedsXorb(x, z.xorbs, ShardFiles(x, w.st.shards, w.st.fileIndex[f]), f, h);
    }
  }

  lemma {:induction false} SameFilesLeft(x: Xet, shards: map<Hash, Blob>, t: Hash, s: Hash)
    requires s != t
    ensures ShardFiles(x, shards - {t}, s) == ShardFiles(x, shards, s)
  {
  }

  lemma {:induction false} ReadTooLate(x: Xet, w: World, p: Id, q: Id, t: Hash, h: Hash) returns (z: State)
    requires p != q && p in w.passes && Consistent(w) && Enabled(x, w, DeleteShard(q, t))
    requires w.passes[p].phase == Marking && w.passes[p].unread == {t} && h !in w.passes[p].reachable
    requires h in w.st.xorbs && !InGrace(w.passes[p].now, w.passes[p].grace, w.st.xorbs[h].mtime)
    ensures var moves := [DeleteShard(q, t), ReadShard(p, t), ListXorbs(p), PurgeIndex(p, h), DeleteBlob(p, h)];
      Possible(x, w, moves) && Play(x, w, moves).st == z
    ensures z.xorbs == w.st.xorbs - {h} && z.shards == w.st.shards - {t} && z.fileIndex == w.st.fileIndex
  {
    hide Enabled, Next, Possible, Play, InGrace;
    var m1, m2, m3, m4, m5 := DeleteShard(q, t), ReadShard(p, t), ListXorbs(p), PurgeIndex(p, h), DeleteBlob(p, h);
    var a, b := NothingToRead(x, w, p, q, t);
    z := ListAndDelete(x, b, p, h);
    PlayFirst(x, a, m2, [m3, m4, m5]);
    PlayFirst(x, w, m1, [m2] + [m3, m4, m5]);
    assert [m1] + ([m2] + [m3, m4, m5]) == [m1, m2, m3, m4, m5];
  }

  lemma {:induction false} ListAndDelete(x: Xet, w: World, p: Id, h: Hash) returns (z: State)
    requires p in w.passes && w.passes[p].phase == Marking && w.passes[p].unread == {} && w.passes[p].purged == None
    requires h in w.st.xorbs && h !in w.passes[p].reachable
    requires !InGrace(w.passes[p].now, w.passes[p].grace, w.st.xorbs[h].mtime)
    ensures var moves := [ListXorbs(p), PurgeIndex(p, h), DeleteBlob(p, h)];
      Possible(x, w, moves) && Play(x, w, moves).st == z
    ensures z.xorbs == w.st.xorbs - {h} && z.shards == w.st.shards && z.fileIndex == w.st.fileIndex
  {
    var a := Next(x, w, ListXorbs(p));
    hide InGrace, Possible, Play;
    PurgeThenDelete(x, a, a, p, h);
    z := Play(x, a, [PurgeIndex(p, h), DeleteBlob(p, h)]).st;
    PlayFirst(x, w, ListXorbs(p), [PurgeIndex(p, h), DeleteBlob(p, h)]);
    assert [ListXorbs(p)] + [PurgeIndex(p, h), DeleteBlob(p, h)] == [ListXorbs(p), PurgeIndex(p, h), DeleteBlob(p, h)];
  }

  lemma {:induction false} NothingToRead(x: Xet, w: World, p: Id, q: Id, t: Hash) returns (a: World, b: World)
    requires p != q && p in w.passes && Consistent(w) && Enabled(x, w, DeleteShard(q, t))
    requires w.passes[p].phase == Marking && w.passes[p].unread == {t}
    ensures a == Next(x, w, DeleteShard(q, t))
    ensures Enabled(x, a, ReadShard(p, t)) && b == Next(x, a, ReadShard(p, t))
    ensures b.st == w.st.(shards := w.st.shards - {t}) && p in b.passes
    ensures b.passes[p] == w.passes[p].(unread := {}) && b.passes[p].purged == None
  {
    hide Condemns, BlockXorbs;
    a := Next(x, w, DeleteShard(q, t));
    b := Next(x, a, ReadShard(p, t));
    NoFilesNoMarks(w.passes[p].index, t);
    assert {t} - {t} == {};
    assert w.passes[p].reachable + {} == w.passes[p].reachable;
  }
}
