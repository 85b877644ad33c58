/**
 Handlers running between each other's steps (crates/server/src/gc.rs, routes/xorb.rs,
 routes/shard.rs): an xorb upload is three writes, a registration validates, stores its shard
 and then indexes, a collection reads the file index, reads the live shards one by one, lists
 and deletes object by object, and any number of collections may be under way
 (crates/server/src/main.rs:101-110, routes/admin.rs:26-41).
 */
module Interleaving {
  import opened Basics
  import opened XetCore
  import opened XorbMeta
  import opened Store
  import opened Invariants

  /** What an xorb upload in flight still has to write: the blob is stored. */
  datatype Stage = RowsDue | LayoutDue

  datatype Upload = Upload(body: seq<Byte>, stage: Stage)

  /** A registration under way: validated on the xorbs it saw; the shard may be stored. */
  datatype Pending = Pending(owner: Owner, body: seq<Byte>, at: int, seen: map<Hash, Blob>, stored: bool)

  /** How far a pass has come. */
  datatype Phase = Marking | SweepingXorbs | SweepingShards

  /**
   A pass under way: the file index it found, the live shards it has still to read, the xorbs
   marked so far, its clock, and the listed objects not yet deleted.
   */
  datatype Sweep = Sweep(
    index: map<Hash, Hash>,
    live: set<Hash>,
    unread: set<Hash>,
    reachable: set<Hash>,
    now: int,
    grace: int,
    phase: Phase,
    listedXorbs: map<Hash, int>,
    purged: Option<Hash>,
    listedShards: map<Hash, int>)

  type Id = nat

  datatype World = World(st: State, uploads: map<Hash, Upload>, pending: map<Id, Pending>, passes: map<Id, Sweep>)

  const START: World := World(EMPTY, map[], map[], map[])

  datatype Move =
    | StoreBlob(hash: Hash, body: seq<Byte>, at: int)
    | WriteRows(hash: Hash)
    | WriteLayout(hash: Hash)
    | Validate(reg: Id, owner: Owner, shardBody: seq<Byte>, registeredAt: int)
    | StoreShard(reg: Id)
    | IndexShard(reg: Id)
    | Release(caller: Caller, file: Hash)
    | Mark(pass: Id, now: int, grace: int)
    | ReadShard(pass: Id, hash: Hash)
    | ListXorbs(pass: Id)
    | PurgeIndex(pass: Id, hash: Hash)
    | DeleteBlob(pass: Id, hash: Hash)
    | ListShards(pass: Id)
    | DeleteShard(pass: Id, hash: Hash)
    | EndPass(pass: Id)
    | AbortPass(pass: Id)

  function Listing(m: map<Hash, Blob>): map<Hash, int> {
    map h | h in m :: m[h].mtime
  }

  // What the sweep loops test on a listed object.
  predicate Condemns(kept: set<Hash>, now: int, grace: int, listed: map<Hash, int>, h: Hash) {
    h in listed && h !in kept && !InGrace(now, grace, listed[h])
  }

  predicate XorbCondemned(s: Sweep, h: Hash) {
    Condemns(s.reachable, s.now, s.grace, s.listedXorbs, h)
  }

  predicate ShardCondemned(s: Sweep, h: Hash) {
    Condemns(s.live, s.now, s.grace, s.listedShards, h)
  }

  predicate XorbsDone(s: Sweep) {
    forall h :: h in s.listedXorbs ==> !XorbCondemned(s, h)
  }

  predicate ShardsDone(s: Sweep) {
    forall h :: h in s.listedShards ==> !ShardCondemned(s, h)
  }

  // Whether a move can happen at all. Nothing keeps handlers apart, except that two uploads of
  // one xorb do not overlap. A pass may stop early at any point.
  predicate Enabled(x: Xet, w: World, m: Move) {
    match m
    case StoreBlob(h, body, _) => AcceptsXorb(x, w.st, h, body) && h !in w.uploads
    case WriteRows(h) => h in w.uploads && w.uploads[h].stage == RowsDue
    case WriteLayout(h) => h in w.uploads && w.uploads[h].stage == LayoutDue
    case Validate(r, _, body, _) => r !in w.pending && ValidUpload(x, w.st.xorbs, body)
    case StoreShard(r) => r in w.pending && !w.pending[r].stored
    case IndexShard(r) => r in w.pending && w.pending[r].stored
    case Release(_, _) => true
    case Mark(p, _, _) => p !in w.passes
    case ReadShard(p, h) => p in w.passes && Allows(w.passes[p], m) && !CorruptShard(x, w.st, h)
    case _ => m.pass in w.passes && Allows(w.passes[m.pass], m)
  }

  predicate Allows(s: Sweep, m: Move) {
    match m
    case ReadShard(_, h) => s.phase == Marking && h in s.unread
    case ListXorbs(_) => s.phase == Marking && s.unread == {}
    case PurgeIndex(_, h) => s.phase == SweepingXorbs && s.purged.None? && XorbCondemned(s, h)
    case DeleteBlob(_, h) => s.phase == SweepingXorbs && s.purged == Some(h)
    case ListShards(_) => s.phase == SweepingXorbs && s.purged.None? && XorbsDone(s)
    case DeleteShard(_, h) => s.phase == SweepingShards && ShardCondemned(s, h)
    case EndPass(_) => s.phase == SweepingShards && ShardsDone(s)
    case AbortPass(_) => true
    case _ => false
  }

  // The index writes of a registration, with the sizes its validation found.
  function Indexed(x: Xet, st: State, p: Pending): State {
    if x.parseShard(p.body).None? then st
    else
      var shard := x.parseShard(p.body).value;
      st.(
        fileIndex := IndexFiles(st.fileIndex, shard.files, x.dataHash(p.body)),
        claims := ClaimFiles(x, p.seen, st.claims, shard.files, p.owner, p.at),
        rows := PutBatch(st.rows, CasRows(shard.cas)))
  }

  function NextState(x: Xet, w: World, m: Move): State
    requires Enabled(x, w, m)
  {
    var st := w.st;
    match m
    case StoreBlob(h, body, at) => st.(xorbs := PutAbsent(st.xorbs, h, body, at))
    case WriteRows(h) => st.(rows := PutBatch(st.rows, XorbRows(h, HashesOf(x, FramesOf(x, w.uploads[h].body)))))
    case WriteLayout(h) => st.(layouts := st.layouts[h := BodyLayout(x, w.uploads[h].body)])
    case StoreShard(r) =>
      var p := w.pending[r];
      st.(shards := PutAbsent(st.shards, x.dataHash(p.body), p.body, p.at))
    case IndexShard(r) => Indexed(x, st, w.pending[r])
    case Release(caller, f) => Delete(st, caller, f)
    case PurgeIndex(_, h) => st.(rows := DropAllRows(st.rows, {h}), layouts := st.layouts - {h})
    case DeleteBlob(_, h) => st.(xorbs := st.xorbs - {h})
    case DeleteShard(_, h) => st.(shards := st.shards - {h})
    case _ => st
  }

  function NextUploads(x: Xet, w: World, m: Move): map<Hash, Upload>
    requires Enabled(x, w, m)
  {
    match m
    case StoreBlob(h, body, _) => w.uploads[h := Upload(body, RowsDue)]
    case WriteRows(h) => w.uploads[h := w.uploads[h].(stage := LayoutDue)]
    case WriteLayout(h) => w.uploads - {h}
    case _ => w.uploads
  }

  function NextPending(x: Xet, w: World, m: Move): map<Id, Pending>
    requires Enabled(x, w, m)
  {
    match m
    case Validate(r, owner, body, at) => w.pending[r := Pending(owner, body, at, w.st.xorbs, false)]
    case StoreShard(r) => w.pending[r := w.pending[r].(stored := true)]
    case IndexShard(r) => w.pending - {r}
    case _ => w.pending
  }

  function NextPasses(x: Xet, w: World, m: Move): map<Id, Sweep>
    requires Enabled(x, w, m)
  {
    match m
    case Mark(p, now, grace) =>
      w.passes[p := Sweep(w.st.fileIndex, LiveShards(w.st), LiveShards(w.st), {}, now, grace, Marking, map[], None, map[])]
    case EndPass(p) => w.passes - {p}
    case AbortPass(p) => w.passes - {p}
    case ReadShard(p, _) => w.passes[p := NextSweep(x, w.st, w.passes[p], m)]
    case ListXorbs(p) => w.passes[p := NextSweep(x, w.st, w.passes[p], m)]
    case PurgeIndex(p, _) => w.passes[p := NextSweep(x, w.st, w.passes[p], m)]
    case DeleteBlob(p, _) => w.passes[p := NextSweep(x, w.st, w.passes[p], m)]
    case ListShards(p) => w.passes[p := NextSweep(x, w.st, w.passes[p], m)]
    case DeleteShard(p, _) => w.passes[p := NextSweep(x, w.st, w.passes[p], m)]
    case _ => w.passes
  }

  function NextSweep(x: Xet, st: State, s: Sweep, m: Move): Sweep {
    match m
    case ReadShard(_, h) =>
      s.(unread := s.unread - {h}, reachable := s.reachable + BlockXorbs(s.index, ShardFiles(x, st.shards, h), h))
    case ListXorbs(_) => s.(phase := SweepingXorbs, listedXorbs := Listing(st.xorbs))
    case PurgeIndex(_, h) => s.(purged := Some(h))
    case DeleteBlob(_, h) => s.(purged := None, listedXorbs := s.listedXorbs - {h})
    case ListShards(_) => s.(phase := SweepingShards, listedShards := Listing(st.shards))
    case DeleteShard(_, h) => s.(listedShards := s.listedShards - {h})
    case _ => s
  }

  function Next(x: Xet, w: World, m: Move): World
    requires Enabled(x, w, m)
  {
    World(NextState(x, w, m), NextUploads(x, w, m), NextPending(x, w, m), NextPasses(x, w, m))
  }

  /** Each move of a run is enabled where it happens. */
  ghost predicate Possible(x: Xet, w: World, moves: seq<Move>)
    decreases |moves|
  {
    moves == [] || (Enabled(x, w, moves[0]) && Possible(x, Next(x, w, moves[0]), moves[1..]))
  }

  ghost function Play(x: Xet, w: World, moves: seq<Move>): World
    requires Possible(x, w, moves)
    decreases |moves|
  {
    if moves == [] then w else Play(x, Next(x, w, moves[0]), moves[1..])
  }

  lemma {:induction false} PlayFirst(x: Xet, w: World, m: Move, rest: seq<Move>)
    requires Enabled(x, w, m) && Possible(x, Next(x, w, m), rest)
    ensures Possible(x, w, [m] + rest) && Play(x, w, [m] + rest) == Play(x, Next(x, w, m), rest)
  {
    hide Enabled, Next;
    assert ([m] + rest)[1..] == rest;
  }

  lemma {:induction false} PlayLast(x: Xet, w: World, m: Move)
    requires Enabled(x, w, m)
    ensures Possible(x, w, [m]) && Play(x, w, [m]) == Next(x, w, m)
  {
    hide Enabled, Next;
    assert [m][1..] == [];
  }

  lemma {:induction false} PlayBoth(x: Xet, w: World, first: seq<Move>, rest: seq<Move>)
    requires Possible(x, w, first) && Possible(x, Play(x, w, first), rest)
    ensures Possible(x, w, first + rest) && Play(x, w, first + rest) == Play(x, Play(x, w, first), rest)
    decreases |first|
  {
    hide Enabled, Next;
    if first == [] {
      assert first + rest == rest;
    } else {
      PlayBoth(x, Next(x, w, first[0]), first[1..], rest);
      PlayFirst(x, w, first[0], first[1..] + rest);
      assert [first[0]] + (first[1..] + rest) == first + rest;
    }
  }

  // ---- what the passes under way will delete ----

  // The pass keeps this stored object: marked, or young.
  predicate Spares(kept: set<Hash>, now: int, grace: int, m: map<Hash, Blob>, h: Hash) {
    h in kept || (h in m && InGrace(now, grace, m[h].mtime))
  }

  // What the pass has marked, and what it will mark in the shards it has still to read.
  function ToMark(x: Xet, shards: map<Hash, Blob>, s: Sweep): set<Hash> {
    s.reachable + set t, h | t in s.unread && h in BlockXorbs(s.index, ShardFiles(x, shards, t), t) :: h
  }

  predicate XorbSpared(x: Xet, st: State, s: Sweep, h: Hash) {
    Spares(ToMark(x, st.shards, s), s.now, s.grace, st.xorbs, h)
  }

  predicate ShardSpared(s: Sweep, shards: map<Hash, Blob>, h: Hash) {
    Spares(s.live, s.now, s.grace, shards, h)
  }

  // Once an object is listed the list decides, whatever became of the object since.
  predicate DoomsXorb(x: Xet, st: State, s: Sweep, h: Hash) {
    match s.phase
    case Marking => h in st.xorbs && !XorbSpared(x, st, s, h)
    case SweepingXorbs => XorbCondemned(s, h)
    case SweepingShards => false
  }

  predicate DoomsShard(st: State, s: Sweep, h: Hash) {
    match s.phase
    case SweepingShards => ShardCondemned(s, h)
    case _ => h in st.shards && !ShardSpared(s, st.shards, h)
  }

  ghost predicate XorbDoomed(x: Xet, w: World, h: Hash) {
    exists p :: p in w.passes && DoomsXorb(x, w.st, w.passes[p], h)
  }

  ghost predicate ShardDoomed(w: World, h: Hash) {
    exists p :: p in w.passes && DoomsShard(w.st, w.passes[p], h)
  }

  // A pass lists when it has read every live shard, and deletes nothing its list does not condemn.
  predicate InOrder(s: Sweep) {
    && (s.phase != Marking ==> s.unread == {})
    && s.unread <= s.live
    && (s.purged.Some? ==> s.phase == SweepingXorbs && XorbCondemned(s, s.purged.value))
  }

  ghost predicate Consistent(w: World) {
    forall p :: p in w.passes ==> InOrder(w.passes[p])
  }

  lemma {:induction false} StaysInOrder(x: Xet, st: State, s: Sweep, m: Move)
    requires InOrder(s) && Allows(s, m)
    ensures InOrder(NextSweep(x, st, s, m))
  {
    hide BlockXorbs, ShardFiles, Listing, InGrace, XorbsDone, ShardsDone;
  }

  lemma {:induction false} MoveConsistent(x: Xet, w: World, m: Move)
    requires Consistent(w) && Enabled(x, w, m)
    ensures Consistent(Next(x, w, m))
  {
    hide NextState, NextUploads, NextPending, AcceptsXorb, ValidUpload, Allows, InOrder, NextSweep, LiveShards, CorruptShard;
    BeginsInOrder(LiveShards(w.st), w.st.fileIndex);
    forall p | p in w.passes ensures Allows(w.passes[p], m) ==> InOrder(NextSweep(x, w.st, w.passes[p], m)) {
      if Allows(w.passes[p], m) {
        StaysInOrder(x, w.st, w.passes[p], m);
      }
    }
  }

  lemma {:induction false} BeginsInOrder(live: set<Hash>, index: map<Hash, Hash>)
    ensures forall now, grace :: InOrder(Sweep(index, live, live, {}, now, grace, Marking, map[], None, map[]))
  {
  }

  lemma {:induction false} RunConsistent(x: Xet, w: World, moves: seq<Move>)
    requires Consistent(w) && Possible(x, w, moves)
    ensures Consistent(Play(x, w, moves))
    decreases |moves|
  {
    hide Consistent, Enabled, Next;
    if moves != [] {
      MoveConsistent(x, w, moves[0]);
      RunConsistent(x, Next(x, w, moves[0]), moves[1..]);
    }
  }

  // What each move does to the two object tables.
  lemma {:induction false} DeleteKeepsObjects(st: State, caller: Caller, f: Hash)
    ensures var next := Delete(st, caller, f);
      && next.xorbs == st.xorbs && next.shards == st.shards && next.layouts == st.layouts
      && forall g :: g in next.fileIndex ==> g in st.fileIndex && next.fileIndex[g] == st.fileIndex[g]
  {
    hide Owners;
  }

  lemma {:induction false} MoveXorbs(x: Xet, w: World, m: Move)
    requires Enabled(x, w, m)
    ensures Next(x, w, m).st.xorbs ==
      match m
      case StoreBlob(h, body, at) => PutAbsent(w.st.xorbs, h, body, at)
      case DeleteBlob(_, h) => w.st.xorbs - {h}
      case _ => w.st.xorbs
    ensures Next(x, w, m).st.shards ==
      match m
      case StoreShard(r) => PutAbsent(w.st.shards, x.dataHash(w.pending[r].body), w.pending[r].body, w.pending[r].at)
      case DeleteShard(_, h) => w.st.shards - {h}
      case _ => w.st.shards
  {
    hide AcceptsXorb, ValidUpload, PutBatch, BodyLayout, DropAllRows, IndexFiles, ClaimFiles, Delete, Allows;
    if m.Release? {
      DeleteKeepsObjects(w.st, m.caller, m.file);
    }
  }

  // The move takes no shard away that a pass under way has still to read.
  predicate Harmless(w: World, m: Move) {
    m.DeleteShard? && m.hash in w.st.shards ==> forall p :: p in w.passes ==> m.hash !in w.passes[p].unread
  }

  lemma {:induction false} ToMarkHas(x: Xet, shards: map<Hash, Blob>, s: Sweep, h: Hash)
    ensures h in ToMark(x, shards, s) <==>
      h in s.reachable || exists t :: t in s.unread && h in BlockXorbs(s.index, ShardFiles(x, shards, t), t)
  {
    hide BlockXorbs, ShardFiles;
  }

  // What a move leaves of a pass that is marking.
  lemma {:induction false} StillMarking(x: Xet, w: World, m: Move, p: Id)
    requires Enabled(x, w, m) && p in w.passes && p in Next(x, w, m).passes && !(m.Mark? && m.pass == p)
    ensures var s, t := w.passes[p], Next(x, w, m).passes[p];
      && t.now == s.now && t.grace == s.grace && t.live == s.live && t.index == s.index
      && t.unread == (if m.ReadShard? && m.pass == p then s.unread - {m.hash} else s.unread)
      && t.reachable ==
           if m.ReadShard? && m.pass == p then s.reachable + BlockXorbs(s.index, ShardFiles(x, w.st.shards, m.hash), m.hash)
           else s.reachable
    ensures m.ReadShard? && m.pass == p ==> m.hash in w.passes[p].unread
  {
    hide AcceptsXorb, NextState, NextUploads, NextPending, ValidUpload, BlockXorbs, ShardFiles, Condemns, XorbsDone, ShardsDone,
      LiveShards, CorruptShard;
  }

  lemma {:induction false} FilesOfShard(x: Xet, w: World, m: Move, t: Hash)
    requires Enabled(x, w, m)
    ensures !(m.DeleteShard? && m.hash == t) && t in w.st.shards ==>
      ShardFiles(x, Next(x, w, m).st.shards, t) == ShardFiles(x, w.st.shards, t)
    ensures t !in w.st.shards ==> ShardFiles(x, w.st.shards, t) == []
    ensures !m.StoreShard? && t !in w.st.shards ==> ShardFiles(x, Next(x, w, m).st.shards, t) == []
    ensures m.DeleteShard? && m.hash == t ==> ShardFiles(x, Next(x, w, m).st.shards, t) == []
  {
    hide Enabled, Next;
    MoveXorbs(x, w, m);
  }

  // Harmless moves take nothing away from what a pass will have marked.
  lemma {:induction false} MarksStay(x: Xet, w: World, m: Move, p: Id, h: Hash)
    requires Enabled(x, w, m) && Harmless(w, m) && p in w.passes && p in Next(x, w, m).passes && !(m.Mark? && m.pass == p)
    requires h in ToMark(x, w.st.shards, w.passes[p])
    ensures h in ToMark(x, Next(x, w, m).st.shards, Next(x, w, m).passes[p])
  {
    hide Enabled, Next, BlockXorbs, ShardFiles, ToMark;
    var s, next := w.passes[p], Next(x, w, m);
    ToMarkHas(x, w.st.shards, s, h);
    ToMarkHas(x, next.st.shards, next.passes[p], h);
    StillMarking(x, w, m, p);
    if h !in s.reachable {
      var t :| t in s.unread && h in BlockXorbs(s.index, ShardFiles(x, w.st.shards, t), t);
      NoFilesNoMarks(s.index, t);
      FilesOfShard(x, w, m, t);
    }
  }

  lemma {:induction false} NoFilesNoMarks(index: map<Hash, Hash>, t: Hash)
    ensures BlockXorbs(index, [], t) == {}
  {
  }

  lemma {:induction false} AllRead(x: Xet, shards: map<Hash, Blob>, s: Sweep)
    requires s.unread == {}
    ensures ToMark(x, shards, s) == s.reachable
  {
  }

  lemma {:induction false} NewlyDooms(x: Xet, w: World, m: Move, p: Id, h: Hash)
    requires Enabled(x, w, m) && Harmless(w, m) && p in w.passes && p in Next(x, w, m).passes && !(m.Mark? && m.pass == p)
    requires DoomsXorb(x, Next(x, w, m).st, Next(x, w, m).passes[p], h)
    ensures DoomsXorb(x, w.st, w.passes[p], h) || (m.StoreBlob? && m.hash == h)
  {
    hide AcceptsXorb, NextState, NextUploads, NextPending, ValidUpload, InGrace, LiveShards, ShardsDone, ToMark, BlockXorbs, ShardFiles;
    MoveXorbs(x, w, m);
    StillMarking(x, w, m, p);
    if m.ListXorbs? && m.pass == p {
      AllRead(x, w.st.shards, w.passes[p]);
    }
    if h in ToMark(x, w.st.shards, w.passes[p]) {
      MarksStay(x, w, m, p, h);
    }
  }

  // Only storing an xorb, or marking, can doom it.
  lemma {:induction false} NewlyDoomedXorb(x: Xet, w: World, m: Move, h: Hash)
    requires Enabled(x, w, m) && Harmless(w, m) && XorbDoomed(x, Next(x, w, m), h)
    ensures
      || XorbDoomed(x, w, h)
      || (m.StoreBlob? && m.hash == h)
      || (m.Mark? && DoomsXorb(x, w.st, Next(x, w, m).passes[m.pass], h))
  {
    var next := Next(x, w, m);
    var p :| p in next.passes && DoomsXorb(x, next.st, next.passes[p], h);
    PassesBefore(x, w, m, p);
    hide Enabled, Next, XorbDoomed, DoomsXorb, Harmless;
    if !(m.Mark? && m.pass == p) {
      NewlyDooms(x, w, m, p, h);
      DoomedBy(x, w, p, h);
    }
  }

  lemma {:induction false} PassesBefore(x: Xet, w: World, m: Move, p: Id)
    requires Enabled(x, w, m) && p in Next(x, w, m).passes
    ensures (m.Mark? && m.pass == p) || p in w.passes
    ensures m.Mark? ==> Next(x, w, m).st == w.st
  {
    hide AcceptsXorb, NextState, NextUploads, NextPending, ValidUpload, Allows;
    if m.Mark? {
      OtherMovesKeepState(x, w, m);
    }
  }

  lemma {:induction false} DoomedBy(x: Xet, w: World, p: Id, h: Hash)
    requires p in w.passes
    ensures DoomsXorb(x, w.st, w.passes[p], h) ==> XorbDoomed(x, w, h)
    ensures DoomsShard(w.st, w.passes[p], h) ==> ShardDoomed(w, h)
  {
  }

  lemma {:induction false} NewlyDoomedShard(x: Xet, w: World, m: Move, h: Hash)
    requires Enabled(x, w, m) && ShardDoomed(Next(x, w, m), h)
    ensures
      || ShardDoomed(w, h)
      || (m.StoreShard? && x.dataHash(w.pending[m.reg].body) == h && h !in w.st.shards)
      || (m.Mark? && DoomsShard(w.st, Next(x, w, m).passes[m.pass], h))
  {
    hide AcceptsXorb, NextState, NextUploads, NextPending, ValidUpload, InGrace, Reachable, LiveShards, XorbsDone;
    MoveXorbs(x, w, m);
    var next := Next(x, w, m);
    var p :| p in next.passes && DoomsShard(next.st, next.passes[p], h);
    hide ShardDoomed;
    if p in w.passes && !(m.Mark? && m.pass == p) {
      assert DoomsShard(w.st, w.passes[p], h)
        || (m.StoreShard? && x.dataHash(w.pending[m.reg].body) == h && h !in w.st.shards);
      DoomedBy(x, w, p, h);
    }
  }

  // What a pass deletes was doomed.
  lemma {:induction false} DeletedIsDoomed(x: Xet, w: World, m: Move)
    requires Consistent(w) && Enabled(x, w, m)
    ensures m.DeleteBlob? ==> XorbDoomed(x, w, m.hash)
    ensures m.DeleteShard? ==> ShardDoomed(w, m.hash)
  {
    hide InGrace;
    if m.DeleteBlob? || m.DeleteShard? {
      DoomedBy(x, w, m.pass, m.hash);
    }
  }

  // ---- what is safe, and when ----

  // Xorb h is part of a block about f.
  ghost predicate Uses(files: seq<FileBlock>, f: Hash, h: Hash) {
    exists i, k :: 0 <= i < |files| && files[i].hash == f && 0 <= k < |files[i].entries| && files[i].entries[k].term.xorb == h
  }

  // A block of the uploaded shard is about this file.
  predicate Declares(x: Xet, body: seq<Byte>, file: Hash) {
    x.parseShard(body).Some? && About(x.parseShard(body).value.files, file)
  }

  ghost predicate DeclaredUses(x: Xet, body: seq<Byte>, file: Hash, h: Hash) {
    x.parseShard(body).Some? && Uses(x.parseShard(body).value.files, file, h)
  }

  // Neither the shard the file resolves to nor a xorb it uses is about to be deleted.
  ghost predicate AvoidsDoomed(x: Xet, w: World, f: Hash)
    requires f in w.st.fileIndex
  {
    && !ShardDoomed(w, w.st.fileIndex[f])
    && forall h :: Uses(ShardFiles(x, w.st.shards, w.st.fileIndex[f]), f, h) ==> !XorbDoomed(x, w, h)
  }

  // The same of a registration under way.
  ghost predicate PendingAvoids(x: Xet, w: World, r: Id)
    requires r in w.pending
  {
    && (w.pending[r].stored ==> !ShardDoomed(w, x.dataHash(w.pending[r].body)))
    && forall f, h :: DeclaredUses(x, w.pending[r].body, f, h) ==> !XorbDoomed(x, w, h)
  }

  ghost predicate AllPendingAvoid(x: Xet, w: World) {
    forall r :: r in w.pending ==> PendingAvoids(x, w, r)
  }

  // What validation found still holds: the xorbs it saw are stored, and its shard once put.
  ghost predicate PendingTrue(x: Xet, st: State, p: Pending) {
    && ValidUpload(x, p.seen, p.body)
    && (forall f, h :: DeclaredUses(x, p.body, f, h) ==> KeepsXorb(p.seen, st.xorbs, h))
    && (p.stored ==> x.dataHash(p.body) in st.shards)
  }

  // Everything the stored state is to satisfy but for the layout table.
  ghost predicate FilesInv(x: Xet, st: State) {
    Inv(x, st.(layouts := map[]))
  }

  ghost predicate Safe(x: Xet, w: World) {
    && FilesInv(x, w.st) && Consistent(w)
    && (forall r :: r in w.pending ==> PendingTrue(x, w.st, w.pending[r]))
    && (forall f :: f in w.st.fileIndex ==> AvoidsDoomed(x, w, f))
  }

  // ---- files and claims ----

  lemma {:induction false} StoreBlobKeepsInv(x: Xet, st: State, h: Hash, body: seq<Byte>, at: int)
    requires Trusted(x) && Inv(x, st) && AcceptsXorb(x, st, h, body)
    ensures Inv(x, st.(xorbs := PutAbsent(st.xorbs, h, body, at)))
  {
    hide BodyLayout, ClaimsSized, Owners, RowsDistinct, FilesSound, AcceptsXorb, BlobsSound, ShardsSound, Trusted;
    NewBlobIsSound(x, st, h, body, at);
    NewBlobKeepsFiles(x, st, h, body, at);
  }

  lemma {:induction false} NewBlobKeepsFiles(x: Xet, st: State, h: Hash, body: seq<Byte>, at: int)
    requires FilesSound(x, st)
    ensures FilesSound(x, st.(xorbs := PutAbsent(st.xorbs, h, body, at)))
  {
    var next := st.(xorbs := PutAbsent(st.xorbs, h, body, at));
    hide FileSound;
    forall f | f in next.fileIndex ensures FileSound(x, next, f) {
      assert FileSound(x, st, f);
      NewXorbKeepsFile(x, st, next, f);
    }
  }

  lemma {:induction false} NewBlobIsSound(x: Xet, st: State, h: Hash, body: seq<Byte>, at: int)
    requires Trusted(x) && BlobsSound(x, st.xorbs) && AcceptsXorb(x, st, h, body)
    ensures BlobsSound(x, PutAbsent(st.xorbs, h, body, at))
  {
    AcceptedIsSound(x, body, h);
    hide SoundBody, ValidatedInfo, FootersChecked;
  }

  lemma {:induction false} RowsKeepInv(x: Xet, a: State, b: State)
    requires Inv(x, a) && b == a.(rows := b.rows) && RowsDistinct(b.rows)
    ensures Inv(x, b)
  {
    hide FileIn, RowsDistinct, ClaimsSized, BlobsSound;
    forall f | f in b.fileIndex ensures FileSound(x, b, f) {
      assert FileSound(x, a, f);
    }
  }

  lemma {:induction false} PutRowsKeepInv(x: Xet, st: State, entries: seq<Row>)
    requires Inv(x, st)
    ensures Inv(x, st.(rows := PutBatch(st.rows, entries)))
  {
    PutBatchDistinct(st.rows, entries);
    RowsKeepInv(x, st, st.(rows := PutBatch(st.rows, entries)));
  }

  lemma {:induction false} DropRowsKeepInv(x: Xet, st: State, h: Hash)
    requires Inv(x, st)
    ensures Inv(x, st.(rows := DropAllRows(st.rows, {h})))
  {
    DropAllDistinct(st.rows, {h});
    RowsKeepInv(x, st, st.(rows := DropAllRows(st.rows, {h})));
  }

  lemma {:induction false} StoreShardKeepsInv(x: Xet, st: State, body: seq<Byte>, at: int)
    requires Trusted(x) && Inv(x, st) && x.parseShard(body).Some?
    ensures Inv(x, st.(shards := PutAbsent(st.shards, x.dataHash(body), body, at)))
  {
    var next := st.(shards := PutAbsent(st.shards, x.dataHash(body), body, at));
    StoredShardIsUpload(x, st.shards, body, at);
    hide FileIn, BlobsSound, ShardsSound, ClaimsSized, BodyLayout, RowsDistinct, PutAbsent, ShardFiles;
    forall f | f in next.fileIndex ensures FileSound(x, next, f) {
      assert FileSound(x, st, f);
    }
  }

  // A blob nobody uses and no layout describes can go.
  lemma {:induction false} DeleteBlobKeepsInv(x: Xet, st: State, h: Hash)
    requires Inv(x, st) && h !in st.layouts
    requires forall f :: f in st.fileIndex ==> !Uses(ShardFiles(x, st.shards, st.fileIndex[f]), f, h)
    ensures Inv(x, st.(xorbs := st.xorbs - {h}))
  {
    var next := st.(xorbs := st.xorbs - {h});
    hide SoundBody, BodyLayout, ClaimsSized, ShardFiles, FileIn, Uses;
    forall f | f in next.fileIndex ensures FileSound(x, next, f) {
      assert FileSound(x, st, f);
      UnusedCanGo(x, st.xorbs, ShardFiles(x, st.shards, st.fileIndex[f]), f, {h});
    }
  }

  lemma {:induction false} UnusedCanGo(x: Xet, xorbs: map<Hash, Blob>, files: seq<FileBlock>, f: Hash, gone: set<Hash>)
    requires FileIn(x, xorbs, files, f) && forall h :: Uses(files, f, h) ==> h !in gone
    ensures FileIn(x, xorbs - gone, files, f)
  {
    hide FileIn;
    forall i, k | 0 <= i < |files| && files[i].hash == f && 0 <= k < |files[i].entries|
      ensures KeepsXorb(xorbs, xorbs - gone, files[i].entries[k].term.xorb)
    {
      assert Uses(files, f, files[i].entries[k].term.xorb);
    }
    FileInKept(x, xorbs, xorbs - gone, files, f);
  }

  lemma {:induction false} DeleteShardKeepsInv(x: Xet, st: State, h: Hash)
    requires Inv(x, st) && forall f :: f in st.fileIndex ==> st.fileIndex[f] != h
    ensures Inv(x, st.(shards := st.shards - {h}))
  {
    var next := st.(shards := st.shards - {h});
    hide FileIn, BlobsSound, ClaimsSized, BodyLayout, RowsDistinct;
    forall f | f in next.fileIndex ensures FileSound(x, next, f) {
      assert FileSound(x, st, f);
      assert ShardFiles(x, next.shards, st.fileIndex[f]) == ShardFiles(x, st.shards, st.fileIndex[f]);
    }
  }

  lemma {:induction false} InvHasSoundShards(x: Xet, st: State)
    requires Inv(x, st)
    ensures ShardsSound(x, st.shards)
  {
  }

  lemma {:induction false} InvHasSoundFile(x: Xet, st: State, f: Hash)
    requires Inv(x, st) && f in st.fileIndex
    ensures FileSound(x, st, f)
  {
  }

  lemma {:induction false} SafeFile(x: Xet, w: World, f: Hash)
    requires FilesInv(x, w.st) && f in w.st.fileIndex
    ensures FileSound(x, w.st, f)
  {
    InvHasSoundFile(x, w.st.(layouts := map[]), f);
    hide Inv, FileIn;
  }

  // ---- a registration, step by step ----

  lemma {:induction false} SoundNeedsXorb(x: Xet, xorbs: map<Hash, Blob>, files: seq<FileBlock>, f: Hash, h: Hash)
    requires FileIn(x, xorbs, files, f) && Uses(files, f, h)
    ensures h in xorbs
  {
    var i, k :| 0 <= i < |files| && files[i].hash == f && 0 <= k < |files[i].entries| && files[i].entries[k].term.xorb == h;
    assert ValidFile(x, xorbs, files[i]);
    assert ValidTerm(x, xorbs, files[i].entries[k]);
  }

  lemma {:induction false} ValidNeedsXorb(x: Xet, xorbs: map<Hash, Blob>, body: seq<Byte>, f: Hash, h: Hash)
    requires ValidUpload(x, xorbs, body) && DeclaredUses(x, body, f, h)
    ensures h in xorbs
  {
    hide FileChunks, TermFrames, FramesOf;
    var files := x.parseShard(body).value.files;
    var i, k :| 0 <= i < |files| && files[i].hash == f && 0 <= k < |files[i].entries| && files[i].entries[k].term.xorb == h;
    assert ValidFile(x, xorbs, files[i]);
    assert ValidTerm(x, xorbs, files[i].entries[k]);
  }

  lemma {:induction false} BlockKept(x: Xet, a: map<Hash, Blob>, b: map<Hash, Blob>, body: seq<Byte>, i: nat)
    requires ValidUpload(x, a, body) && i < |x.parseShard(body).value.files|
    requires forall h :: DeclaredUses(x, body, x.parseShard(body).value.files[i].hash, h) ==> KeepsXorb(a, b, h)
    ensures var block := x.parseShard(body).value.files[i];
      ValidFile(x, b, block) && FileChunks(x, b, block.entries) == FileChunks(x, a, block.entries)
  {
    var files := x.parseShard(body).value.files;
    var block := files[i];
    assert ValidFile(x, a, block);
    hide ValidUpload;
    forall k | 0 <= k < |block.entries|
      ensures KeepsXorb(a, b, block.entries[k].term.xorb) && TermInStore(x, a, block.entries[k].term)
    {
      assert Uses(files, block.hash, block.entries[k].term.xorb);
      assert DeclaredUses(x, body, block.hash, block.entries[k].term.xorb);
      assert ValidTerm(x, a, block.entries[k]);
    }
    hide FileChunks, TermFrames, FramesOf, KeepsXorb, DeclaredUses;
    ValidFileKept(x, a, b, block);
    ChunksKept(x, a, b, block.entries);
  }

  lemma {:induction false} SameClaims(
    x: Xet, a: map<Hash, Blob>, b: map<Hash, Blob>, claims: map<(Hash, Owner), Claim>, files: seq<FileBlock>, owner: Owner, at: int)
    requires forall i :: 0 <= i < |files| ==> FileChunks(x, b, files[i].entries) == FileChunks(x, a, files[i].entries)
    ensures ClaimFiles(x, b, claims, files, owner, at) == ClaimFiles(x, a, claims, files, owner, at)
  {
    hide Upsert, FileChunks;
    if files != [] {
      SameClaims(x, a, b, claims, files[..|files| - 1], owner, at);
    }
  }

  // What is valid stays so while the xorbs it uses are kept, and is claimed at the same sizes.
  lemma {:induction false} ValidKept(
    x: Xet, a: map<Hash, Blob>, b: map<Hash, Blob>, body: seq<Byte>, claims: map<(Hash, Owner), Claim>, owner: Owner, at: int)
    requires ValidUpload(x, a, body)
    requires forall f, h :: DeclaredUses(x, body, f, h) ==> KeepsXorb(a, b, h)
    ensures ValidUpload(x, b, body)
    ensures ClaimFiles(x, b, claims, x.parseShard(body).value.files, owner, at)
      == ClaimFiles(x, a, claims, x.parseShard(body).value.files, owner, at)
  {
    var files := x.parseShard(body).value.files;
    forall i | 0 <= i < |files|
      ensures ValidFile(x, b, files[i]) && FileChunks(x, b, files[i].entries) == FileChunks(x, a, files[i].entries)
    {
      BlockKept(x, a, b, body, i);
    }
    hide ValidFile, FileChunks, ClaimFiles, DeclaredUses, KeepsXorb;
    SameClaims(x, a, b, claims, files, owner, at);
  }

  // The last step of a registration does what the handler as one step would do now.
  lemma {:induction false} IndexedIsRegistered(x: Xet, st: State, p: Pending)
    requires PendingTrue(x, st, p) && p.stored
    ensures ValidUpload(x, st.xorbs, p.body)
    ensures Indexed(x, st, p) == Register(x, st, p.owner, p.body, p.at)
  {
    ValidKept(x, p.seen, st.xorbs, p.body, st.claims, p.owner, p.at);
    hide ValidFile, ClaimFiles, IndexFiles, PutBatch, CasRows, DeclaredUses;
  }

  lemma {:induction false} StrippedRegister(x: Xet, st: State, owner: Owner, body: seq<Byte>, at: int)
    ensures Register(x, st.(layouts := map[]), owner, body, at) == Register(x, st, owner, body, at).(layouts := map[])
  {
    hide ValidUpload, ClaimFiles, IndexFiles, PutBatch, CasRows;
  }

  lemma {:induction false} StrippedDelete(st: State, caller: Caller, f: Hash)
    ensures Delete(st.(layouts := map[]), caller, f) == Delete(st, caller, f).(layouts := map[])
  {
    hide Owners, WithoutFile;
    StrippedWithout(st, f);
  }

  lemma {:induction false} StrippedWithout(st: State, f: Hash)
    ensures WithoutFile(st.(layouts := map[]), f) == WithoutFile(st, f).(layouts := map[])
  {
  }

  // Three moves in a row are the handler as one step.
  ghost function Registering(r: Id, owner: Owner, body: seq<Byte>, at: int): seq<Move> {
    [Validate(r, owner, body, at), StoreShard(r), IndexShard(r)]
  }

  lemma {:induction false} RegisterIsThreeMoves(x: Xet, w: World, r: Id, owner: Owner, body: seq<Byte>, at: int)
    requires r !in w.pending && ValidUpload(x, w.st.xorbs, body)
    ensures Possible(x, w, Registering(r, owner, body, at))
    ensures Play(x, w, Registering(r, owner, body, at)) == w.(st := Register(x, w.st, owner, body, at))
  {
    hide ValidUpload, ClaimFiles, IndexFiles, PutBatch, CasRows, PutAbsent;
    var m1, m2, m3 := Validate(r, owner, body, at), StoreShard(r), IndexShard(r);
    var a := Next(x, w, m1);
    var b := Next(x, a, m2);
    var c := Next(x, b, m3);
    assert c.pending == w.pending;
    ParsedIfValid(x, w.st.xorbs, body);
    PlayLast(x, b, m3);
    PlayFirst(x, a, m2, [m3]);
    PlayFirst(x, w, m1, [m2] + [m3]);
    assert [m1] + ([m2] + [m3]) == Registering(r, owner, body, at);
  }

  lemma {:induction false} ParsedIfValid(x: Xet, xorbs: map<Hash, Blob>, body: seq<Byte>)
    requires ValidUpload(x, xorbs, body)
    ensures x.parseShard(body).Some?
  {
  }

  // ---- each move keeps files and claims ----

  lemma {:induction false} UnusedIfDoomed(x: Xet, w: World, h: Hash)
    requires Safe(x, w) && XorbDoomed(x, w, h)
    ensures forall f :: f in w.st.fileIndex ==> !Uses(ShardFiles(x, w.st.shards, w.st.fileIndex[f]), f, h)
  {
    hide FilesInv, PendingTrue, XorbDoomed, ShardDoomed, Uses, ShardFiles, Consistent;
    forall f | f in w.st.fileIndex ensures !Uses(ShardFiles(x, w.st.shards, w.st.fileIndex[f]), f, h) {
      assert AvoidsDoomed(x, w, f);
    }
  }

  lemma {:induction false} UnresolvedIfDoomed(x: Xet, w: World, h: Hash)
    requires Safe(x, w) && ShardDoomed(w, h)
    ensures forall f :: f in w.st.fileIndex ==> w.st.fileIndex[f] != h
  {
    hide FilesInv, PendingTrue, XorbDoomed, ShardDoomed, Uses, ShardFiles, Consistent;
    forall f | f in w.st.fileIndex ensures w.st.fileIndex[f] != h {
      assert AvoidsDoomed(x, w, f);
    }
  }

  lemma {:induction false} PassMoveKeepsFiles(x: Xet, w: World, m: Move)
    requires Safe(x, w) && Enabled(x, w, m) && (m.PurgeIndex? || m.DeleteBlob? || m.DeleteShard?)
    ensures FilesInv(x, Next(x, w, m).st)
  {
    hide Inv, AvoidsDoomed, PendingTrue, XorbDoomed, ShardDoomed, Enabled, Next, DropAllRows, Consistent, Uses, ShardFiles;
    var st := w.st.(layouts := map[]);
    DeletedIsDoomed(x, w, m);
    PassMoveState(x, w, m);
    match m {
      case PurgeIndex(_, h) => DropRowsKeepInv(x, st, h);
      case DeleteBlob(_, h) =>
        UnusedIfDoomed(x, w, h);
        DeleteBlobKeepsInv(x, st, h);
      case DeleteShard(_, h) =>
        UnresolvedIfDoomed(x, w, h);
        DeleteShardKeepsInv(x, st, h);
    }
  }

  lemma {:induction false} PassMoveState(x: Xet, w: World, m: Move)
    requires Enabled(x, w, m) && (m.PurgeIndex? || m.DeleteBlob? || m.DeleteShard?)
    ensures Next(x, w, m).st ==
      match m
      case PurgeIndex(_, h) => w.st.(rows := DropAllRows(w.st.rows, {h}), layouts := w.st.layouts - {h})
      case DeleteBlob(_, h) => w.st.(xorbs := w.st.xorbs - {h})
      case DeleteShard(_, h) => w.st.(shards := w.st.shards - {h})
      case _ => w.st
  {
    hide Condemns, DropAllRows;
  }

  lemma {:induction false} WriteKeepsFiles(x: Xet, w: World, m: Move)
    requires Trusted(x) && FilesInv(x, w.st) && Enabled(x, w, m) && (m.StoreBlob? || m.WriteRows? || m.WriteLayout? || m.Release?)
    ensures FilesInv(x, Next(x, w, m).st)
  {
    var st := w.st.(layouts := map[]);
    hide Inv, Trusted, ValidatedInfo, PutBatch, BodyLayout, XorbRows, HashesOf, FramesOf, Delete;
    match m {
      case StoreBlob(h, body, at) => StoreBlobKeepsInv(x, st, h, body, at);
      case WriteRows(h) => PutRowsKeepInv(x, st, XorbRows(h, HashesOf(x, FramesOf(x, w.uploads[h].body))));
      case WriteLayout(_) =>
      case Release(caller, f) =>
        StrippedDelete(w.st, caller, f);
        DeleteKeepsInv(x, st, caller, f);
    }
  }

  lemma {:induction false} RegistrationKeepsFiles(x: Xet, w: World, m: Move)
    requires Trusted(x) && FilesInv(x, w.st) && Enabled(x, w, m) && (m.StoreShard? || m.IndexShard?)
    requires PendingTrue(x, w.st, w.pending[m.reg])
    ensures FilesInv(x, Next(x, w, m).st)
  {
    var st, p := w.st.(layouts := map[]), w.pending[m.reg];
    ParsedIfValid(x, p.seen, p.body);
    hide Inv, Trusted, PutAbsent, Register, Indexed, ValidUpload;
    match m {
      case StoreShard(_) => StoreShardKeepsInv(x, st, p.body, p.at);
      case IndexShard(_) =>
        IndexedIsRegistered(x, w.st, p);
        StrippedRegister(x, w.st, p.owner, p.body, p.at);
        RegisterKeepsInv(x, st, p.owner, p.body, p.at);
    }
  }

  lemma {:induction false} MoveKeepsFiles(x: Xet, w: World, m: Move)
    requires Trusted(x) && Safe(x, w) && Enabled(x, w, m)
    ensures FilesInv(x, Next(x, w, m).st)
  {
    match m {
      case StoreBlob(_, _, _) => WriteKeepsFiles(x, w, m);
      case WriteRows(_) => WriteKeepsFiles(x, w, m);
      case WriteLayout(_) => WriteKeepsFiles(x, w, m);
      case Release(_, _) => WriteKeepsFiles(x, w, m);
      case StoreShard(_) => RegistrationKeepsFiles(x, w, m);
      case IndexShard(_) => RegistrationKeepsFiles(x, w, m);
      case PurgeIndex(_, _) => PassMoveKeepsFiles(x, w, m);
      case DeleteBlob(_, _) => PassMoveKeepsFiles(x, w, m);
      case DeleteShard(_, _) => PassMoveKeepsFiles(x, w, m);
      case _ => OtherMovesKeepState(x, w, m);
    }
    hide Trusted, Inv, AvoidsDoomed, PendingTrue, Enabled, NextState, Consistent;
  }

  lemma {:induction false} OtherMovesKeepState(x: Xet, w: World, m: Move)
    requires Enabled(x, w, m)
    requires m.Validate? || m.Mark? || m.ReadShard? || m.ListXorbs? || m.ListShards? || m.EndPass? || m.AbortPass?
    ensures Next(x, w, m).st == w.st
  {
    hide ValidUpload, Allows;
  }

  // ---- registrations under way stay valid ----

  lemma {:induction false} XorbKept(x: Xet, w: World, m: Move, h: Hash)
    requires Consistent(w) && Enabled(x, w, m) && !XorbDoomed(x, w, h)
    ensures KeepsXorb(w.st.xorbs, Next(x, w, m).st.xorbs, h)
    ensures h in w.st.xorbs ==> h in Next(x, w, m).st.xorbs && Next(x, w, m).st.xorbs[h] == w.st.xorbs[h]
  {
    hide Consistent, Enabled, Next, XorbDoomed, ShardDoomed;
    MoveXorbs(x, w, m);
    DeletedIsDoomed(x, w, m);
  }

  lemma {:induction false} ShardKept(x: Xet, w: World, m: Move, h: Hash)
    requires Consistent(w) && Enabled(x, w, m) && !ShardDoomed(w, h) && h in w.st.shards
    ensures h in Next(x, w, m).st.shards && Next(x, w, m).st.shards[h] == w.st.shards[h]
  {
    hide Consistent, Enabled, Next, XorbDoomed, ShardDoomed;
    MoveXorbs(x, w, m);
    DeletedIsDoomed(x, w, m);
  }

  lemma {:induction false} ShardIsPut(x: Xet, w: World, r: Id)
    requires Enabled(x, w, StoreShard(r))
    ensures x.dataHash(w.pending[r].body) in Next(x, w, StoreShard(r)).st.shards
  {
  }

  lemma {:induction false} NewPending(x: Xet, w: World, m: Move)
    requires Enabled(x, w, m)
    ensures forall r :: r in Next(x, w, m).pending && !(m.Validate? && m.reg == r) ==>
      && r in w.pending
      && Next(x, w, m).pending[r] == if m == StoreShard(r) then w.pending[r].(stored := true) else w.pending[r]
    ensures m.Validate? ==>
      && Next(x, w, m).pending[m.reg] == Pending(m.owner, m.shardBody, m.registeredAt, w.st.xorbs, false)
      && Next(x, w, m).st == w.st && ValidUpload(x, w.st.xorbs, m.shardBody)
  {
    hide ValidUpload, NextPasses, NextUploads, Allows;
  }

  lemma {:induction false} PendingStaysTrue(x: Xet, w: World, m: Move, r: Id)
    requires Safe(x, w) && AllPendingAvoid(x, w) && Enabled(x, w, m) && r in Next(x, w, m).pending
    ensures PendingTrue(x, Next(x, w, m).st, Next(x, w, m).pending[r])
  {
    NewPending(x, w, m);
    hide ValidUpload, Next, Enabled, FilesInv, XorbDoomed, ShardDoomed, KeepsXorb, DeclaredUses, Consistent, AvoidsDoomed;
    var next := Next(x, w, m);
    if m.Validate? && m.reg == r {
      KeptByItself(w.st.xorbs);
    } else {
      var p := w.pending[r];
      assert PendingTrue(x, w.st, p) && PendingAvoids(x, w, r);
      forall f, h | DeclaredUses(x, p.body, f, h) ensures KeepsXorb(p.seen, next.st.xorbs, h) {
        XorbKept(x, w, m, h);
        KeptAgain(p.seen, w.st.xorbs, next.st.xorbs, h);
      }
      if m == StoreShard(r) {
        ShardIsPut(x, w, r);
      } else if p.stored {
        ShardKept(x, w, m, x.dataHash(p.body));
      }
    }
  }

  lemma {:induction false} KeptByItself(m: map<Hash, Blob>)
    ensures forall h :: KeepsXorb(m, m, h)
  {
  }

  lemma {:induction false} KeptAgain(a: map<Hash, Blob>, b: map<Hash, Blob>, c: map<Hash, Blob>, h: Hash)
    requires KeepsXorb(a, b, h) && KeepsXorb(b, c, h)
    ensures KeepsXorb(a, c, h)
  {
  }

  // ---- everything indexed stays out of the passes' way ----

  lemma {:induction false} NewPassSpares(x: Xet, w: World, m: Move)
    requires Enabled(x, w, m) && m.Mark?
    ensures Next(x, w, m).st == w.st && m.pass in Next(x, w, m).passes
    ensures var s := Next(x, w, m).passes[m.pass];
      && (forall h :: h in Reachable(x, w.st) ==> !DoomsXorb(x, w.st, s, h))
      && (forall h :: h in LiveShards(w.st) ==> !DoomsShard(w.st, s, h))
  {
    var s := Next(x, w, m).passes[m.pass];
    MarksReachable(x, w.st, s);
    hide Reachable, LiveShards, InGrace, ToMark;
  }

  // A pass that has just begun will mark everything reachable.
  lemma {:induction false} MarksReachable(x: Xet, st: State, s: Sweep)
    requires s.index == st.fileIndex && s.unread == LiveShards(st) && s.reachable == {}
    ensures ToMark(x, st.shards, s) == Reachable(x, st)
  {
    hide LiveShards, BlockXorbs, ShardFiles;
  }

  lemma {:induction false} UsedIsReachable(x: Xet, st: State, f: Hash)
    requires f in st.fileIndex
    ensures st.fileIndex[f] in LiveShards(st)
    ensures forall h :: Uses(ShardFiles(x, st.shards, st.fileIndex[f]), f, h) ==> h in Reachable(x, st)
  {
    hide Reachable, ShardFiles;
    var files := ShardFiles(x, st.shards, st.fileIndex[f]);
    forall h | Uses(files, f, h) ensures h in Reachable(x, st) {
      var i, k :| 0 <= i < |files| && files[i].hash == f && 0 <= k < |files[i].entries| && files[i].entries[k].term.xorb == h;
      MarkReaches(x, st, f, i, k);
    }
  }

  // A stored xorb a registration or an indexed file uses is not doomed by the next move.
  lemma {:induction false} StaysUndoomed(x: Xet, w: World, m: Move, h: Hash)
    requires Enabled(x, w, m) && Harmless(w, m) && h in w.st.xorbs && !XorbDoomed(x, w, h)
    requires m.Mark? ==> h in Reachable(x, w.st)
    ensures !XorbDoomed(x, Next(x, w, m), h)
  {
    if m.StoreBlob? {
      AcceptedIsNew(x, w, m);
    }
    if m.Mark? {
      NewPassSpares(x, w, m);
    }
    hide Enabled, Next, XorbDoomed, Reachable, DoomsXorb;
    if XorbDoomed(x, Next(x, w, m), h) {
      NewlyDoomedXorb(x, w, m, h);
    }
  }

  lemma {:induction false} AcceptedIsNew(x: Xet, w: World, m: Move)
    requires m.StoreBlob? && Enabled(x, w, m)
    ensures m.hash !in w.st.xorbs && m.hash !in w.uploads
  {
    hide ValidatedInfo;
  }

  lemma {:induction false} ShardStaysUndoomed(x: Xet, w: World, m: Move, h: Hash)
    requires Enabled(x, w, m) && h in w.st.shards && !ShardDoomed(w, h)
    requires m.Mark? ==> h in LiveShards(w.st)
    ensures !ShardDoomed(Next(x, w, m), h)
  {
    if m.Mark? {
      NewPassSpares(x, w, m);
    }
    hide Enabled, Next, ShardDoomed, LiveShards, DoomsShard;
    if ShardDoomed(Next(x, w, m), h) {
      NewlyDoomedShard(x, w, m, h);
    }
  }

  // Which files a move can index anew.
  lemma {:induction false} NewlyIndexed(x: Xet, w: World, m: Move, f: Hash)
    requires Enabled(x, w, m) && f in Next(x, w, m).st.fileIndex
    ensures
      || (f in w.st.fileIndex && Next(x, w, m).st.fileIndex[f] == w.st.fileIndex[f])
      || (m.IndexShard? && Declares(x, w.pending[m.reg].body, f) && w.pending[m.reg].stored
          && Next(x, w, m).st.fileIndex[f] == x.dataHash(w.pending[m.reg].body))
  {
    hide AcceptsXorb, ValidUpload, PutBatch, BodyLayout, DropAllRows, IndexFiles, ClaimFiles, Delete, Allows, About;
    if m.Release? {
      DeleteKeepsObjects(w.st, m.caller, m.file);
    }
    if m.IndexShard? && x.parseShard(w.pending[m.reg].body).Some? {
      IndexedFiles(w.st.fileIndex, x.parseShard(w.pending[m.reg].body).value.files, x.dataHash(w.pending[m.reg].body), f);
    }
  }

  // A stored shard with the hash of an upload is that upload.
  lemma {:induction false} StoredFiles(x: Xet, st: State, body: seq<Byte>)
    requires Trusted(x) && FilesInv(x, st) && x.dataHash(body) in st.shards && x.parseShard(body).Some?
    ensures ShardFiles(x, st.shards, x.dataHash(body)) == x.parseShard(body).value.files
  {
    InvHasSoundShards(x, st.(layouts := map[]));
    StoredShardIsUpload(x, st.shards, body, 0);
    hide Inv, ShardFiles;
  }

  lemma {:induction false} NewFileAvoids(x: Xet, w: World, m: Move, f: Hash)
    requires Trusted(x) && Safe(x, w) && Enabled(x, w, m) && m.IndexShard? && PendingAvoids(x, w, m.reg)
    requires f in Next(x, w, m).st.fileIndex && Declares(x, w.pending[m.reg].body, f)
    requires Next(x, w, m).st.fileIndex[f] == x.dataHash(w.pending[m.reg].body)
    ensures AvoidsDoomed(x, Next(x, w, m), f)
  {
    var body, next := w.pending[m.reg].body, Next(x, w, m);
    assert PendingTrue(x, w.st, w.pending[m.reg]) && w.pending[m.reg].stored;
    MoveXorbs(x, w, m);
    StoredFiles(x, w.st, body);
    ShardStaysUndoomed(x, w, m, x.dataHash(body));
    hide FilesInv, XorbDoomed, ShardDoomed, Enabled, Next, Consistent, ValidUpload, KeepsXorb, Uses, AvoidsDoomed;
    assert ShardFiles(x, next.st.shards, x.dataHash(body)) == x.parseShard(body).value.files by {
      hide PendingTrue;
    }
    forall h | Uses(x.parseShard(body).value.files, f, h) ensures !XorbDoomed(x, next, h) {
      assert DeclaredUses(x, body, f, h);
      ValidNeedsXorb(x, w.pending[m.reg].seen, body, f, h);
      assert h in w.st.xorbs by {
        KeptIsThere(w.pending[m.reg].seen, w.st.xorbs, h);
      }
      StaysUndoomed(x, w, m, h);
    }
    AvoidsBy(x, next, f, x.parseShard(body).value.files);
  }

  lemma {:induction false} KeptIsThere(a: map<Hash, Blob>, b: map<Hash, Blob>, h: Hash)
    requires h in a && KeepsXorb(a, b, h)
    ensures h in b
  {
  }

  lemma {:induction false} AvoidsBy(x: Xet, w: World, f: Hash, files: seq<FileBlock>)
    requires f in w.st.fileIndex && ShardFiles(x, w.st.shards, w.st.fileIndex[f]) == files
    requires !ShardDoomed(w, w.st.fileIndex[f]) && forall h :: Uses(files, f, h) ==> !XorbDoomed(x, w, h)
    ensures AvoidsDoomed(x, w, f)
  {
    hide ShardFiles, Uses, XorbDoomed, ShardDoomed;
  }

  lemma {:induction false} OldFileAvoids(x: Xet, w: World, m: Move, f: Hash)
    requires Safe(x, w) && Enabled(x, w, m) && Harmless(w, m) && f in w.st.fileIndex && f in Next(x, w, m).st.fileIndex
    requires Next(x, w, m).st.fileIndex[f] == w.st.fileIndex[f]
    ensures AvoidsDoomed(x, Next(x, w, m), f)
  {
    var s, next := w.st.fileIndex[f], Next(x, w, m);
    var files := ShardFiles(x, w.st.shards, s);
    assert AvoidsDoomed(x, w, f);
    SafeFile(x, w, f);
    UsedIsReachable(x, w.st, f);
    ShardKept(x, w, m, s);
    ShardStaysUndoomed(x, w, m, s);
    assert ShardFiles(x, next.st.shards, s) == files;
    hide FilesInv, XorbDoomed, ShardDoomed, Enabled, Next, Consistent, PendingTrue, FileIn, Uses, Reachable, ShardFiles;
    forall h | Uses(files, f, h) ensures !XorbDoomed(x, next, h) {
      SoundNeedsXorb(x, w.st.xorbs, files, f, h);
      StaysUndoomed(x, w, m, h);
    }
    AvoidsBy(x, next, f, files);
  }

  lemma {:induction false} MoveAvoids(x: Xet, w: World, m: Move, f: Hash)
    requires Trusted(x) && Safe(x, w) && AllPendingAvoid(x, w) && Enabled(x, w, m) && Harmless(w, m)
    requires f in Next(x, w, m).st.fileIndex
    ensures AvoidsDoomed(x, Next(x, w, m), f)
  {
    NewlyIndexed(x, w, m, f);
    hide Trusted, Safe, Enabled, Next, AvoidsDoomed, PendingAvoids, Declares;
    if f in w.st.fileIndex && Next(x, w, m).st.fileIndex[f] == w.st.fileIndex[f] {
      OldFileAvoids(x, w, m, f);
    } else {
      RegistrationExists(x, w, m);
      NewFileAvoids(x, w, m, f);
    }
  }

  lemma {:induction false} RegistrationExists(x: Xet, w: World, m: Move)
    requires Enabled(x, w, m) && m.IndexShard?
    ensures m.reg in w.pending
  {
  }

  // One move keeps everything safe, if no registration under way refers to a doomed object and
  // no shard goes that a pass has still to read.
  lemma {:induction false} MoveKeeps(x: Xet, w: World, m: Move)
    requires Trusted(x) && Safe(x, w) && AllPendingAvoid(x, w) && Enabled(x, w, m) && Harmless(w, m)
    ensures Safe(x, Next(x, w, m))
  {
    var next := Next(x, w, m);
    MoveKeepsFiles(x, w, m);
    forall r | r in next.pending ensures PendingTrue(x, next.st, next.pending[r]) {
      PendingStaysTrue(x, w, m, r);
    }
    forall f | f in next.st.fileIndex ensures AvoidsDoomed(x, next, f) {
      MoveAvoids(x, w, m, f);
    }
    assert Consistent(w);
    MoveConsistent(x, w, m);
    hide Trusted, FilesInv, Consistent, PendingTrue, AvoidsDoomed, AllPendingAvoid, Enabled, Next;
  }

  /** No move finds a registration that refers to a doomed object, or takes a shard from a marking pass. */
  ghost predicate AvoidingRun(x: Xet, w: World, moves: seq<Move>)
    requires Possible(x, w, moves)
    decreases |moves|
  {
    moves == []
    || (AllPendingAvoid(x, w) && Harmless(w, moves[0]) && AvoidingRun(x, Next(x, w, moves[0]), moves[1..]))
  }

  // Interleaved runs are safe, however many passes overlap: at every point each indexed file is
  // reconstructable and nothing it needs is about to be deleted.
  lemma {:induction false} InterleavedRunIsSafe(x: Xet, w: World, moves: seq<Move>)
    requires Trusted(x) && Safe(x, w) && Possible(x, w, moves) && AvoidingRun(x, w, moves)
    ensures Safe(x, Play(x, w, moves))
    decreases |moves|
  {
    hide Trusted, Safe, Enabled, Next, AllPendingAvoid, Harmless;
    if moves != [] {
      MoveKeeps(x, w, moves[0]);
      InterleavedRunIsSafe(x, Next(x, w, moves[0]), moves[1..]);
    }
  }

  lemma {:induction false} StartIsSafe(x: Xet)
    ensures Safe(x, START)
  {
    EmptyInv(x);
    hide Inv;
  }
}
