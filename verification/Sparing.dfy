/**
 When it is enough that what a registration refers to is marked or young (crates/server/src/gc.rs:10-15):
 while nothing is stored again under a list that condemns it, hence while passes do not overlap.
 */
module Sparing {
  import opened Basics
  import opened XetCore
  import opened XorbMeta
  import opened Store
  import opened Invariants
  import opened Interleaving

  // ---- marked or young ----

  // A list that condemns an object still stored gives its time.
  ghost predicate ListsTrue(w: World) {
    && (forall p, h :: p in w.passes && XorbCondemned(w.passes[p], h) && h in w.st.xorbs ==>
          w.passes[p].listedXorbs[h] == w.st.xorbs[h].mtime)
    && (forall p, h :: p in w.passes && ShardCondemned(w.passes[p], h) && h in w.st.shards ==>
          w.passes[p].listedShards[h] == w.st.shards[h].mtime)
  }

  // Nothing is stored while a pass under way holds a list that condemns it.
  ghost predicate Fresh(x: Xet, w: World, m: Move) {
    && (m.StoreBlob? ==> forall p :: p in w.passes ==> !XorbCondemned(w.passes[p], m.hash))
    && (m.StoreShard? && m.reg in w.pending && x.dataHash(w.pending[m.reg].body) !in w.st.shards ==>
          forall p :: p in w.passes ==> !ShardCondemned(w.passes[p], x.dataHash(w.pending[m.reg].body)))
  }

  // What a pass condemns by its lists after a move, it condemned before, or just listed.
  lemma {:induction false} CondemnedAfter(x: Xet, w: World, m: Move, p: Id, h: Hash)
    requires Enabled(x, w, m) && p in Next(x, w, m).passes
    ensures XorbCondemned(Next(x, w, m).passes[p], h) ==>
      || (m == ListXorbs(p) && h in w.st.xorbs && Next(x, w, m).passes[p].listedXorbs[h] == w.st.xorbs[h].mtime)
      || (p in w.passes && XorbCondemned(w.passes[p], h) && m != DeleteBlob(p, h)
          && Next(x, w, m).passes[p].listedXorbs[h] == w.passes[p].listedXorbs[h])
    ensures ShardCondemned(Next(x, w, m).passes[p], h) ==>
      || (m == ListShards(p) && h in w.st.shards && Next(x, w, m).passes[p].listedShards[h] == w.st.shards[h].mtime)
      || (p in w.passes && ShardCondemned(w.passes[p], h) && m != DeleteShard(p, h)
          && Next(x, w, m).passes[p].listedShards[h] == w.passes[p].listedShards[h])
  {
    hide AcceptsXorb, NextState, NextUploads, NextPending, ValidUpload, InGrace, Reachable, LiveShards, XorbsDone, ShardsDone;
  }

  lemma {:induction false} ListsStayTrue(x: Xet, w: World, m: Move)
    requires ListsTrue(w) && Fresh(x, w, m) && Enabled(x, w, m)
    ensures ListsTrue(Next(x, w, m))
  {
    hide Next, XorbCondemned, ShardCondemned;
    var next := Next(x, w, m);
    MoveXorbs(x, w, m);
    if m.StoreShard? {
      ShardIsPut(x, w, m.reg);
    }
    hide Enabled;
    forall p, h | p in next.passes && XorbCondemned(next.passes[p], h) && h in next.st.xorbs
      ensures h in next.passes[p].listedXorbs && next.passes[p].listedXorbs[h] == next.st.xorbs[h].mtime
    {
      CondemnedAfter(x, w, m, p, h);
      CondemnedIsListed(next.passes[p], h);
    }
    forall p, h | p in next.passes && ShardCondemned(next.passes[p], h) && h in next.st.shards
      ensures h in next.passes[p].listedShards && next.passes[p].listedShards[h] == next.st.shards[h].mtime
    {
      CondemnedAfter(x, w, m, p, h);
      CondemnedIsListed(next.passes[p], h);
    }
  }

  lemma {:induction false} CondemnedIsListed(s: Sweep, h: Hash)
    ensures XorbCondemned(s, h) ==> h in s.listedXorbs
    ensures ShardCondemned(s, h) ==> h in s.listedShards
  {
  }

  // Everything a registration under way refers to is marked by, or young to, every pass.
  ghost predicate PendingSpared(x: Xet, w: World, r: Id)
    requires r in w.pending
  {
    forall p :: p in w.passes ==>
      && (w.pending[r].stored ==> ShardSpared(w.passes[p], w.st.shards, x.dataHash(w.pending[r].body)))
      && forall f, h :: DeclaredUses(x, w.pending[r].body, f, h) ==> XorbSpared(x, w.st, w.passes[p], h)
  }

  ghost predicate AllPendingSpared(x: Xet, w: World) {
    forall r :: r in w.pending ==> PendingSpared(x, w, r)
  }

  // With true lists, no pass deletes what is marked, or will be, or is young.
  lemma {:induction false} SparedIsNotDoomed(x: Xet, w: World, h: Hash)
    requires ListsTrue(w) && Consistent(w)
    ensures (forall p :: p in w.passes ==> XorbSpared(x, w.st, w.passes[p], h)) ==> !XorbDoomed(x, w, h)
    ensures (forall p :: p in w.passes ==> ShardSpared(w.passes[p], w.st.shards, h)) ==> !ShardDoomed(w, h)
  {
    hide InGrace, ToMark;
    forall p | p in w.passes && w.passes[p].phase != Marking ensures ToMark(x, w.st.shards, w.passes[p]) == w.passes[p].reachable {
      AllRead(x, w.st.shards, w.passes[p]);
    }
  }

  lemma {:induction false} SparedAvoids(x: Xet, w: World)
    requires ListsTrue(w) && Consistent(w) && AllPendingSpared(x, w)
    ensures AllPendingAvoid(x, w)
  {
    hide ListsTrue, Consistent, XorbSpared, ShardSpared, XorbDoomed, ShardDoomed, DeclaredUses;
    forall r | r in w.pending ensures PendingAvoids(x, w, r) {
      assert PendingSpared(x, w, r);
      SparedIsNotDoomed(x, w, x.dataHash(w.pending[r].body));
      forall f, h | DeclaredUses(x, w.pending[r].body, f, h) ensures !XorbDoomed(x, w, h) {
        SparedIsNotDoomed(x, w, h);
      }
    }
  }

  // Before anything is listed, that is the hypothesis of the safety theorem to the letter.
  lemma {:induction false} AvoidingIsBeingSpared(x: Xet, w: World)
    requires Safe(x, w) && forall p :: p in w.passes ==> w.passes[p].phase == Marking
    ensures AllPendingAvoid(x, w) <==> AllPendingSpared(x, w)
  {
    forall r | r in w.pending ensures PendingAvoids(x, w, r) <==> PendingSpared(x, w, r) {
      PendingAvoidsIff(x, w, r);
    }
    hide Safe, PendingAvoids, PendingSpared;
  }

  lemma {:induction false} PendingAvoidsIff(x: Xet, w: World, r: Id)
    requires Safe(x, w) && r in w.pending && forall p :: p in w.passes ==> w.passes[p].phase == Marking
    ensures PendingAvoids(x, w, r) <==> PendingSpared(x, w, r)
  {
    var p := w.pending[r];
    assert PendingTrue(x, w.st, p);
    hide Safe, ValidUpload, Spares, DeclaredUses, KeepsXorb;
    forall f, h | DeclaredUses(x, p.body, f, h)
      ensures !XorbDoomed(x, w, h) <==> forall q :: q in w.passes ==> XorbSpared(x, w.st, w.passes[q], h)
    {
      ValidNeedsXorb(x, p.seen, p.body, f, h);
      KeptIsThere(p.seen, w.st.xorbs, h);
    }
    hide XorbDoomed, XorbSpared;
  }

  ghost predicate SparedRun(x: Xet, w: World, moves: seq<Move>)
    requires Possible(x, w, moves)
    decreases |moves|
  {
    moves == []
    || (AllPendingSpared(x, w) && Fresh(x, w, moves[0]) && Harmless(w, moves[0]) && SparedRun(x, Next(x, w, moves[0]), moves[1..]))
  }

  // So overlapping passes are safe if what a registration refers to is marked or young
  // throughout, and nothing is stored again while some list condemns it.
  lemma {:induction false} SparedRunIsSafe(x: Xet, w: World, moves: seq<Move>)
    requires Trusted(x) && Safe(x, w) && ListsTrue(w) && Possible(x, w, moves) && SparedRun(x, w, moves)
    ensures AvoidingRun(x, w, moves) && Safe(x, Play(x, w, moves)) && ListsTrue(Play(x, w, moves))
    decreases |moves|
  {
    hide Trusted, Safe, Enabled, Next, AllPendingAvoid, AllPendingSpared, ListsTrue, Fresh, Harmless;
    if moves != [] {
      SafeIsConsistent(x, w);
      SparedAvoids(x, w);
      MoveKeeps(x, w, moves[0]);
      ListsStayTrue(x, w, moves[0]);
      SparedRunIsSafe(x, Next(x, w, moves[0]), moves[1..]);
    }
  }

  lemma {:induction false} SafeIsConsistent(x: Xet, w: World)
    requires Safe(x, w)
    ensures Consistent(w)
  {
  }

  // ---- one pass at a time ----

  ghost predicate OnePass(w: World) {
    forall p, q :: p in w.passes && q in w.passes ==> p == q
  }

  // Condemned objects are still stored, as listed.
  ghost predicate ListsStored(w: World) {
    && (forall p, h :: p in w.passes && XorbCondemned(w.passes[p], h) ==>
          h in w.st.xorbs && w.passes[p].listedXorbs[h] == w.st.xorbs[h].mtime)
    && (forall p, h :: p in w.passes && ShardCondemned(w.passes[p], h) ==>
          h in w.st.shards && w.passes[p].listedShards[h] == w.st.shards[h].mtime)
  }

  lemma {:induction false} OnePassIsFresh(x: Xet, w: World, m: Move)
    requires OnePass(w) && ListsStored(w) && Consistent(w) && Enabled(x, w, m)
    ensures ListsTrue(w) && Fresh(x, w, m) && Harmless(w, m) && ListsStored(Next(x, w, m))
  {
    hide Enabled, Next, XorbCondemned, ShardCondemned;
    if m.StoreBlob? {
      AcceptedIsNew(x, w, m);
    }
    FreshIfStored(x, w, m);
    OwnIsRead(x, w, m);
    var next := Next(x, w, m);
    forall p, h | p in next.passes
      ensures XorbCondemned(next.passes[p], h) ==> ListedXorbStays(next, p, h)
      ensures ShardCondemned(next.passes[p], h) ==> ListedShardStays(next, p, h)
    {
      ListedStays(x, w, m, p, h);
    }
  }

  ghost predicate ListedXorbStays(w: World, p: Id, h: Hash)
    requires p in w.passes
  {
    h in w.passes[p].listedXorbs && h in w.st.xorbs && w.passes[p].listedXorbs[h] == w.st.xorbs[h].mtime
  }

  ghost predicate ListedShardStays(w: World, p: Id, h: Hash)
    requires p in w.passes
  {
    h in w.passes[p].listedShards && h in w.st.shards && w.passes[p].listedShards[h] == w.st.shards[h].mtime
  }

  lemma {:induction false} OwnIsRead(x: Xet, w: World, m: Move)
    requires OnePass(w) && Consistent(w) && Enabled(x, w, m)
    ensures Harmless(w, m)
  {
    hide Condemns;
  }

  lemma {:induction false} FreshIfStored(x: Xet, w: World, m: Move)
    requires ListsStored(w) && (m.StoreBlob? ==> m.hash !in w.st.xorbs)
    ensures ListsTrue(w) && Fresh(x, w, m)
  {
    hide XorbCondemned, ShardCondemned;
  }

  lemma {:induction false} ListedStays(x: Xet, w: World, m: Move, p: Id, h: Hash)
    requires OnePass(w) && ListsStored(w) && Enabled(x, w, m) && p in Next(x, w, m).passes
    ensures XorbCondemned(Next(x, w, m).passes[p], h) ==> ListedXorbStays(Next(x, w, m), p, h)
    ensures ShardCondemned(Next(x, w, m).passes[p], h) ==> ListedShardStays(Next(x, w, m), p, h)
  {
    hide Enabled, Next, XorbCondemned, ShardCondemned;
    MoveXorbs(x, w, m);
    CondemnedAfter(x, w, m, p, h);
    PassIsRunning(x, w, m);
    var next := Next(x, w, m);
    CondemnedIsListed(next.passes[p], h);
  }

  lemma {:induction false} PassIsRunning(x: Xet, w: World, m: Move)
    requires Enabled(x, w, m)
    ensures m.ListXorbs? || m.ListShards? || m.DeleteBlob? || m.DeleteShard? ==> m.pass in w.passes
  {
  }

  ghost predicate OnePassRun(x: Xet, w: World, moves: seq<Move>)
    requires Possible(x, w, moves)
    decreases |moves|
  {
    moves == [] || (OnePass(w) && AllPendingSpared(x, w) && OnePassRun(x, Next(x, w, moves[0]), moves[1..]))
  }

  // While passes do not overlap, nothing condemned can be stored again: being marked or young
  // is enough.
  lemma {:induction false} OnePassRunIsSafe(x: Xet, w: World, moves: seq<Move>)
    requires Trusted(x) && Safe(x, w) && ListsStored(w) && Possible(x, w, moves) && OnePassRun(x, w, moves)
    ensures SparedRun(x, w, moves) && Safe(x, Play(x, w, moves))
    decreases |moves|
  {
    hide Trusted, Safe, Enabled, Next, AllPendingAvoid, AllPendingSpared, ListsTrue, ListsStored, Fresh, Harmless, OnePass;
    if moves != [] {
      SafeIsConsistent(x, w);
      OnePassIsFresh(x, w, moves[0]);
      SparedAvoids(x, w);
      MoveKeeps(x, w, moves[0]);
      OnePassRunIsSafe(x, Next(x, w, moves[0]), moves[1..]);
    }
  }

  lemma {:induction false} StartIsClear(x: Xet)
    ensures Safe(x, START) && ListsTrue(START) && ListsStored(START) && OnePass(START)
  {
    StartIsSafe(x);
    hide Safe;
  }
}
