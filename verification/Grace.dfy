/**
 The grace period with passes taken step by step (crates/server/src/gc.rs:10-15): xorbs young
 to every pass stay, so the registration that waits for them is accepted and stays safe.
 */
module Grace {
  import opened Basics
  import opened XetCore
  import opened Packing
  import opened Terms
  import opened UploadSessions
  import opened Store
  import opened Invariants
  import opened Interleaving
  import opened Completion
  import opened RoundTrip
  import opened InFlight

  // The xorb is stored, within the grace period of every pass under way, and no list has
  // another time for it.
  ghost predicate YoungToAll(w: World, h: Hash) {
    && h in w.st.xorbs
    && forall p :: p in w.passes ==>
         && w.passes[p].now - w.st.xorbs[h].mtime < w.passes[p].grace
         && (h in w.passes[p].listedXorbs ==> w.passes[p].listedXorbs[h] == w.st.xorbs[h].mtime)
  }

  // Every pass that marks during the run counts objects stored at `since` as young.
  predicate MarksWithin(moves: seq<Move>, since: int) {
    forall i :: 0 <= i < |moves| && moves[i].Mark? ==> moves[i].now - since < moves[i].grace
  }

  lemma {:induction false} YoungIsNotDoomed(x: Xet, w: World, h: Hash)
    requires YoungToAll(w, h)
    ensures !XorbDoomed(x, w, h)
  {
  }

  // What a pass knows of a listed xorb after a move, it knew before, or has just listed.
  lemma {:induction false} ListedAfter(x: Xet, w: World, m: Move, p: Id, h: Hash)
    requires Enabled(x, w, m) && p in Next(x, w, m).passes
    ensures m.Mark? && m.pass == p ==>
      Next(x, w, m).passes[p].now == m.now && Next(x, w, m).passes[p].grace == m.grace && h !in Next(x, w, m).passes[p].listedXorbs
    ensures !(m.Mark? && m.pass == p) ==>
      && p in w.passes
      && Next(x, w, m).passes[p].now == w.passes[p].now && Next(x, w, m).passes[p].grace == w.passes[p].grace
      && (h in Next(x, w, m).passes[p].listedXorbs ==>
            || (h in w.passes[p].listedXorbs && Next(x, w, m).passes[p].listedXorbs[h] == w.passes[p].listedXorbs[h])
            || (h in w.st.xorbs && Next(x, w, m).passes[p].listedXorbs[h] == w.st.xorbs[h].mtime))
  {
    hide AcceptsXorb, NextState, NextUploads, NextPending, ValidUpload, InGrace, Reachable, LiveShards, XorbsDone, ShardsDone, Condemns;
  }

  lemma {:induction false} YoungStays(x: Xet, w: World, m: Move, h: Hash)
    requires Consistent(w) && Enabled(x, w, m) && YoungToAll(w, h)
    requires m.Mark? ==> m.now - w.st.xorbs[h].mtime < m.grace
    ensures YoungToAll(Next(x, w, m), h) && Next(x, w, m).st.xorbs[h] == w.st.xorbs[h]
  {
    YoungIsNotDoomed(x, w, h);
    XorbKept(x, w, m, h);
    hide Consistent, Enabled, Next, XorbDoomed, KeepsXorb;
    var next := Next(x, w, m);
    forall p | p in next.passes
      ensures next.passes[p].now - w.st.xorbs[h].mtime < next.passes[p].grace
      ensures h in next.passes[p].listedXorbs ==> next.passes[p].listedXorbs[h] == w.st.xorbs[h].mtime
    {
      ListedAfter(x, w, m, p, h);
    }
  }

  // A young xorb stays, whatever moves, as long as the passes that begin find it young too.
  lemma {:induction false} YoungStaysAlong(x: Xet, w: World, moves: seq<Move>, h: Hash)
    requires Consistent(w) && Possible(x, w, moves) && YoungToAll(w, h) && MarksWithin(moves, w.st.xorbs[h].mtime)
    ensures YoungToAll(Play(x, w, moves), h) && Play(x, w, moves).st.xorbs[h] == w.st.xorbs[h]
    ensures !XorbDoomed(x, Play(x, w, moves), h)
    decreases |moves|
  {
    hide Consistent, Enabled, Next, XorbDoomed;
    if moves == [] {
      YoungIsNotDoomed(x, w, h);
    } else {
      MoveConsistent(x, w, moves[0]);
      YoungStays(x, w, moves[0], h);
      YoungStaysAlong(x, Next(x, w, moves[0]), moves[1..], h);
    }
  }

  lemma {:induction false} PlaySplits(x: Xet, w: World, moves: seq<Move>, k: nat)
    requires Possible(x, w, moves) && k <= |moves|
    ensures Possible(x, w, moves[..k]) && Possible(x, Play(x, w, moves[..k]), moves[k..])
    ensures Play(x, Play(x, w, moves[..k]), moves[k..]) == Play(x, w, moves)
    decreases |moves|
  {
    hide Enabled, Next, Possible, Play;
    if k == 0 {
      PlayNone(x, w);
      assert moves[0..] == moves && moves[..0] == [];
    } else {
      PlayTail(x, w, moves);
      var a := Next(x, w, moves[0]);
      var rest := moves[1..];
      PlaySplits(x, a, rest, k - 1);
      PlayFirst(x, w, moves[0], rest[..k - 1]);
      assert [moves[0]] + rest[..k - 1] == moves[..k] && rest[k - 1..] == moves[k..];
    }
  }

  lemma {:induction false} PlayNone(x: Xet, w: World)
    ensures Possible(x, w, []) && Play(x, w, []) == w
  {
  }

  lemma {:induction false} PlayTail(x: Xet, w: World, moves: seq<Move>)
    requires Possible(x, w, moves) && moves != []
    ensures Enabled(x, w, moves[0]) && Possible(x, Next(x, w, moves[0]), moves[1..])
    ensures Play(x, Next(x, w, moves[0]), moves[1..]) == Play(x, w, moves)
  {
    hide Enabled, Next;
  }

  // At some point of the run the xorb is stored and young to all, and every pass that marks
  // later comes within grace of it.
  ghost predicate YoungSince(x: Xet, w: World, moves: seq<Move>, h: Hash, k: nat)
    requires Possible(x, w, moves) && k <= |moves|
  {
    PlaySplits(x, w, moves, k);
    var since := Play(x, w, moves[..k]);
    YoungToAll(since, h) && MarksWithin(moves[k..], since.st.xorbs[h].mtime)
  }

  lemma {:induction false} YoungSinceStays(x: Xet, w: World, moves: seq<Move>, h: Hash, k: nat)
    requires Consistent(w) && Possible(x, w, moves) && k <= |moves| && YoungSince(x, w, moves, h, k)
    ensures YoungToAll(Play(x, w, moves), h) && !XorbDoomed(x, Play(x, w, moves), h)
  {
    hide Consistent, YoungToAll, MarksWithin, XorbDoomed;
    PlaySplits(x, w, moves, k);
    RunConsistent(x, w, moves[..k]);
    YoungStaysAlong(x, Play(x, w, moves[..k]), moves[k..], h);
  }

  // The plan's xorbs are posted, or found, while anything else moves and any passes are under
  // way: if each is young to every pass from then on, the planned shard is accepted unless it is
  // too large, and no pass will delete what it refers to.
  lemma {:induction false} GraceProtectsAmongPasses(
    x: Xet, w: World, moves: seq<Move>, chunks: seq<Chunk>, before: Slots, m: Making, plan: UploadPlan)
    requires WorkingLibrary(x) && GoodChunks(x, chunks) && Safe(x, w) && SlotsSound(x, w.st.xorbs, chunks, before)
    requires PlanMade(x, chunks, before, m, plan)
    requires Possible(x, w, moves) && AvoidingRun(x, w, moves)
    requires forall h :: RefersTo(m.entries, h) ==> exists k: nat :: k <= |moves| && YoungSince(x, w, moves, h, k)
    ensures var end := Play(x, w, moves);
      && (ValidUpload(x, end.st.xorbs, plan.shardBytes) <==> |plan.shardBytes| <= MAX_SHARD_SIZE)
      && forall f, h :: DeclaredUses(x, plan.shardBytes, f, h) ==> !XorbDoomed(x, end, h)
  {
    hide Inv, WorkingLibrary, GoodChunks, PlanMade, SlotsSound, ValidUpload, RefersTo, DeclaredUses, Trusted, YoungToAll, XorbDoomed,
      Possible, Play, AvoidingRun, YoungSince, AvoidsDoomed, PendingTrue;
    var end, bare := Play(x, w, moves), w.st.(layouts := map[]);
    WorkingPromises(x);
    InterleavedRunIsSafe(x, w, moves);
    assert Inv(x, bare) && Inv(x, end.st.(layouts := map[]));
    AcceptedLaterIff(x, bare, end.st.(layouts := map[]), chunks, before, m, plan, 0);
    SlotsMatch(x, bare, chunks, before);
    PlanUses(x, chunks, before, m, plan);
    forall h | RefersTo(m.entries, h) ensures h in end.st.xorbs && !XorbDoomed(x, end, h) {
      var k: nat :| k <= |moves| && YoungSince(x, w, moves, h, k);
      YoungSinceStays(x, w, moves, h, k);
      YoungIsStored(end, h);
    }
  }

  lemma {:induction false} YoungIsStored(w: World, h: Hash)
    requires YoungToAll(w, h)
    ensures h in w.st.xorbs
  {
  }

  lemma {:induction false} PlanUses(x: Xet, chunks: seq<Chunk>, before: Slots, m: Making, plan: UploadPlan)
    requires WorkingLibrary(x) && GoodChunks(x, chunks) && |before| == |chunks| && PlanMade(x, chunks, before, m, plan)
    ensures forall f, h :: DeclaredUses(x, plan.shardBytes, f, h) ==> RefersTo(m.entries, h)
  {
    WorkingPromises(x);
    GroupsInRange(x, chunks, before, m.groups, m.slots);
    ParsesToPlan(x, chunks, m, plan);
    hide WorkingLibrary, GoodChunks, ClosedWhenFull, IsPacking, Maximal, DescribesAll, PlacedBy, ShardsPrint, Trusted, Expand,
      PlannedShard, GroupXorb;
  }

  // So the registration can be made in mid-pass, and all stays safe, if the shard too is new
  // and young to every pass.
  lemma {:induction false} YoungRegistrationIsSafe(
    x: Xet, w: World, r: Id, owner: Owner, body: seq<Byte>, at: int)
    requires Trusted(x) && Safe(x, w) && AllPendingAvoid(x, w) && r !in w.pending && ValidUpload(x, w.st.xorbs, body)
    requires forall f, h :: DeclaredUses(x, body, f, h) ==> !XorbDoomed(x, w, h)
    requires x.dataHash(body) !in w.st.shards
    requires forall p :: p in w.passes ==>
      w.passes[p].now - at < w.passes[p].grace && x.dataHash(body) !in w.passes[p].listedShards
    ensures Possible(x, w, Registering(r, owner, body, at))
    ensures Play(x, w, Registering(r, owner, body, at)) == AfterRegister(x, w, owner, body, at)
    ensures Safe(x, AfterRegister(x, w, owner, body, at))
  {
    NewShardIsYoung(x, w, owner, body, at);
    hide *;
    RegistrationStaysSafe(x, w, r, owner, body, at);
  }

  lemma {:induction false} NewShardIsYoung(x: Xet, w: World, owner: Owner, body: seq<Byte>, at: int)
    requires ValidUpload(x, w.st.xorbs, body) && x.dataHash(body) !in w.st.shards
    requires forall p :: p in w.passes ==>
      w.passes[p].now - at < w.passes[p].grace && x.dataHash(body) !in w.passes[p].listedShards
    ensures !ShardDoomed(AfterRegister(x, w, owner, body, at), x.dataHash(body))
  {
    hide ValidUpload, IndexFiles, ClaimFiles, PutBatch;
    assert AfterRegister(x, w, owner, body, at).st.shards[x.dataHash(body)] == Blob(body, at);
  }
}
