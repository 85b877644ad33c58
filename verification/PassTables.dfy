/**
 The index tables along the steps of handlers (crates/server/src/gc.rs:112-118, routes/xorb.rs): an
 upload's three writes in a row are the handler, and passes that end leave exactly the rows and
 layouts of what they do not delete.
 */
module PassTables {
  import opened Basics
  import opened XetCore
  import opened XorbMeta
  import opened Store
  import opened Collection
  import opened Interleaving
  import opened Completion

  // ---- an upload, step by step ----

  ghost function Uploading(h: Hash, body: seq<Byte>, at: int): seq<Move> {
    [StoreBlob(h, body, at), WriteRows(h), WriteLayout(h)]
  }

  // Three moves in a row are the handler as one step.
  lemma {:induction false} UploadIsThreeMoves(x: Xet, w: World, h: Hash, body: seq<Byte>, at: int)
    requires h !in w.uploads && AcceptsXorb(x, w.st, h, body)
    ensures Possible(x, w, Uploading(h, body, at))
    ensures Play(x, w, Uploading(h, body, at)) == w.(st := PostXorb(x, w.st, h, body, at))
  {
    hide ValidatedInfo, BodyLayout, PutBatch, XorbRows, HashesOf, FramesOf;
    var m1, m2, m3 := StoreBlob(h, body, at), WriteRows(h), WriteLayout(h);
    var a := Next(x, w, m1);
    var b := Next(x, a, m2);
    var c := Next(x, b, m3);
    assert c.uploads == w.uploads;
    PlayLast(x, b, m3);
    PlayFirst(x, a, m2, [m3]);
    PlayFirst(x, w, m1, [m2] + [m3]);
    assert [m1] + ([m2] + [m3]) == Uploading(h, body, at);
  }

  // ---- rows and layouts along passes ----

  // What a pass has purged has neither row nor layout.
  ghost predicate PurgedIsClean(w: World) {
    forall p :: p in w.passes && w.passes[p].purged.Some? ==>
      && w.passes[p].purged.value !in w.st.layouts
      && forall r :: r in w.st.rows ==> r.xorb != w.passes[p].purged.value
  }

  lemma {:induction false} StepTables(x: Xet, w: World, m: Move)
    requires Enabled(x, w, m) && PassMove(m) && w.uploads == map[]
    ensures var next := Next(x, w, m);
      && next.uploads == map[]
      && (forall r :: r in next.st.rows <==> r in w.st.rows && !(m.PurgeIndex? && r.xorb == m.hash))
      && (forall g :: g in next.st.layouts <==> g in w.st.layouts && !(m.PurgeIndex? && g == m.hash))
      && (forall g :: g in next.st.layouts ==> g in w.st.layouts && next.st.layouts[g] == w.st.layouts[g])
  {
    hide Allows, CorruptShard, DropAllRows;
    if m.PurgeIndex? {
      forall r ensures r in DropAllRows(w.st.rows, {m.hash}) <==> r in w.st.rows && r.xorb != m.hash {
        DropAllMembers(w.st.rows, {m.hash}, r);
      }
    }
  }

  lemma {:induction false} StepPurged(x: Xet, w: World, m: Move, p: Id)
    requires Enabled(x, w, m) && p in Next(x, w, m).passes && Next(x, w, m).passes[p].purged.Some?
    ensures m == PurgeIndex(p, Next(x, w, m).passes[p].purged.value)
      || (p in w.passes && w.passes[p].purged == Next(x, w, m).passes[p].purged)
  {
    hide AcceptsXorb, NextState, NextUploads, NextPending, ValidUpload, InGrace, LiveShards, XorbsDone, ShardsDone, Condemns,
      BlockXorbs, ShardFiles, CorruptShard;
  }

  lemma {:induction false} StaysClean(x: Xet, w: World, m: Move)
    requires PurgedIsClean(w) && Enabled(x, w, m) && PassMove(m) && w.uploads == map[]
    ensures PurgedIsClean(Next(x, w, m))
  {
    hide Enabled, Next;
    var next := Next(x, w, m);
    StepTables(x, w, m);
    forall p | p in next.passes && next.passes[p].purged.Some?
      ensures next.passes[p].purged.value !in next.st.layouts
      ensures forall r :: r in next.st.rows ==> r.xorb != next.passes[p].purged.value
    {
      StepPurged(x, w, m, p);
      var h := next.passes[p].purged.value;
      if m != PurgeIndex(p, h) {
        assert w.passes[p].purged == Some(h);
        assert h !in w.st.layouts;
      }
    }
  }

  lemma {:induction false} DeletedIsPurged(x: Xet, w: World, m: Move)
    requires Enabled(x, w, m) && m.DeleteBlob?
    ensures m.pass in w.passes && w.passes[m.pass].purged == Some(m.hash)
  {
  }

  lemma {:induction false} PurgedIsDoomed(x: Xet, w: World, m: Move)
    requires Consistent(w) && Enabled(x, w, m) && m.PurgeIndex?
    ensures XorbDoomed(x, w, m.hash)
  {
    hide InGrace;
    DoomedBy(x, w, m.pass, m.hash);
  }

  // Whether a xorb is doomed changes, along a step of a pass, only when its blob is deleted.
  lemma {:induction false} SameDoom(x: Xet, w: World, m: Move, h: Hash)
    requires Consistent(w) && Settled(w) && Enabled(x, w, m) && PassMove(m) && !(m.DeleteBlob? && m.hash == h)
    ensures XorbDoomed(x, Next(x, w, m), h) <==> XorbDoomed(x, w, h)
  {
    hide Consistent, Settled, Enabled, Next, DoomsXorb, Harmless;
    SettledIsHarmless(x, w, m);
    if XorbDoomed(x, w, h) {
      var p :| p in w.passes && DoomsXorb(x, w.st, w.passes[p], h);
      StaysDoomed(x, w, m, p, h);
    }
    if XorbDoomed(x, Next(x, w, m), h) {
      NewlyDoomedXorb(x, w, m, h);
    }
  }

  // One step keeps the rows and layouts of what is not doomed, and no others count.
  lemma {:induction false} StepKeepsTables(x: Xet, w: World, m: Move)
    requires Consistent(w) && Settled(w) && PurgedIsClean(w) && Enabled(x, w, m) && PassMove(m) && w.uploads == map[]
    ensures var next := Next(x, w, m);
      && (forall r :: r in next.st.rows && !XorbDoomed(x, next, r.xorb) <==> r in w.st.rows && !XorbDoomed(x, w, r.xorb))
      && (forall g :: g in next.st.layouts && !XorbDoomed(x, next, g) <==> g in w.st.layouts && !XorbDoomed(x, w, g))
  {
    var next := Next(x, w, m);
    hide Consistent, Settled, Enabled, Next, XorbDoomed;
    StepTables(x, w, m);
    if m.PurgeIndex? {
      PurgedIsDoomed(x, w, m);
    }
    if m.DeleteBlob? {
      DeletedIsPurged(x, w, m);
    }
    forall h ensures !(m.DeleteBlob? && m.hash == h) ==> (XorbDoomed(x, next, h) <==> XorbDoomed(x, w, h)) {
      if !(m.DeleteBlob? && m.hash == h) {
        SameDoom(x, w, m, h);
      }
    }
  }

  // However the passes under way are completed, while no upload is in flight: what is left of the
  // chunk index and the layout table is what belongs to no doomed xorb.
  lemma {:induction false} CompletionPurges(x: Xet, w: World, moves: seq<Move>)
    requires Consistent(w) && Settled(w) && PurgedIsClean(w) && w.uploads == map[] && Completes(x, w, moves)
    ensures var end := Play(x, w, moves).st;
      && (forall r :: r in end.rows <==> r in w.st.rows && !XorbDoomed(x, w, r.xorb))
      && (forall g :: g in end.layouts <==> g in w.st.layouts && !XorbDoomed(x, w, g))
      && (forall g :: g in end.layouts ==> g in w.st.layouts && end.layouts[g] == w.st.layouts[g])
    decreases |moves|
  {
    if moves == [] {
      NothingDoomedAtRest(x, w);
    } else {
      hide Consistent, Settled, PurgedIsClean, Enabled, Next, PassMove, XorbDoomed;
      var rest := moves[1..];
      forall i | 0 <= i < |rest| ensures PassMove(rest[i]) {
        assert rest[i] == moves[i + 1];
      }
      StepKeepsTables(x, w, moves[0]);
      StepTables(x, w, moves[0]);
      MoveConsistent(x, w, moves[0]);
      StaysSettled(x, w, moves[0]);
      StaysClean(x, w, moves[0]);
      CompletionPurges(x, Next(x, w, moves[0]), rest);
    }
  }

  lemma {:induction false} NothingDoomedAtRest(x: Xet, w: World)
    requires w.passes == map[]
    ensures forall h :: !XorbDoomed(x, w, h)
  {
  }

  // So a pass nothing interferes with leaves the tables the collection step leaves.
  lemma {:induction false} UninterruptedPassTables(x: Xet, st: State, p: Id, now: int, grace: int, moves: seq<Move>)
    requires !(exists s :: s in LiveShards(st) && CorruptShard(x, st, s))
    requires Completes(x, Begun(x, st, p, now, grace), moves)
    ensures var end, next := Play(x, Begun(x, st, p, now, grace), moves).st, Gc(x, st, now, grace);
      && (forall r :: r in end.rows <==> r in next.rows)
      && end.layouts == next.layouts
  {
    hide Consistent, PurgedIsClean, PassMove, Begun, Possible, Play, Settled, XorbDoomed, Swept, Condemned, Reachable, LiveShards,
      CorruptShard, DropAllRows;
    var w := Begun(x, st, p, now, grace);
    BegunDooms(x, st, p, now, grace);
    BegunIsQuiet(x, st, p, now, grace);
    CompletionPurges(x, w, moves);
    var gone := Condemned(st.xorbs, Reachable(x, st), now, grace);
    DoomedAreCondemned(x, st, p, now, grace);
    var end := Play(x, w, moves).st;
    LayoutsLeft(end.layouts, st.layouts, gone);
    forall r ensures r in DropAllRows(st.rows, gone) <==> r in st.rows && r.xorb !in gone {
      DropAllMembers(st.rows, gone, r);
    }
  }

  lemma {:induction false} LayoutsLeft(a: map<Hash, XorbLayout>, b: map<Hash, XorbLayout>, gone: set<Hash>)
    requires forall g :: g in a <==> g in b && g !in gone
    requires forall g :: g in a ==> a[g] == b[g]
    ensures a == b - gone
  {
    var left := b - gone;
    forall g ensures g in a <==> g in left {
      assert g in left <==> g in b && g !in gone;
    }
    assert a.Keys == left.Keys;
    forall g | g in a ensures a[g] == left[g] {
    }
  }

  lemma {:induction false} BegunIsQuiet(x: Xet, st: State, p: Id, now: int, grace: int)
    ensures var w := Begun(x, st, p, now, grace);
      w.uploads == map[] && w.st == st && PurgedIsClean(w)
  {
    hide LiveShards, Reachable;
  }

  lemma {:induction false} DoomedAreCondemned(x: Xet, st: State, p: Id, now: int, grace: int)
    ensures forall h :: XorbDoomed(x, Begun(x, st, p, now, grace), h) <==> h in Condemned(st.xorbs, Reachable(x, st), now, grace)
  {
    var w := Begun(x, st, p, now, grace);
    MarksReachable(x, st, w.passes[p]);
    hide Reachable, LiveShards, InGrace, ToMark;
    assert p in w.passes && forall q :: q in w.passes ==> q == p;
    forall h ensures XorbDoomed(x, w, h) <==> DoomsXorb(x, st, w.passes[p], h) {
    }
    hide XorbDoomed;
  }
}
