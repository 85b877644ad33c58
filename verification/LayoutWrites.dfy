/**
 The layout table while handlers interleave (crates/server/src/routes/xorb.rs): an upload writes
 its layout last, a pass drops it first.
 */
module LayoutWrites {
  import opened Basics
  import opened XetCore
  import opened XorbMeta
  import opened Store
  import opened Invariants
  import opened Interleaving

  // ---- layouts ----

  // Recorded layouts describe stored blobs, uploads in flight have theirs stored, and a purged
  // xorb has neither a layout nor an upload in flight.
  ghost predicate LayoutsTrue(x: Xet, w: World) {
    && LayoutsMatch(x, w.st)
    && (forall h :: h in w.uploads ==> h in w.st.xorbs && w.st.xorbs[h].bytes == w.uploads[h].body)
    && (forall p :: p in w.passes && w.passes[p].purged.Some? ==>
          w.passes[p].purged.value !in w.uploads && w.passes[p].purged.value !in w.st.layouts)
  }

  // No pass touches a xorb whose upload is in flight: neither starts while the other is there.
  predicate Undisturbed(w: World, m: Move) {
    match m
    case PurgeIndex(_, h) => h !in w.uploads
    case StoreBlob(h, _, _) => forall p :: p in w.passes ==> w.passes[p].purged != Some(h)
    case _ => true
  }

  lemma {:induction false} TablesMove(x: Xet, w: World, m: Move)
    requires Enabled(x, w, m)
    ensures Next(x, w, m).st.layouts ==
      match m
      case WriteLayout(h) => w.st.layouts[h := BodyLayout(x, w.uploads[h].body)]
      case PurgeIndex(_, h) => w.st.layouts - {h}
      case _ => w.st.layouts
    ensures Next(x, w, m).uploads ==
      match m
      case StoreBlob(h, body, _) => w.uploads[h := Upload(body, RowsDue)]
      case WriteRows(h) => w.uploads[h := w.uploads[h].(stage := LayoutDue)]
      case WriteLayout(h) => w.uploads - {h}
      case _ => w.uploads
    ensures m.DeleteBlob? ==> m.pass in w.passes && w.passes[m.pass].purged == Some(m.hash)
    ensures m.WriteLayout? || m.WriteRows? ==> m.hash in w.uploads
  {
    hide AcceptsXorb, ValidUpload, PutBatch, BodyLayout, DropAllRows, IndexFiles, ClaimFiles, Delete;
    if m.Release? {
      DeleteKeepsObjects(w.st, m.caller, m.file);
    }
  }

  lemma {:induction false} PurgedAfter(x: Xet, w: World, m: Move, p: Id)
    requires Enabled(x, w, m) && p in Next(x, w, m).passes && Next(x, w, m).passes[p].purged.Some?
    ensures m == PurgeIndex(p, Next(x, w, m).passes[p].purged.value)
      || (p in w.passes && w.passes[p].purged == Next(x, w, m).passes[p].purged)
  {
    hide AcceptsXorb, NextState, NextUploads, NextPending, ValidUpload, InGrace, Reachable, LiveShards, XorbsDone, ShardsDone, Condemns;
  }

  lemma {:induction false} UploadsStayStored(x: Xet, w: World, m: Move, h: Hash)
    requires LayoutsTrue(x, w) && Enabled(x, w, m) && Undisturbed(w, m) && h in Next(x, w, m).uploads
    ensures h in Next(x, w, m).st.xorbs && Next(x, w, m).st.xorbs[h].bytes == Next(x, w, m).uploads[h].body
  {
    hide Next, Enabled, BodyLayout, LayoutsMatch;
    MoveXorbs(x, w, m);
    TablesMove(x, w, m);
    if m.StoreBlob? {
      AcceptedIsNew(x, w, m);
    }
  }

  lemma {:induction false} LayoutsStayMatched(x: Xet, w: World, m: Move)
    requires LayoutsTrue(x, w) && Enabled(x, w, m) && Undisturbed(w, m)
    ensures LayoutsMatch(x, Next(x, w, m).st)
  {
    hide Next, Enabled, BodyLayout;
    MoveXorbs(x, w, m);
    TablesMove(x, w, m);
    if m.StoreBlob? {
      AcceptedIsNew(x, w, m);
    }
  }

  lemma {:induction false} PurgedStaysOut(x: Xet, w: World, m: Move, p: Id)
    requires LayoutsTrue(x, w) && Enabled(x, w, m) && Undisturbed(w, m)
    requires p in Next(x, w, m).passes && Next(x, w, m).passes[p].purged.Some?
    ensures Next(x, w, m).passes[p].purged.value !in Next(x, w, m).uploads
    ensures Next(x, w, m).passes[p].purged.value !in Next(x, w, m).st.layouts
  {
    hide Next, Enabled, BodyLayout, LayoutsMatch;
    TablesMove(x, w, m);
    PurgedAfter(x, w, m, p);
  }

  lemma {:induction false} LayoutsStayTrue(x: Xet, w: World, m: Move)
    requires LayoutsTrue(x, w) && Enabled(x, w, m) && Undisturbed(w, m)
    ensures LayoutsTrue(x, Next(x, w, m))
  {
    var next := Next(x, w, m);
    LayoutsStayMatched(x, w, m);
    forall h | h in next.uploads ensures h in next.st.xorbs && next.st.xorbs[h].bytes == next.uploads[h].body {
      UploadsStayStored(x, w, m, h);
    }
    forall p | p in next.passes && next.passes[p].purged.Some?
      ensures next.passes[p].purged.value !in next.uploads && next.passes[p].purged.value !in next.st.layouts
    {
      PurgedStaysOut(x, w, m, p);
    }
    hide Next, Enabled, LayoutsMatch;
  }

  ghost predicate UndisturbedRun(x: Xet, w: World, moves: seq<Move>)
    requires Possible(x, w, moves)
    decreases |moves|
  {
    moves == [] || (Undisturbed(w, moves[0]) && UndisturbedRun(x, Next(x, w, moves[0]), moves[1..]))
  }

  lemma {:induction false} LayoutsStayTrueAlong(x: Xet, w: World, moves: seq<Move>)
    requires LayoutsTrue(x, w) && Possible(x, w, moves) && UndisturbedRun(x, w, moves)
    ensures LayoutsTrue(x, Play(x, w, moves))
    decreases |moves|
  {
    hide LayoutsTrue, Enabled, Next, Undisturbed;
    if moves != [] {
      LayoutsStayTrue(x, w, moves[0]);
      LayoutsStayTrueAlong(x, Next(x, w, moves[0]), moves[1..]);
    }
  }

  // A run that is both safe and undisturbed keeps the whole invariant, at every point.
  lemma {:induction false} InterleavedRunKeepsInv(x: Xet, w: World, moves: seq<Move>)
    requires Trusted(x) && Safe(x, w) && LayoutsTrue(x, w) && Possible(x, w, moves)
    requires AvoidingRun(x, w, moves) && UndisturbedRun(x, w, moves)
    ensures Inv(x, Play(x, w, moves).st)
  {
    InterleavedRunIsSafe(x, w, moves);
    LayoutsStayTrueAlong(x, w, moves);
    WholeInv(x, Play(x, w, moves).st);
    hide Trusted, Inv, Possible, Play, AvoidingRun, UndisturbedRun, Consistent, PendingTrue, AvoidsDoomed;
  }

  lemma {:induction false} WholeInv(x: Xet, st: State)
    requires FilesInv(x, st) && LayoutsMatch(x, st)
    ensures Inv(x, st)
  {
    hide FileIn, BlobsSound, ShardsSound, LayoutsMatch, ClaimsSized, RowsDistinct, ShardFiles;
    forall f | f in st.fileIndex ensures FileSound(x, st, f) {
      assert FileSound(x, st.(layouts := map[]), f);
    }
  }
}
