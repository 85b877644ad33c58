/**
 What one garbage collection pass does (crates/server/src/gc.rs): it deletes exactly the
 unreachable old objects, accounts for every byte, and is idempotent.
 */
module Collection {
  import opened Basics
  import opened XetCore
  import opened Store
  import opened Invariants

  // All bytes of one object table.
  ghost function TotalBytes(m: map<Hash, Blob>): nat
    decreases |m|
  {
    if m == map[] then 0
    else
      var k := Pick(m.Keys);
      |m[k].bytes| + TotalBytes(m - {k})
  }

  // The total does not depend on the order objects are counted in.
  lemma {:induction false} TotalWithout(m: map<Hash, Blob>, k: Hash)
    requires k in m
    ensures TotalBytes(m) == |m[k].bytes| + TotalBytes(m - {k})
    decreases |m|
  {
    var first := Pick(m.Keys);
    if first != k {
      TotalWithout(m - {first}, k);
      TotalWithout(m - {k}, first);
      assert m - {first} - {k} == m - {k} - {first};
    }
  }

  // ---- mark ----

  // A pass keeps every live shard, so it leaves the marking as it was.
  lemma {:induction false} MarkingUnchanged(x: Xet, st: State, now: int, grace: int)
    ensures LiveShards(Gc(x, st, now, grace)) == LiveShards(st)
    ensures Reachable(x, Gc(x, st, now, grace)) == Reachable(x, st)
  {
    var next := Gc(x, st, now, grace);
    assert next.fileIndex == st.fileIndex;
    forall s | s in LiveShards(st) ensures ShardFiles(x, next.shards, s) == ShardFiles(x, st.shards, s) {
    }
    forall h ensures h in Reachable(x, next) <==> h in Reachable(x, st) {
      if h in Reachable(x, st) {
        var s :| s in LiveShards(st) && h in BlockXorbs(st.fileIndex, ShardFiles(x, st.shards, s), s);
        assert h in BlockXorbs(next.fileIndex, ShardFiles(x, next.shards, s), s);
      }
      if h in Reachable(x, next) {
        var s :| s in LiveShards(next) && h in BlockXorbs(next.fileIndex, ShardFiles(x, next.shards, s), s);
        assert h in BlockXorbs(st.fileIndex, ShardFiles(x, st.shards, s), s);
      }
    }
  }

  ghost predicate Aborts(x: Xet, st: State) {
    exists s :: s in LiveShards(st) && CorruptShard(x, st, s)
  }

  // After a pass every surviving object is live or in grace, everything live survived
  // untouched, and neither a layout nor a chunk location names a deleted xorb.
  lemma {:induction false} PassIsExact(x: Xet, st: State, now: int, grace: int)
    requires !Aborts(x, st)
    ensures var next := Gc(x, st, now, grace);
      && (forall h :: h in next.xorbs <==>
            h in st.xorbs && (h in Reachable(x, st) || InGrace(now, grace, st.xorbs[h].mtime)))
      && (forall h :: h in next.xorbs ==> next.xorbs[h] == st.xorbs[h])
      && (forall s :: s in next.shards <==>
            s in st.shards && (s in LiveShards(st) || InGrace(now, grace, st.shards[s].mtime)))
      && (forall s :: s in next.shards ==> next.shards[s] == st.shards[s])
      && (forall h :: h in st.xorbs && h !in next.xorbs ==> h !in next.layouts)
      && (forall h :: h in next.layouts ==> h in st.layouts && next.layouts[h] == st.layouts[h])
  {
  }

  lemma {:induction false} DropAllMembers(rows: seq<Row>, gone: set<Hash>, r: Row)
    ensures r in DropAllRows(rows, gone) <==> r in rows && r.xorb !in gone
  {
    if rows != [] {
      var init, last := rows[..|rows| - 1], rows[|rows| - 1];
      DropAllMembers(init, gone, r);
      assert rows == init + [last];
    }
  }

  lemma {:induction false} RowsOfDeletedXorbsGo(x: Xet, st: State, now: int, grace: int, r: Row)
    requires !Aborts(x, st)
    ensures var next := Gc(x, st, now, grace);
      r in next.rows <==> r in st.rows && (r.xorb in st.xorbs ==> r.xorb in next.xorbs)
  {
    DropAllMembers(st.rows, Condemned(st.xorbs, Reachable(x, st), now, grace), r);
  }

  // Some block of the uploaded shard about f has a term in xorb h.
  ghost predicate BlockRefers(x: Xet, body: seq<Byte>, f: Hash, h: Hash) {
    && x.parseShard(body).Some?
    && exists b, e :: b in x.parseShard(body).value.files && b.hash == f && e in b.entries && e.term.xorb == h
  }

  // An indexed file refers to h, by a block about it in the shard it resolves to.
  ghost predicate Referenced(x: Xet, st: State, h: Hash) {
    exists f :: f in st.fileIndex && st.fileIndex[f] in st.shards && BlockRefers(x, st.shards[st.fileIndex[f]].bytes, f, h)
  }

  lemma {:induction false} BlockRefersIff(x: Xet, st: State, f: Hash, h: Hash)
    requires f in st.fileIndex
    ensures st.fileIndex[f] in st.shards && BlockRefers(x, st.shards[st.fileIndex[f]].bytes, f, h) ==>
      h in BlockXorbs(st.fileIndex, ShardFiles(x, st.shards, st.fileIndex[f]), st.fileIndex[f])
  {
  }

  lemma {:induction false} MarkedRefers(x: Xet, st: State, s: Hash, h: Hash)
    requires h in BlockXorbs(st.fileIndex, ShardFiles(x, st.shards, s), s)
    ensures Referenced(x, st, h)
  {
    var b, e :| b in ShardFiles(x, st.shards, s) && b.hash in st.fileIndex && st.fileIndex[b.hash] == s
      && e in b.entries && e.term.xorb == h;
    assert BlockRefers(x, st.shards[s].bytes, b.hash, h);
  }

  lemma {:induction false} ReachableIff(x: Xet, st: State, h: Hash)
    ensures h in Reachable(x, st) <==> Referenced(x, st, h)
  {
    hide BlockRefers, BlockXorbs, ShardFiles;
    if Referenced(x, st, h) {
      var f :| f in st.fileIndex && st.fileIndex[f] in st.shards && BlockRefers(x, st.shards[st.fileIndex[f]].bytes, f, h);
      BlockRefersIff(x, st, f, h);
      assert st.fileIndex[f] in LiveShards(st);
    }
    if h in Reachable(x, st) {
      var s :| s in LiveShards(st) && h in BlockXorbs(st.fileIndex, ShardFiles(x, st.shards, s), s);
      MarkedRefers(x, st, s, h);
    }
  }

  // What a pass keeps, by the clock: a stored xorb exactly if an indexed file's block refers to it
  // or it is younger than the grace period; a stored shard exactly if a file resolves to it or it
  // is that young.
  lemma {:induction false} PassKeepsIff(x: Xet, st: State, now: int, grace: int, h: Hash)
    requires Inv(x, st)
    ensures h in Gc(x, st, now, grace).xorbs <==>
      h in st.xorbs && (Referenced(x, st, h) || now - st.xorbs[h].mtime < grace)
    ensures h in Gc(x, st, now, grace).shards <==>
      h in st.shards && ((exists f :: f in st.fileIndex && st.fileIndex[f] == h) || now - st.shards[h].mtime < grace)
  {
    NeverAborts(x, st);
    ReachableIff(x, st, h);
    PassIsExact(x, st, now, grace);
    hide Inv, Reachable, Referenced, Gc, CorruptShard, Aborts;
  }

  // A pass stops, before it changes anything, exactly if some indexed file resolves to a stored
  // shard that does not parse. A shard that is gone does not stop it.
  lemma {:induction false} StopsIff(x: Xet, st: State)
    ensures Aborts(x, st) <==>
      exists f :: f in st.fileIndex && st.fileIndex[f] in st.shards && x.parseShard(st.shards[st.fileIndex[f]].bytes).None?
    ensures Aborts(x, st) ==> forall now, grace :: Gc(x, st, now, grace) == st
  {
    if f :| f in st.fileIndex && st.fileIndex[f] in st.shards && x.parseShard(st.shards[st.fileIndex[f]].bytes).None? {
      assert st.fileIndex[f] in LiveShards(st);
      assert CorruptShard(x, st, st.fileIndex[f]);
    }
    if Aborts(x, st) {
      var s :| s in LiveShards(st) && CorruptShard(x, st, s);
      var f :| f in st.fileIndex && st.fileIndex[f] == s;
    }
    hide Reachable, Swept, Condemned, DropAllRows;
  }

  // The boundary: garbage one second short of the grace period stays, and goes once it is that old.
  lemma {:induction false} GraceBoundary(x: Xet, st: State, grace: int, h: Hash)
    requires Inv(x, st) && h in st.xorbs && !Referenced(x, st, h)
    ensures h in Gc(x, st, st.xorbs[h].mtime + grace - 1, grace).xorbs
    ensures h !in Gc(x, st, st.xorbs[h].mtime + grace, grace).xorbs
  {
    PassKeepsIff(x, st, st.xorbs[h].mtime + grace - 1, grace, h);
    PassKeepsIff(x, st, st.xorbs[h].mtime + grace, grace, h);
    hide Inv, Referenced, Gc;
  }

  // The same for shards no file resolves to.
  lemma {:induction false} ShardGraceBoundary(x: Xet, st: State, grace: int, s: Hash)
    requires Inv(x, st) && s in st.shards && forall f :: f in st.fileIndex ==> st.fileIndex[f] != s
    ensures s in Gc(x, st, st.shards[s].mtime + grace - 1, grace).shards
    ensures s !in Gc(x, st, st.shards[s].mtime + grace, grace).shards
  {
    PassKeepsIff(x, st, st.shards[s].mtime + grace - 1, grace, s);
    PassKeepsIff(x, st, st.shards[s].mtime + grace, grace, s);
    hide Inv, Referenced, Gc;
  }

  // Young objects that nothing needs are counted as skipped.
  lemma {:induction false} SkippedAreYoung(x: Xet, st: State, now: int, grace: int, h: Hash)
    requires Inv(x, st)
    ensures h in Gc(x, st, now, grace).xorbs.Keys - Reachable(x, st) <==>
      h in st.xorbs && !Referenced(x, st, h) && now - st.xorbs[h].mtime < grace
    ensures h in Gc(x, st, now, grace).shards.Keys - LiveShards(st) <==>
      h in st.shards && (forall f :: f in st.fileIndex ==> st.fileIndex[f] != h) && now - st.shards[h].mtime < grace
  {
    PassKeepsIff(x, st, now, grace, h);
    ReachableIff(x, st, h);
    hide Inv, Reachable, Referenced, Gc;
  }

  // A second pass at the same clock and grace changes nothing.
  lemma {:induction false} PassIsIdempotent(x: Xet, st: State, now: int, grace: int)
    ensures Gc(x, Gc(x, st, now, grace), now, grace) == Gc(x, st, now, grace)
  {
    hide Reachable, LiveShards, Swept, Condemned, CorruptShard, DropAllRows;
    var next := Gc(x, st, now, grace);
    MarkingUnchanged(x, st, now, grace);
    SweptTwice(st.xorbs, Reachable(x, st), now, grace);
    SweptTwice(st.shards, LiveShards(st), now, grace);
    DropNothing(next.rows);
    if !Aborts(x, st) {
      StillAborts(x, st, next);
      assert next.layouts - {} == next.layouts;
    }
  }

  lemma {:induction false} SweptTwice(m: map<Hash, Blob>, live: set<Hash>, now: int, grace: int)
    ensures var once := Swept(m, live, now, grace);
      Swept(once, live, now, grace) == once && Condemned(once, live, now, grace) == {}
  {
    hide InGrace;
  }

  // Fewer shards stored under the same live ones abort no pass that did not abort before.
  lemma {:induction false} StillAborts(x: Xet, a: State, b: State)
    requires LiveShards(b) == LiveShards(a) && !Aborts(x, a)
    requires exists now, grace :: b.shards == Swept(a.shards, LiveShards(a), now, grace)
    ensures !Aborts(x, b)
  {
    hide LiveShards, InGrace;
  }

  lemma {:induction false} DropNothing(rows: seq<Row>)
    ensures DropAllRows(rows, {}) == rows
  {
    if rows != [] {
      DropNothing(rows[..|rows| - 1]);
    }
  }

  // Between passes nothing reachable is ever condemned: a file that is sound before a pass
  // has all its xorbs and its shard among the survivors.
  lemma {:induction false} SoundFileSurvives(x: Xet, st: State, now: int, grace: int, f: Hash)
    requires Inv(x, st) && f in st.fileIndex
    ensures !Aborts(x, st)
    ensures FileSound(x, Gc(x, st, now, grace), f)
  {
    assert FileSound(x, st, f);
    NeverAborts(x, st);
    GcKeepsFile(x, st, now, grace, f);
  }

  lemma {:induction false} NeverAborts(x: Xet, st: State)
    requires Inv(x, st)
    ensures !Aborts(x, st)
  {
  }

  // ---- the sweep loop ----

  // Purging one more xorb's rows after those of `gone`.
  lemma {:induction false} DropOneMore(rows: seq<Row>, gone: set<Hash>, h: Hash)
    ensures DropRows(DropAllRows(rows, gone), h) == DropAllRows(rows, gone + {h})
  {
    hide DropRows, DropAllRows;
    if rows == [] {
      NothingDropped(gone, h);
    } else {
      var init, last := rows[..|rows| - 1], rows[|rows| - 1];
      assert rows == init + [last];
      DropOneMore(init, gone, h);
      DropAllSnoc(init, gone, last);
      DropAllSnoc(init, gone + {h}, last);
      if last.xorb !in gone {
        DropSnoc(DropAllRows(init, gone), h, last);
      } else {
        assert DropAllRows(rows, gone) == DropAllRows(init, gone);
      }
    }
  }

  lemma {:induction false} NothingDropped(gone: set<Hash>, h: Hash)
    ensures DropRows(DropAllRows([], gone), h) == DropAllRows([], gone + {h})
  {
  }

  lemma {:induction false} DropSnoc(rows: seq<Row>, h: Hash, r: Row)
    ensures DropRows(rows + [r], h) == DropRows(rows, h) + if r.xorb == h then [] else [r]
  {
    assert (rows + [r])[..|rows|] == rows;
  }

  lemma {:induction false} DropAllSnoc(rows: seq<Row>, gone: set<Hash>, r: Row)
    ensures DropAllRows(rows + [r], gone) == DropAllRows(rows, gone) + if r.xorb in gone then [] else [r]
  {
    assert (rows + [r])[..|rows|] == rows;
  }

  /** What a sweep has counted so far. */
  datatype Tally = Tally(deleted: nat, freed: nat, skipped: nat)

  function Deleted(t: Tally, size: nat): Tally {
    t.(deleted := t.deleted + 1, freed := t.freed + size)
  }

  function Skipped(t: Tally): Tally {
    t.(skipped := t.skipped + 1)
  }

  // No object and no byte goes missing.
  ghost predicate Accounted(before: map<Hash, Blob>, after: map<Hash, Blob>, t: Tally) {
    t.deleted + |after| == |before| && t.freed + TotalBytes(after) == TotalBytes(before)
  }

  // The sweep has listed `done` of the objects in `before`: the condemned ones among them are
  // gone, and every object and byte of `before` is either still there or counted.
  ghost predicate Sweeping(
    before: map<Hash, Blob>, after: map<Hash, Blob>, done: set<Hash>, live: set<Hash>, now: int, grace: int, t: Tally)
  {
    && done <= before.Keys
    && after == before - (done * Condemned(before, live, now, grace))
    && Accounted(before, after, t)
    && t.skipped == |(done - live) * after.Keys|
  }

  lemma {:induction false} SweepStarts(before: map<Hash, Blob>, live: set<Hash>, now: int, grace: int)
    ensures Sweeping(before, before, {}, live, now, grace, Tally(0, 0, 0))
  {
    assert {} * Condemned(before, live, now, grace) == {};
    assert before - {} == before;
    assert ({} - live) * before.Keys == {};
  }

  lemma {:induction false} CondemnedIff(m: map<Hash, Blob>, live: set<Hash>, now: int, grace: int, h: Hash)
    requires h in m
    ensures h in Condemned(m, live, now, grace) <==> h !in live && !InGrace(now, grace, m[h].mtime)
  {
  }

  lemma {:induction false} SweepKeeps(
    before: map<Hash, Blob>, after: map<Hash, Blob>, done: set<Hash>, live: set<Hash>, now: int, grace: int, t: Tally, h: Hash)
    requires Sweeping(before, after, done, live, now, grace, t) && h in before && h !in done
    requires h in live || InGrace(now, grace, before[h].mtime)
    ensures h in after
    ensures Sweeping(before, after, done + {h}, live, now, grace, if h in live then t else Skipped(t))
  {
    CondemnedIff(before, live, now, grace, h);
    hide Condemned, InGrace, TotalBytes;
    SameGone(done, Condemned(before, live, now, grace), h);
    SkipOne(done, live, after, h);
  }

  lemma {:induction false} SameGone(done: set<Hash>, gone: set<Hash>, h: Hash)
    requires h !in gone
    ensures (done + {h}) * gone == done * gone
  {
  }

  lemma {:induction false} SkipOne(done: set<Hash>, live: set<Hash>, after: map<Hash, Blob>, h: Hash)
    requires h !in done && h in after
    ensures |(done + {h} - live) * after.Keys| == |(done - live) * after.Keys| + if h in live then 0 else 1
  {
    var kept := (done - live) * after.Keys;
    if h in live {
      assert (done + {h} - live) * after.Keys == kept;
    } else {
      assert (done + {h} - live) * after.Keys == kept + {h};
    }
  }

  lemma {:induction false} SweepDeletes(
    before: map<Hash, Blob>, after: map<Hash, Blob>, done: set<Hash>, live: set<Hash>, now: int, grace: int, t: Tally, h: Hash)
    requires Sweeping(before, after, done, live, now, grace, t) && h in before && h !in done
    requires h !in live && !InGrace(now, grace, before[h].mtime)
    ensures h in after && after[h] == before[h]
    ensures Sweeping(before, after - {h}, done + {h}, live, now, grace, Deleted(t, |before[h].bytes|))
  {
    CondemnedIff(before, live, now, grace, h);
    hide Condemned, InGrace, TotalBytes;
    var gone := Condemned(before, live, now, grace);
    RemoveOneMore(before, done, gone, h);
    LoseOne(before, after, t, h);
    SameSkipped(done, live, after, h);
    hide Accounted;
  }

  lemma {:induction false} LoseOne(before: map<Hash, Blob>, after: map<Hash, Blob>, t: Tally, h: Hash)
    requires h in after && Accounted(before, after, t)
    ensures Accounted(before, after - {h}, Deleted(t, |after[h].bytes|))
  {
    TotalWithout(after, h);
    hide TotalBytes;
    assert (after - {h}).Keys == after.Keys - {h};
  }

  lemma {:induction false} RemoveOneMore(m: map<Hash, Blob>, done: set<Hash>, gone: set<Hash>, h: Hash)
    requires h in m && h in gone && h !in done
    ensures h in m - (done * gone) && (m - (done * gone))[h] == m[h]
    ensures m - (done * gone) - {h} == m - ((done + {h}) * gone)
  {
    assert (done + {h}) * gone == done * gone + {h};
  }

  lemma {:induction false} SameSkipped(done: set<Hash>, live: set<Hash>, after: map<Hash, Blob>, h: Hash)
    requires h !in done
    ensures (done + {h} - live) * (after - {h}).Keys == (done - live) * after.Keys
  {
  }

  lemma {:induction false} SweepEnds(
    before: map<Hash, Blob>, after: map<Hash, Blob>, live: set<Hash>, now: int, grace: int, t: Tally)
    requires Sweeping(before, after, before.Keys, live, now, grace, t)
    ensures after == Swept(before, live, now, grace)
    ensures t.skipped == |after.Keys - live|
  {
    hide InGrace, Accounted;
    assert before.Keys * Condemned(before, live, now, grace) == Condemned(before, live, now, grace);
    assert (before.Keys - live) * after.Keys == after.Keys - live;
  }

  /** The answer of a pass. */
  datatype GcReport = GcReport(
    liveFiles: nat, liveShards: nat, liveXorbs: nat,
    deletedXorbs: nat, freedXorbBytes: nat,
    deletedShards: nat, freedShardBytes: nat,
    skippedInGrace: nat)

  // The report accounts for every object and byte the pass found.
  ghost predicate ReportExact(x: Xet, before: State, after: State, r: GcReport) {
    && r.liveFiles == |before.fileIndex|
    && r.liveShards == |LiveShards(before)|
    && r.liveXorbs == |Reachable(x, before)|
    && r.deletedXorbs + |after.xorbs| == |before.xorbs|
    && r.deletedShards + |after.shards| == |before.shards|
    && r.freedXorbBytes + TotalBytes(after.xorbs) == TotalBytes(before.xorbs)
    && r.freedShardBytes + TotalBytes(after.shards) == TotalBytes(before.shards)
    && r.skippedInGrace == |after.xorbs.Keys - Reachable(x, before)| + |after.shards.Keys - LiveShards(before)|
  }
}
