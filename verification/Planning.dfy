/**
 What the upload plan says (crates/wasm/src/lib.rs `build_plan`), in terms of the file's chunks
 and placements alone: the counts, the caps on its xorbs, the length of its term list, and the
 chunk lists of its shard.
 */
module Planning {
  import opened Basics
  import opened XetCore
  import opened Frames
  import opened XorbMeta
  import opened Packing
  import opened Terms
  import opened UploadSessions
  import opened RoundTrip

  // ---- counts ----

  function Resolved(placement: Slots): set<nat> {
    set i | 0 <= i < |placement| && placement[i].Some?
  }

  // The count of deduplicated chunks is the number of chunks that had a placement.
  lemma {:induction false} DedupedCountIs(placement: Slots)
    ensures DedupedCount(placement) == |Resolved(placement)|
  {
    if placement != [] {
      var n := |placement| - 1;
      DedupedCountIs(placement[..n]);
      if placement[n].Some? {
        assert Resolved(placement) == Resolved(placement[..n]) + {n};
      } else {
        assert Resolved(placement) == Resolved(placement[..n]);
      }
    }
  }

  lemma {:induction false} PlanCounts(x: Xet, chunks: seq<Chunk>, before: Slots, m: Making, plan: UploadPlan)
    requires Serialisable(x, chunks) && |before| == |chunks| && PlanMade(x, chunks, before, m, plan)
    ensures plan.chunkCount == |chunks| && plan.dedupedChunkCount == |Resolved(before)|
    ensures plan.fileHash == x.fileHash(seq(|chunks|, i requires 0 <= i < |chunks| => Sizing(chunks[i])))
  {
    DedupedCountIs(before);
    assert SizedChunks(chunks) == seq(|chunks|, i requires 0 <= i < |chunks| => Sizing(chunks[i]));
    hide AllWellFormed, PlacedBy, IsPacking, ClosedWhenFull, DescribesAll, Maximal, Expand, DedupedCount, Resolved;
  }

  function Sizing(c: Chunk): (Hash, nat) {
    (c.hash, |c.data|)
  }

  // ---- caps ----

  // The chunks of a group, one after the other.
  function GroupData(chunks: seq<Chunk>, g: seq<nat>): seq<Byte>
    requires InRange(chunks, g)
  {
    Join(Datas(At(chunks, g)))
  }

  lemma {:induction false} GroupDataLength(chunks: seq<Chunk>, g: seq<nat>)
    requires InRange(chunks, g)
    ensures |GroupData(chunks, g)| == BytesOf(chunks, g)
  {
    JoinLength(Datas(At(chunks, g)));
    assert Lens(Datas(At(chunks, g))) == LensAt(chunks, g);
  }

  // Each planned xorb holds at most the allowed bytes and chunks, unless it is one chunk; and the
  // first chunk of the next would have broken one of the caps.
  lemma {:induction false} PlanKeepsCaps(x: Xet, chunks: seq<Chunk>, before: Slots, m: Making, plan: UploadPlan, k: nat)
    requires Serialisable(x, chunks) && |before| == |chunks| && PlanMade(x, chunks, before, m, plan) && k < |m.groups|
    ensures var g := m.groups[k];
      && InRange(chunks, g) && |g| > 0
      && (|g| == 1 || (|GroupData(chunks, g)| <= x.maxXorbBytes && |g| <= x.maxXorbChunks))
      && (k + 1 < |m.groups| ==>
            && InRange(chunks, m.groups[k + 1]) && |m.groups[k + 1]| > 0
            && (|GroupData(chunks, g)| + |chunks[m.groups[k + 1][0]].data| > x.maxXorbBytes || |g| >= x.maxXorbChunks))
  {
    assert InRange(chunks, m.groups[k]) && Fits(x, chunks, m.groups[k]);
    GroupDataLength(chunks, m.groups[k]);
    hide AllWellFormed, PlacedBy, DescribesAll, Maximal, Expand, BytesOf, GroupData;
    if k + 1 < |m.groups| {
      assert Fits(x, chunks, m.groups[k + 1]);
      assert Full(x, chunks, m.groups[k + 1 - 1], m.groups[k + 1][0]);
    }
  }

  // ---- the shard's chunk lists ----

  // The shard lists each new xorb with the hashes of its chunks, in their order, as the xorb's own
  // bytes have them, and no other xorb.
  lemma {:induction false} ShardListsNewXorbs(x: Xet, chunks: seq<Chunk>, before: Slots, m: Making, plan: UploadPlan, k: nat)
    requires WorkingLibrary(x) && GoodChunks(x, chunks) && |before| == |chunks| && PlanMade(x, chunks, before, m, plan)
    ensures x.parseShard(plan.shardBytes).Some?
    ensures var shard := x.parseShard(plan.shardBytes).value;
      && |shard.files| == 1 && shard.files[0].hash == plan.fileHash && shard.files[0].hasVerification
      && shard.files[0].entries == m.entries
      && |shard.cas| == |plan.xorbs|
      && (k < |plan.xorbs| ==>
            && shard.cas[k].xorb == plan.xorbs[k].0
            && Walk(x, plan.xorbs[k].1, 0).Ok?
            && shard.cas[k].chunks == HashesOf(x, Walk(x, plan.xorbs[k].1, 0).value))
  {
    WorkingPromises(x);
    GroupsInRange(x, chunks, before, m.groups, m.slots);
    ParsesToPlan(x, chunks, m, plan);
    assert x.parseShard(plan.shardBytes) == Some(PlannedShard(x, chunks, m.groups, m.entries));
    if k < |plan.xorbs| {
      assert Fits(x, chunks, m.groups[k]);
      GroupListsItsChunks(x, chunks, m.groups[k]);
    }
    hide WorkingLibrary, GoodChunks, PlacedBy, IsPacking, ClosedWhenFull, DescribesAll, Maximal, Expand, SizedChunks, GroupBlock,
      GroupXorb, HashesOf, Walk;
  }

  // The body of a planned xorb: a frame for each chunk of its group, in order, of version 0 with the
  // scheme and payload the library packs the chunk into, and the library's footer behind them.
  lemma {:induction false} XorbHoldsItsChunks(x: Xet, chunks: seq<Chunk>, before: Slots, m: Making, plan: UploadPlan, k: nat)
    requires Serialisable(x, chunks) && |before| == |chunks| && PlanMade(x, chunks, before, m, plan) && k < |m.groups|
    ensures |plan.xorbs| == |m.groups| && InRange(chunks, m.groups[k])
    ensures var cs := At(chunks, m.groups[k]);
      var fs := seq(|cs|, i requires 0 <= i < |cs| => Frame(0, x.pack(cs[i].data).0, x.pack(cs[i].data).1, cs[i].data));
      && AllWellFormed(x, fs) && plan.xorbs[k].1 == PrintAll(x, fs) + x.footerOf(Datas(cs))
      && plan.xorbs[k].0 == x.xorbHash(SizedChunks(cs))
  {
    hide WellFormed, PlacedBy, ClosedWhenFull, DescribesAll, Maximal, Expand, PrintAll, Fits, Unresolved;
    var g := m.groups[k];
    assert InRange(chunks, g);
    var cs := At(chunks, g);
    GroupSerialisable(x, chunks, g);
    var fs := seq(|cs|, i requires 0 <= i < |cs| => Frame(0, x.pack(cs[i].data).0, x.pack(cs[i].data).1, cs[i].data));
    assert PackedFrames(x, cs) == fs;
    assert SizedAt(chunks, g) == SizedChunks(cs);
  }

  lemma {:induction false} GroupListsItsChunks(x: Xet, chunks: seq<Chunk>, g: seq<nat>)
    requires WorkingLibrary(x) && GoodChunks(x, chunks) && InRange(chunks, g) && g != []
    ensures var body := GroupXorb(x, chunks, g).1;
      && Walk(x, body, 0).Ok? && GroupBlock(x, chunks, g) == CasBlock(GroupXorb(x, chunks, g).0, HashesOf(x, Walk(x, body, 0).value))
  {
    var cs := At(chunks, g);
    GroupSerialisable(x, chunks, g);
    assert Hashed(x, cs);
    assert OpaqueTail(x, x.footerOf(Datas(cs)));
    SealedWalks(x, cs);
    assert HashesOf(x, PackedFrames(x, cs)) == ChunkHashes(cs);
  }

  // ---- the length of the term list ----

  // Cutting a term list after k terms cuts what it stands for.
  lemma {:induction false} ExpandPrefix(entries: seq<Entry>, k: nat)
    requires AllNonEmpty(entries) && k <= |entries|
    ensures TermCut(entries, k) <= |Expand(entries)|
    ensures AllNonEmpty(entries[..k]) && Expand(entries[..k]) == Expand(entries)[..TermCut(entries, k)]
  {
    CutIsLength(entries, k);
    ExpandSplits(entries, k);
    hide Expand;
    assert (Expand(entries[..k]) + Expand(entries[k..]))[..|Expand(entries[..k])|] == Expand(entries[..k]);
  }

  lemma {:induction false} CutIsLength(entries: seq<Entry>, k: nat)
    requires AllNonEmpty(entries) && k <= |entries|
    ensures AllNonEmpty(entries[..k]) && AllNonEmpty(entries[k..]) && |Expand(entries[..k])| == TermCut(entries, k)
  {
    ExpandLength(entries[..k]);
    hide Expand, Sum;
    assert Counts(entries[..k])[..k] == Counts(entries)[..k];
  }

  lemma {:induction false} ExpandSplits(entries: seq<Entry>, k: nat)
    requires AllNonEmpty(entries) && k <= |entries|
    ensures AllNonEmpty(entries[..k]) && AllNonEmpty(entries[k..])
    ensures Expand(entries) == Expand(entries[..k]) + Expand(entries[k..])
  {
    hide Expand, Join, ExpandTerm, ExpandParts, AllNonEmpty;
    PartsSplit(entries, k);
    ExpandIsJoin(entries);
    ExpandIsJoin(entries[..k]);
    ExpandIsJoin(entries[k..]);
    JoinConcat(ExpandParts(entries[..k]), ExpandParts(entries[k..]));
  }

  lemma {:induction false} PartsSplit(entries: seq<Entry>, k: nat)
    requires AllNonEmpty(entries) && k <= |entries|
    ensures AllNonEmpty(entries[..k]) && AllNonEmpty(entries[k..])
    ensures ExpandParts(entries) == ExpandParts(entries[..k]) + ExpandParts(entries[k..])
  {
    hide ExpandTerm;
  }

  lemma {:induction false} PrefixCut(entries: seq<Entry>, k: nat)
    requires AllNonEmpty(entries) && entries != [] && k <= |entries| - 1
    ensures AllNonEmpty(entries[..|entries| - 1])
    ensures TermCut(entries[..|entries| - 1], k) == TermCut(entries, k)
  {
    assert Counts(entries)[..k] == Counts(entries[..|entries| - 1])[..k];
  }

  lemma {:induction false} TermsStandForSomething(entries: seq<Entry>)
    requires AllNonEmpty(entries)
    ensures entries != [] <==> Expand(entries) != []
  {
    if entries != [] {
      assert |ExpandTerm(entries[|entries| - 1].term)| > 0;
    }
  }

  // No term list that stands for the same placements is shorter than one no two neighbours of
  // which could be joined.
  lemma {:induction false} NoShorterTerms(a: seq<Entry>, b: seq<Entry>)
    requires AllNonEmpty(a) && AllNonEmpty(b) && Expand(a) == Expand(b)
    requires forall k :: 0 < k < |a| ==> !(a[k - 1].term.xorb == a[k].term.xorb && a[k - 1].term.end == a[k].term.start)
    ensures |a| <= |b|
    decreases |a|
  {
    hide AllNonEmpty, Expand, TermCut;
    TermsStandForSomething(a);
    TermsStandForSomething(b);
    if |a| > 1 {
      var n := |a| - 1;
      var j := CutIn(a, b);
      ExpandPrefix(a, n);
      ExpandPrefix(b, j);
      NoShorterTerms(a[..n], b[..j]);
    }
  }

  // Where the last term of `a` begins, the placements do not continue, so `b` has a cut there.
  lemma {:induction false} CutIn(a: seq<Entry>, b: seq<Entry>) returns (j: nat)
    requires AllNonEmpty(a) && AllNonEmpty(b) && Expand(a) == Expand(b) && |a| > 1
    requires var k := |a| - 1; !(a[k - 1].term.xorb == a[k].term.xorb && a[k - 1].term.end == a[k].term.start)
    ensures j < |b| && TermCut(b, j) == TermCut(a, |a| - 1)
  {
    var p := Seam(a);
    j := TermAt(b, p);
    if TermCut(b, j) != p {
      InsideTerm(b, j, p);
    }
  }

  // The placements on both sides of the last cut, and that they are not consecutive.
  lemma {:induction false} Seam(a: seq<Entry>) returns (p: nat)
    requires AllNonEmpty(a) && |a| > 1
    requires var k := |a| - 1; !(a[k - 1].term.xorb == a[k].term.xorb && a[k - 1].term.end == a[k].term.start)
    ensures p == TermCut(a, |a| - 1) && 0 < p < |Expand(a)|
    ensures !(Expand(a)[p].xorb == Expand(a)[p - 1].xorb && Expand(a)[p].index == Expand(a)[p - 1].index + 1)
  {
    var n := |a| - 1;
    var init, last := a[..n], a[n];
    assert init[..n - 1] + [init[n - 1]] == init;
    ExpandLength(a);
    ExpandLength(init);
    PrefixCut(a, n);
    p := TermCut(a, n);
    assert Expand(init) == Expand(init[..n - 1]) + ExpandTerm(init[n - 1].term);
    assert Expand(a) == Expand(init) + ExpandTerm(last.term);
  }

  // The term of `b` that holds position p.
  lemma {:induction false} TermAt(b: seq<Entry>, p: nat) returns (j: nat)
    requires AllNonEmpty(b) && p < |Expand(b)|
    ensures j < |b| && TermCut(b, j) <= p < TermCut(b, j + 1)
    decreases |b|
  {
    hide Expand, AllNonEmpty, TermCut;
    TermsStandForSomething(b);
    ExpandLength(b);
    var n := |b| - 1;
    if p >= TermCut(b, n) {
      j := n;
    } else {
      PrefixCut(b, n);
      ExpandLength(b[..n]);
      j := TermAt(b[..n], p);
      PrefixCut(b, j);
      PrefixCut(b, j + 1);
    }
  }

  // Inside a term the placements are consecutive.
  lemma {:induction false} InsideTerm(b: seq<Entry>, j: nat, p: nat)
    requires AllNonEmpty(b) && j < |b| && TermCut(b, j) < p < TermCut(b, j + 1)
    ensures p < |Expand(b)|
    ensures Expand(b)[p].xorb == Expand(b)[p - 1].xorb && Expand(b)[p].index == Expand(b)[p - 1].index + 1
  {
    hide AllNonEmpty, Expand, TermCut;
    TermIsNonEmpty(b, j);
    ExpandSlice(b, j);
    var spots, from, to := Expand(b), TermCut(b, j), TermCut(b, j + 1);
    assert spots[from..to][p - from] == spots[p] && spots[from..to][p - from - 1] == spots[p - 1];
  }

  lemma {:induction false} TermIsNonEmpty(entries: seq<Entry>, k: nat)
    requires AllNonEmpty(entries) && k < |entries|
    ensures NonEmpty(entries[k].term)
  {
  }

  // The plan's term list is the shortest that stands for the placements.
  lemma {:induction false} PlanHasFewestTerms(x: Xet, chunks: seq<Chunk>, before: Slots, m: Making, plan: UploadPlan, other: seq<Entry>)
    requires Serialisable(x, chunks) && |before| == |chunks| && PlanMade(x, chunks, before, m, plan)
    requires AllNonEmpty(other) && Expand(other) == SpotsOf(m.slots)
    ensures |m.entries| <= |other|
  {
    hide AllWellFormed, PlacedBy, IsPacking, ClosedWhenFull, DescribesAll, Expand;
    NoShorterTerms(m.entries, other);
  }
}
