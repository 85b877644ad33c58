/**
 Which chunks an upload session asks about, and what an answer resolves (crates/wasm/src/lib.rs
 `next_query_batch`, `apply_dedup_shard`), said of the session's two vectors themselves.
 */
module Queries {
  import opened Basics
  import opened XetCore
  import opened XorbMeta
  import opened Packing
  import opened UploadSessions
  import opened Store
  import opened Invariants
  import opened Discovery
  import opened RoundTrip
  import opened Serving

  // ---- what is asked ----

  // The chunks k and up are all past the batch; below k everything worth asking is in it, up to
  // the batch's last.
  lemma {:induction false} FullBatchIsFirst(x: Xet, chunks: seq<Chunk>, s: Progress, max: nat, k: nat, i: nat)
    requires Aligned(chunks, s) && k <= |chunks| && i < k
    ensures var out := Batch(x, chunks, s, max, k);
      Candidate(x, chunks, s, i) && i !in out ==> |out| == max && forall n :: 0 <= n < |out| ==> out[n] < i
  {
    hide Candidate;
    if i < k - 1 {
      FullBatchIsFirst(x, chunks, s, max, k - 1, i);
    }
  }

  // A batch is the first `max` of the chunks that were never handed out, are unresolved, and are
  // the first chunk, follow a resolved one, or are eligible.
  lemma {:induction false} BatchIsFirstWorthAsking(x: Xet, chunks: seq<Chunk>, s: Progress, max: nat, i: nat)
    requires |s.placement| == |chunks| <= |s.probed| && i < |chunks|
    ensures var out := Emitted(x, chunks, s, Query(max));
      var worth := !s.probed[i] && s.placement[i].None?
        && (i == 0 || s.placement[i - 1].Some? || x.dedupEligible(chunks[i].hash));
      && |out| <= max
      && (forall m, n :: 0 <= m < n < |out| ==> out[m] < out[n])
      && (i in out ==> worth)
      && (worth && i !in out ==> |out| == max && forall n :: 0 <= n < |out| ==> out[n] < i)
      && (|out| < max ==> (i in out <==> worth))
  {
    FullBatchIsFirst(x, chunks, s, max, |chunks|, i);
  }

  // The hashes handed out are those of the batch, in order.
  lemma {:induction false} AskedHashes(x: Xet, chunks: seq<Chunk>, s: Progress, max: nat)
    requires Aligned(chunks, s)
    ensures var out, hashes := Emitted(x, chunks, s, Query(max)), HashesAt(chunks, Emitted(x, chunks, s, Query(max)));
      |hashes| == |out| && forall n :: 0 <= n < |out| ==> out[n] < |chunks| && hashes[n] == chunks[out[n]].hash
  {
    hide Batch;
  }

  // A new session asks about its first chunk first, whether it is eligible or not.
  lemma {:induction false} FirstChunkFirst(x: Xet, chunks: seq<Chunk>, max: nat)
    requires chunks != [] && max > 0
    ensures var s := Progress(seq(|chunks|, _ => None), seq(|chunks|, _ => false));
      && Emitted(x, chunks, s, Query(max)) != [] && Emitted(x, chunks, s, Query(max))[0] == 0
      && HashesAt(chunks, Emitted(x, chunks, s, Query(max)))[0] == chunks[0].hash
  {
    var s := Progress(seq(|chunks|, _ => None), seq(|chunks|, _ => false));
    BatchIsFirstWorthAsking(x, chunks, s, max, 0);
    hide Emitted;
    AskedHashes(x, chunks, s, max);
    var out := Emitted(x, chunks, s, Query(max));
    if 0 !in out {
      assert false;
    }
  }

  // After any response, the chunk behind a resolved one is offered next, if it is unresolved, was
  // never handed out, and the batch has room.
  lemma {:induction false} ContinuationIsOffered(x: Xet, chunks: seq<Chunk>, s: Progress, response: KeyedShard, max: nat, i: nat)
    requires |s.placement| == |chunks| <= |s.probed| && i + 1 < |chunks|
    requires var next := After(x, chunks, s, Apply(response));
      next.placement[i].Some? && next.placement[i + 1].None? && !next.probed[i + 1]
    ensures var out := Emitted(x, chunks, After(x, chunks, s, Apply(response)), Query(max));
      i + 1 in out || (|out| == max && forall n :: 0 <= n < |out| ==> out[n] < i + 1)
  {
    hide Emitted, Resolve;
    BatchIsFirstWorthAsking(x, chunks, After(x, chunks, s, Apply(response)), max, i + 1);
  }

  // When a batch with room comes back empty, and every chunk handed out was found, the whole
  // file is known: no chunk is left to upload.
  lemma {:induction false} AllKnownWhenDone(x: Xet, chunks: seq<Chunk>, s: Progress, max: nat, i: nat)
    requires |s.placement| == |chunks| <= |s.probed| && max > 0
    requires Emitted(x, chunks, s, Query(max)) == []
    requires forall j :: 0 <= j < |chunks| && s.probed[j] ==> s.placement[j].Some?
    ensures forall j :: 0 <= j < i && j < |chunks| ==> s.placement[j].Some?
  {
    hide Emitted;
    if 0 < i {
      AllKnownWhenDone(x, chunks, s, max, i - 1);
      if i - 1 < |chunks| {
        BatchIsFirstWorthAsking(x, chunks, s, max, i - 1);
      }
    }
  }

  // ---- what an answer resolves ----

  ghost predicate HeldBy(block: CasBlock, keyed: Hash) {
    exists i :: 0 <= i < |block.chunks| && block.chunks[i] == keyed
  }

  // Index i is the last of the first n at which the block holds the hash.
  ghost predicate LastIn(block: CasBlock, keyed: Hash, n: int, i: int) {
    && 0 <= i < n <= |block.chunks| && block.chunks[i] == keyed
    && forall j :: i < j < n ==> block.chunks[j] != keyed
  }

  // Block b holds the hash at index i, and neither a later index of it nor a later block does.
  ghost predicate LastAt(blocks: seq<CasBlock>, keyed: Hash, b: int, i: int) {
    && 0 <= b < |blocks| && LastIn(blocks[b], keyed, |blocks[b].chunks|, i)
    && forall c :: b < c < |blocks| ==> !HeldBy(blocks[c], keyed)
  }

  lemma {:induction false} BlockMisses(known: Lookup, block: CasBlock, idx: nat, keyed: Hash)
    requires idx <= |block.chunks| && forall j :: 0 <= j < idx ==> block.chunks[j] != keyed
    ensures var next := BlockLookup(known, block, idx);
      (keyed in next <==> keyed in known) && (keyed in known ==> next[keyed] == known[keyed])
  {
    if idx > 0 {
      BlockMisses(known, block, idx - 1, keyed);
    }
  }

  lemma {:induction false} BlockHits(known: Lookup, block: CasBlock, idx: nat, keyed: Hash, i: int)
    requires LastIn(block, keyed, idx, i)
    ensures keyed in BlockLookup(known, block, idx) && BlockLookup(known, block, idx)[keyed] == Placement(block.xorb, i)
  {
    if i < idx - 1 {
      BlockHits(known, block, idx - 1, keyed, i);
    }
  }

  lemma {:induction false} LastIndex(block: CasBlock, keyed: Hash, n: nat) returns (i: nat)
    requires n <= |block.chunks| && exists j :: 0 <= j < n && block.chunks[j] == keyed
    ensures LastIn(block, keyed, n, i)
  {
    if block.chunks[n - 1] == keyed {
      i := n - 1;
    } else {
      i := LastIndex(block, keyed, n - 1);
    }
  }

  // The lookup table has a hash exactly if some block holds it.
  lemma {:induction false} LookupHas(blocks: seq<CasBlock>, keyed: Hash)
    ensures keyed in ByKeyedHash(blocks) <==> exists b :: 0 <= b < |blocks| && HeldBy(blocks[b], keyed)
  {
    if blocks != [] {
      var n := |blocks| - 1;
      var init, last := blocks[..n], blocks[n];
      LookupHas(init, keyed);
      EarlierBlock(init, last, keyed);
      assert init + [last] == blocks;
      LastBlockDecides(ByKeyedHash(init), last, keyed);
      hide BlockLookup, HeldBy;
    }
  }

  lemma {:induction false} LastBlockDecides(known: Lookup, last: CasBlock, keyed: Hash)
    ensures keyed in BlockLookup(known, last, |last.chunks|) <==> keyed in known || HeldBy(last, keyed)
  {
    hide BlockLookup;
    if HeldBy(last, keyed) {
      var i := LastIndex(last, keyed, |last.chunks|);
      BlockHits(known, last, |last.chunks|, keyed, i);
    } else {
      BlockMisses(known, last, |last.chunks|, keyed);
    }
  }

  // And then it names the last place.
  lemma {:induction false} LookupNamesLast(blocks: seq<CasBlock>, keyed: Hash, b: int, i: int)
    requires LastAt(blocks, keyed, b, i)
    ensures keyed in ByKeyedHash(blocks) && ByKeyedHash(blocks)[keyed] == Placement(blocks[b].xorb, i)
  {
    var n := |blocks| - 1;
    var init, last := blocks[..n], blocks[n];
    hide BlockLookup, LastIn;
    if b == n {
      BlockHits(ByKeyedHash(init), last, |last.chunks|, keyed, i);
    } else {
      assert !HeldBy(blocks[n], keyed);
      assert forall c :: 0 <= c < n ==> init[c] == blocks[c];
      LookupNamesLast(init, keyed, b, i);
      BlockMisses(ByKeyedHash(init), last, |last.chunks|, keyed);
    }
  }

  lemma {:induction false} LookupIsLast(blocks: seq<CasBlock>, keyed: Hash)
    ensures keyed in ByKeyedHash(blocks) <==> exists b :: 0 <= b < |blocks| && HeldBy(blocks[b], keyed)
    ensures forall b, i :: LastAt(blocks, keyed, b, i) ==>
      keyed in ByKeyedHash(blocks) && ByKeyedHash(blocks)[keyed] == Placement(blocks[b].xorb, i)
  {
    hide ByKeyedHash, HeldBy;
    LookupHas(blocks, keyed);
    forall b, i | LastAt(blocks, keyed, b, i)
      ensures keyed in ByKeyedHash(blocks) && ByKeyedHash(blocks)[keyed] == Placement(blocks[b].xorb, i)
    {
      LookupNamesLast(blocks, keyed, b, i);
    }
  }

  lemma {:induction false} EarlierBlock(init: seq<CasBlock>, last: CasBlock, keyed: Hash)
    ensures var blocks := init + [last];
      (exists b :: 0 <= b < |blocks| && HeldBy(blocks[b], keyed)) <==>
        HeldBy(last, keyed) || exists b :: 0 <= b < |init| && HeldBy(init[b], keyed)
  {
    hide HeldBy;
    var blocks := init + [last];
    assert blocks[|init|] == last;
    if b :| 0 <= b < |init| && HeldBy(init[b], keyed) {
      assert HeldBy(blocks[b], keyed);
    }
  }

  // A response resolves exactly the unresolved chunks whose keyed hash one of its blocks holds,
  // to the last place that holds it; it changes no placement and marks no chunk. One without a
  // key changes nothing.
  lemma {:induction false} ResolvesExactly(x: Xet, chunks: seq<Chunk>, s: Progress, response: KeyedShard, j: nat)
    requires |s.placement| == |chunks| <= |s.probed| && j < |chunks|
    ensures var next, blocks := After(x, chunks, s, Apply(response)), response.blocks;
      && next.probed == s.probed
      && (response.key.None? ==> next == s)
      && (s.placement[j].Some? ==> next.placement[j] == s.placement[j])
      && (response.key.Some? && s.placement[j].None? ==>
            var keyed := x.hmac(chunks[j].hash, response.key.value);
            && (next.placement[j].Some? <==> exists b :: 0 <= b < |blocks| && HeldBy(blocks[b], keyed))
            && forall b, i :: LastAt(blocks, keyed, b, i) ==> next.placement[j] == Some(Placement(blocks[b].xorb, i)))
  {
    hide ByKeyedHash, HeldBy, LastAt;
    if response.key.Some? {
      LookupIsLast(response.blocks, x.hmac(chunks[j].hash, response.key.value));
    }
  }

  // ---- a hit ----

  lemma {:induction false} LocatedIff(rows: seq<Row>, c: Hash, h: Hash)
    ensures h in Located(rows, c) <==> exists i :: Row(c, h, i) in rows
  {
    LocationsAre(rows, c);
    hide Locations;
    if r :| r in Locations(rows, c) && r.xorb == h {
      assert Row(c, h, r.index) in rows;
    }
    if i :| Row(c, h, i) in rows {
      assert Row(c, h, i) in Locations(rows, c);
    }
  }

  lemma {:induction false} LocationsAre(rows: seq<Row>, c: Hash)
    ensures forall r :: r in Locations(rows, c) <==> r in rows && r.chunk == c
  {
    if rows != [] {
      var init, last := rows[..|rows| - 1], rows[|rows| - 1];
      LocationsAre(init, c);
      assert rows == init + [last];
    }
  }

  // Whoever asks about a chunk that some stored xorb holds gets an answer that resolves every
  // chunk of his with that hash, whatever key the answer is under.
  lemma {:induction false} HitResolves(
    x: Xet, st: State, h: Hash, i: nat, key: Hash, response: KeyedShard, chunks: seq<Chunk>, s: Progress, j: nat)
    requires Inv(x, st) && AllIndexed(x, st) && h in st.xorbs && i < |FramesOf(x, st.xorbs[h].bytes)|
    requires |s.placement| == |chunks| <= |s.probed| && j < |chunks|
    requires chunks[j].hash == x.dataHash(FramesOf(x, st.xorbs[h].bytes)[i].raw)
    requires DedupAnswer(x, st, key, response) && BlocksFor(response.blocks, Located(st.rows, chunks[j].hash))
    ensures After(x, chunks, s, Apply(response)).placement[j].Some?
  {
    hide Inv, FramesOf, Located, Resolve;
    var fs, c := FramesOf(x, st.xorbs[h].bytes), chunks[j].hash;
    assert XorbIndexed(x, st, h);
    assert Row(HashesOf(x, fs)[i], h, i) in st.rows;
    LocatedIff(st.rows, c, h);
    var b :| 0 <= b < |response.blocks| && response.blocks[b].xorb == h;
    assert DedupBlock(x, st, key, response.blocks[b]);
    TriplesDescribeStored(x, st, h);
    assert response.blocks[b].chunks[i] == x.hmac(c, key);
    assert HeldBy(response.blocks[b], x.hmac(c, key));
    hide After;
    ResolvesExactly(x, chunks, s, response, j);
  }
}
