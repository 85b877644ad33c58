/**
 The client's upload session (crates/wasm/src/lib.rs): probe for known chunks, apply dedup
 responses, then pack the rest and plan the shard.
 */
module UploadSessions {
  import opened Basics
  import opened XetCore
  import opened Frames
  import opened Packing
  import opened Terms

  /** A dedup response: xorbs with their chunk hashes, each hash keyed with `key`. */
  datatype KeyedShard = KeyedShard(key: Option<Hash>, blocks: seq<CasBlock>)

  datatype ApplyError = MissingHmacKey

  datatype UploadPlan = UploadPlan(
    fileHash: Hash,
    chunkCount: nat,
    dedupedChunkCount: nat,
    xorbs: seq<(Hash, seq<Byte>)>,
    shardBytes: seq<Byte>)

  // ---- probing ----

  /** The two vectors the session updates in place. */
  datatype Progress = Progress(placement: Slots, probed: seq<bool>)

  predicate Aligned(chunks: seq<Chunk>, s: Progress) {
    |s.placement| == |chunks| <= |s.probed|
  }

  // Worth a query now: unresolved, never handed out, and first, a continuation, or eligible.
  predicate Candidate(x: Xet, chunks: seq<Chunk>, s: Progress, i: nat)
    requires Aligned(chunks, s) && i < |chunks|
  {
    && !s.probed[i] && s.placement[i].None?
    && (i == 0 || s.placement[i - 1].Some? || x.dedupEligible(chunks[i].hash))
  }

  // The candidates among the first k chunks, at most `max` of them.
  function Batch(x: Xet, chunks: seq<Chunk>, s: Progress, max: nat, k: nat): (out: seq<nat>)
    requires Aligned(chunks, s) && k <= |chunks|
    ensures |out| <= max
    ensures forall n :: 0 <= n < |out| ==> out[n] < k && Candidate(x, chunks, s, out[n])
    ensures forall n, m :: 0 <= n < m < |out| ==> out[n] < out[m]
    ensures |out| < max ==> forall i :: 0 <= i < k && Candidate(x, chunks, s, i) ==> i in out
  {
    if k == 0 then []
    else
      var before := Batch(x, chunks, s, max, k - 1);
      if |before| < max && Candidate(x, chunks, s, k - 1) then before + [k - 1] else before
  }

  function MarkProbed(probed: seq<bool>, out: seq<nat>): (r: seq<bool>)
    ensures |r| == |probed| && forall i :: 0 <= i < |r| ==> r[i] == (probed[i] || i in out)
  {
    seq(|probed|, i requires 0 <= i < |probed| => probed[i] || i in out)
  }

  // ---- applying a response ----

  type Lookup = map<Hash, Placement>

  // by_keyed_hash after the first `idx` entries of a block, and after whole blocks.
  function BlockLookup(known: Lookup, block: CasBlock, idx: nat): Lookup
    requires idx <= |block.chunks|
  {
    if idx == 0 then known
    else BlockLookup(known, block, idx - 1)[block.chunks[idx - 1] := Placement(block.xorb, idx - 1)]
  }

  function ByKeyedHash(blocks: seq<CasBlock>): Lookup {
    if blocks == [] then map[]
    else
      var last := blocks[|blocks| - 1];
      BlockLookup(ByKeyedHash(blocks[..|blocks| - 1]), last, |last.chunks|)
  }

  function Resolve(x: Xet, chunks: seq<Chunk>, placement: Slots, key: Hash, known: Lookup): (r: Slots)
    requires |placement| == |chunks|
    ensures |r| == |chunks|
  {
    seq(|chunks|, j requires 0 <= j < |chunks| =>
      if placement[j].Some? then placement[j]
      else if x.hmac(chunks[j].hash, key) in known then Some(known[x.hmac(chunks[j].hash, key)])
      else None)
  }

  // Every entry of the lookup table comes from some block, at the index it names.
  ghost predicate FromBlocks(blocks: seq<CasBlock>, keyed: Hash, p: Placement) {
    exists b :: 0 <= b < |blocks| && blocks[b].xorb == p.xorb
      && p.index < |blocks[b].chunks| && blocks[b].chunks[p.index] == keyed
  }

  lemma {:induction false} BlockLookupSound(known: Lookup, block: CasBlock, idx: nat, keyed: Hash)
    requires idx <= |block.chunks| && keyed in BlockLookup(known, block, idx)
    ensures var p := BlockLookup(known, block, idx)[keyed];
      || (keyed in known && p == known[keyed])
      || (p.xorb == block.xorb && p.index < idx && block.chunks[p.index] == keyed)
  {
    if idx > 0 && block.chunks[idx - 1] != keyed {
      BlockLookupSound(known, block, idx - 1, keyed);
    }
  }

  lemma {:induction false} LookupIsSound(blocks: seq<CasBlock>, keyed: Hash)
    requires keyed in ByKeyedHash(blocks)
    ensures FromBlocks(blocks, keyed, ByKeyedHash(blocks)[keyed])
  {
    var n := |blocks| - 1;
    var known, last, p := ByKeyedHash(blocks[..n]), blocks[n], ByKeyedHash(blocks)[keyed];
    BlockLookupSound(known, last, |last.chunks|, keyed);
    if keyed in known && p == known[keyed] {
      LookupIsSound(blocks[..n], keyed);
      var b :| 0 <= b < n && blocks[..n][b].xorb == p.xorb
        && p.index < |blocks[..n][b].chunks| && blocks[..n][b].chunks[p.index] == keyed;
      assert blocks[b] == blocks[..n][b];
    } else {
      assert blocks[n].xorb == p.xorb;
    }
  }

  // ---- runs ----

  /** What the caller may do between creating a session and finishing it. */
  datatype Event = Query(max: nat) | Apply(response: KeyedShard)

  function After(x: Xet, chunks: seq<Chunk>, s: Progress, e: Event): (r: Progress)
    requires Aligned(chunks, s)
    ensures Aligned(chunks, r)
  {
    match e
    case Query(max) => s.(probed := MarkProbed(s.probed, Batch(x, chunks, s, max, |chunks|)))
    case Apply(KeyedShard(None, _)) => s
    case Apply(KeyedShard(Some(key), blocks)) =>
      s.(placement := Resolve(x, chunks, s.placement, key, ByKeyedHash(blocks)))
  }

  function Emitted(x: Xet, chunks: seq<Chunk>, s: Progress, e: Event): seq<nat>
    requires Aligned(chunks, s)
  {
    match e
    case Query(max) => Batch(x, chunks, s, max, |chunks|)
    case Apply(_) => []
  }

  function RunSession(x: Xet, chunks: seq<Chunk>, s: Progress, events: seq<Event>): (r: Progress)
    requires Aligned(chunks, s)
    ensures Aligned(chunks, r)
    decreases |events|
  {
    if events == [] then s else RunSession(x, chunks, After(x, chunks, s, events[0]), events[1..])
  }

  function EmittedBy(x: Xet, chunks: seq<Chunk>, s: Progress, events: seq<Event>): seq<nat>
    requires Aligned(chunks, s)
    decreases |events|
  {
    if events == [] then []
    else Emitted(x, chunks, s, events[0]) + EmittedBy(x, chunks, After(x, chunks, s, events[0]), events[1..])
  }

  // Chunks not handed out yet: what every non-empty batch uses up.
  function Unprobed(probed: seq<bool>, n: nat): nat
    requires n <= |probed|
  {
    if n == 0 then 0 else Unprobed(probed, n - 1) + if probed[n - 1] then 0 else 1
  }

  ghost predicate Distinct(s: seq<nat>) {
    forall i, j :: 0 <= i < j < |s| ==> s[i] != s[j]
  }

  lemma {:induction false} BatchUsesUp(probed: seq<bool>, out: seq<nat>, n: nat)
    requires n <= |probed|
    requires forall i :: 0 <= i < |out| ==> out[i] < n && !probed[out[i]]
    requires forall i, j :: 0 <= i < j < |out| ==> out[i] < out[j]
    ensures Unprobed(MarkProbed(probed, out), n) + |out| == Unprobed(probed, n)
  {
    if n > 0 {
      if out != [] && out[|out| - 1] == n - 1 {
        var init := out[..|out| - 1];
        BatchUsesUp(probed, init, n - 1);
        InitMarks(probed, out, n - 1);
        UnprobedAgree(MarkProbed(probed, out), MarkProbed(probed, init), n - 1);
      } else {
        BatchUsesUp(probed, out, n - 1);
        BelowLast(out, n - 1);
      }
    }
  }

  lemma {:induction false} InitMarks(probed: seq<bool>, out: seq<nat>, n: nat)
    requires n < |probed| && out != [] && out[|out| - 1] == n
    ensures n in out
    ensures forall i :: 0 <= i < n ==> MarkProbed(probed, out)[i] == MarkProbed(probed, out[..|out| - 1])[i]
  {
    assert out == out[..|out| - 1] + [n];
  }

  lemma {:induction false} BelowLast(out: seq<nat>, n: nat)
    requires forall i, j :: 0 <= i < j < |out| ==> out[i] < out[j]
    requires forall i :: 0 <= i < |out| ==> out[i] <= n
    requires out != [] ==> out[|out| - 1] != n
    ensures n !in out && forall i :: 0 <= i < |out| ==> out[i] < n
  {
    forall i | 0 <= i < |out| ensures out[i] < n {
      assert out[i] <= out[|out| - 1];
    }
  }

  lemma {:induction false} UnprobedAgree(a: seq<bool>, b: seq<bool>, n: nat)
    requires n <= |a| && n <= |b| && forall i :: 0 <= i < n ==> a[i] == b[i]
    ensures Unprobed(a, n) == Unprobed(b, n)
  {
    if n > 0 {
      UnprobedAgree(a, b, n - 1);
    }
  }

  // One event: it never unsets a probe or a placement, changes no set placement, and pays
  // for every chunk it emits.
  lemma {:induction false} EventStep(x: Xet, chunks: seq<Chunk>, s: Progress, e: Event)
    requires Aligned(chunks, s)
    ensures var r, out := After(x, chunks, s, e), Emitted(x, chunks, s, e);
      && (forall i :: 0 <= i < |chunks| && s.placement[i].Some? ==> r.placement[i] == s.placement[i])
      && |r.probed| == |s.probed|
      && (forall i :: 0 <= i < |chunks| ==> (r.probed[i] <==> s.probed[i] || i in out))
      && (forall i :: i in out ==> i < |chunks| && !s.probed[i] && s.placement[i].None?)
      && Distinct(out)
      && Unprobed(r.probed, |chunks|) + |out| == Unprobed(s.probed, |chunks|)
  {
    if e.Query? {
      var out := Batch(x, chunks, s, e.max, |chunks|);
      BatchUsesUp(s.probed, out, |chunks|);
    }
  }

  // Over any interleaving of batches and responses: no chunk is handed out twice, a set
  // placement never changes, and the chunks handed out are paid for by the unprobed count,
  // so at most |chunks| batches are ever non-empty.
  lemma {:induction false} ProbingConverges(x: Xet, chunks: seq<Chunk>, s: Progress, events: seq<Event>)
    requires Aligned(chunks, s)
    ensures var r, out := RunSession(x, chunks, s, events), EmittedBy(x, chunks, s, events);
      && (forall i :: 0 <= i < |chunks| && s.placement[i].Some? ==> r.placement[i] == s.placement[i])
      && Distinct(out)
      && (forall i :: i in out ==> i < |chunks| && !s.probed[i])
      && |r.probed| == |s.probed|
      && Unprobed(r.probed, |chunks|) + |out| == Unprobed(s.probed, |chunks|)
    decreases |events|
  {
    if events != [] {
      EventStep(x, chunks, s, events[0]);
      var next := After(x, chunks, s, events[0]);
      ProbingConverges(x, chunks, next, events[1..]);
      var a, b := Emitted(x, chunks, s, events[0]), EmittedBy(x, chunks, next, events[1..]);
      hide After, Emitted, EmittedBy, RunSession, Unprobed;
      DistinctJoin(a, b);
    }
  }

  lemma {:induction false} DistinctJoin(a: seq<nat>, b: seq<nat>)
    requires Distinct(a) && Distinct(b) && forall i :: i in b ==> i !in a
    ensures Distinct(a + b)
  {
    forall i, j | 0 <= i < j < |a + b| ensures (a + b)[i] != (a + b)[j] {
      if i < |a| <= j {
        assert b[j - |a|] in b && a[i] in a;
      }
    }
  }

  // An empty batch, asked for with room, means nothing is left to ask.
  lemma {:induction false} EmptyBatchMeansDone(x: Xet, chunks: seq<Chunk>, s: Progress, max: nat)
    requires Aligned(chunks, s) && max > 0
    ensures Batch(x, chunks, s, max, |chunks|) == [] <==>
      forall i :: 0 <= i < |chunks| ==> !Candidate(x, chunks, s, i)
  {
    var out := Batch(x, chunks, s, max, |chunks|);
    if out != [] {
      assert Candidate(x, chunks, s, out[0]);
    }
  }

  // ---- the plan ----

  function PackedFrame(x: Xet, data: seq<Byte>): Frame {
    Frame(0, x.pack(data).0, x.pack(data).1, data)
  }

  function PackedFrames(x: Xet, chunks: seq<Chunk>): (r: seq<Frame>)
    ensures |r| == |chunks| && forall i :: 0 <= i < |chunks| ==> r[i] == PackedFrame(x, chunks[i].data)
  {
    seq(|chunks|, i requires 0 <= i < |chunks| => PackedFrame(x, chunks[i].data))
  }

  // The serialiser writes frames its own reader takes back.
  ghost predicate Serialisable(x: Xet, chunks: seq<Chunk>) {
    AllWellFormed(x, PackedFrames(x, chunks))
  }

  function At(chunks: seq<Chunk>, g: seq<nat>): (r: seq<Chunk>)
    requires InRange(chunks, g)
    ensures |r| == |g| && forall i :: 0 <= i < |g| ==> r[i] == chunks[g[i]]
  {
    seq(|g|, i requires 0 <= i < |g| => chunks[g[i]])
  }

  function Datas(chunks: seq<Chunk>): (r: seq<seq<Byte>>)
    ensures |r| == |chunks| && forall i :: 0 <= i < |chunks| ==> r[i] == chunks[i].data
  {
    seq(|chunks|, i requires 0 <= i < |chunks| => chunks[i].data)
  }

  // seal_xorb: what the serialiser writes for the chunks of one group.
  function SealedBytes(x: Xet, chunks: seq<Chunk>): seq<Byte>
    requires Serialisable(x, chunks)
  {
    PrintAll(x, PackedFrames(x, chunks)) + x.footerOf(Datas(chunks))
  }

  lemma {:induction false} GroupSerialisable(x: Xet, chunks: seq<Chunk>, g: seq<nat>)
    requires Serialisable(x, chunks) && InRange(chunks, g)
    ensures Serialisable(x, At(chunks, g))
  {
    forall i | 0 <= i < |g| ensures WellFormed(x, PackedFrames(x, At(chunks, g))[i]) {
      assert WellFormed(x, PackedFrames(x, chunks)[g[i]]);
    }
  }

  function SizedChunks(chunks: seq<Chunk>): (r: seq<(Hash, nat)>)
    ensures |r| == |chunks| && forall i :: 0 <= i < |chunks| ==> r[i] == (chunks[i].hash, |chunks[i].data|)
  {
    seq(|chunks|, i requires 0 <= i < |chunks| => var size: nat := |chunks[i].data|; (chunks[i].hash, size))
  }

  function DedupedCount(placement: Slots): nat {
    if placement == [] then 0
    else DedupedCount(placement[..|placement| - 1]) + if placement[|placement| - 1].Some? then 1 else 0
  }

  function GroupXorb(x: Xet, chunks: seq<Chunk>, g: seq<nat>): (Hash, seq<Byte>)
    requires Serialisable(x, chunks) && InRange(chunks, g)
  {
    GroupSerialisable(x, chunks, g);
    (GroupHash(x, chunks, g), SealedBytes(x, At(chunks, g)))
  }

  function GroupBlock(x: Xet, chunks: seq<Chunk>, g: seq<nat>): CasBlock
    requires InRange(chunks, g)
  {
    CasBlock(GroupHash(x, chunks, g), ChunkHashes(At(chunks, g)))
  }

  function SpotsOf(slots: Slots): (spots: Spots)
    requires forall i :: 0 <= i < |slots| ==> slots[i].Some?
    ensures |spots| == |slots| && forall i :: 0 <= i < |slots| ==> spots[i] == slots[i].value
  {
    seq(|slots|, i requires 0 <= i < |slots| => slots[i].value)
  }

  function PlannedShard(x: Xet, chunks: seq<Chunk>, groups: seq<seq<nat>>, entries: seq<Entry>): Shard
    requires forall k :: 0 <= k < |groups| ==> InRange(chunks, groups[k])
  {
    Shard(
      [FileBlock(x.fileHash(SizedChunks(chunks)), true, entries)],
      seq(|groups|, k requires 0 <= k < |groups| => GroupBlock(x, chunks, groups[k])))
  }

  /** How a plan was made: its packing groups, the placement of every chunk, and the terms. */
  datatype Making = Making(groups: seq<seq<nat>>, slots: Slots, entries: seq<Entry>)

  ghost predicate PlanMade(x: Xet, chunks: seq<Chunk>, before: Slots, m: Making, plan: UploadPlan)
    requires Serialisable(x, chunks) && |before| == |chunks|
  {
    && PlacedBy(x, chunks, before, m.groups, m.slots)
    && (forall i :: 0 <= i < |m.slots| ==> m.slots[i].Some?)
    && IsPacking(x, chunks, Unresolved(before, |before|), m.groups)
    && ClosedWhenFull(x, chunks, m.groups)
    && AllNonEmpty(m.entries) && Expand(m.entries) == SpotsOf(m.slots)
    && Maximal(m.entries) && DescribesAll(x, chunks, m.entries)
    && plan.fileHash == x.fileHash(SizedChunks(chunks))
    && plan.chunkCount == |chunks|
    && plan.dedupedChunkCount == DedupedCount(before)
    && |plan.xorbs| == |m.groups|
    && (forall k :: 0 <= k < |m.groups| ==> plan.xorbs[k] == GroupXorb(x, chunks, m.groups[k]))
    && plan.shardBytes == x.printShard(PlannedShard(x, chunks, m.groups, m.entries))
  }

  method BuildPlan(x: Xet, chunks: seq<Chunk>, before: Slots) returns (plan: UploadPlan, ghost making: Making)
    requires |before| == |chunks| && Serialisable(x, chunks)
    ensures PlanMade(x, chunks, before, making, plan)
    ensures plan.fileHash == x.fileHash(SizedChunks(chunks))
    ensures plan.chunkCount == |chunks| && plan.dedupedChunkCount == DedupedCount(before)
  {
    hide AllWellFormed, PlacedBy, IsPacking, ClosedWhenFull, DescribesAll, Maximal, Expand;
    var deduped := 0;
    for i := 0 to |before|
      invariant deduped == DedupedCount(before[..i])
    {
      assert before[..i + 1][..i] == before[..i];
      deduped := deduped + if before[i].Some? then 1 else 0;
    }
    assert before[..|before|] == before;
    var slots, groups := PackChunks(x, chunks, before);
    var xorbs: seq<(Hash, seq<Byte>)> := [];
    assert forall k :: 0 <= k < |groups| ==> InRange(chunks, groups[k]) by { GroupsInRange(x, chunks, before, groups, slots); }
    for k := 0 to |groups|
      invariant |xorbs| == k && forall j :: 0 <= j < k ==> xorbs[j] == GroupXorb(x, chunks, groups[j])
    {
      xorbs := xorbs + [GroupXorb(x, chunks, groups[k])];
    }
    var entries := Coalesce(x, chunks, SpotsOf(slots));
    plan := UploadPlan(
      x.fileHash(SizedChunks(chunks)), |chunks|, deduped, xorbs,
      x.printShard(PlannedShard(x, chunks, groups, entries)));
    making := Making(groups, slots, entries);
  }

  lemma {:induction false} GroupsInRange(x: Xet, chunks: seq<Chunk>, before: Slots, groups: seq<seq<nat>>, slots: Slots)
    requires PlacedBy(x, chunks, before, groups, slots)
    ensures forall k :: 0 <= k < |groups| ==> InRange(chunks, groups[k])
  {
  }

  // ---- the session object ----

  class UploadSession {
    const x: Xet
    var chunks: seq<Chunk>
    var placement: Slots
    var probed: seq<bool>

    ghost predicate Valid()
      reads this
    {
      Aligned(chunks, State())
    }

    function State(): Progress
      reads this
    {
      Progress(placement, probed)
    }

    // The chunker's output, with nothing resolved and nothing probed.
    constructor (x: Xet, chunks: seq<Chunk>)
      ensures Valid() && this.x == x && this.chunks == chunks
      ensures State() == Progress(seq(|chunks|, _ => None), seq(|chunks|, _ => false))
    {
      this.x := x;
      this.chunks := chunks;
      this.placement := seq(|chunks|, _ => None);
      this.probed := seq(|chunks|, _ => false);
    }

    method NextQueryBatch(max: nat) returns (hashes: seq<Hash>)
      requires Valid()
      modifies `probed
      ensures Valid() && State() == After(x, chunks, old(State()), Query(max))
      ensures hashes == HashesAt(chunks, Emitted(x, chunks, old(State()), Query(max)))
    {
      hide Probing, Batch, MarkProbed, After, Emitted, HashesAt;
      hashes := [];
      ghost var s := State();
      ProbingStarts(x, chunks, s, max);
      for i := 0 to |chunks|
        invariant chunks == old(chunks) && placement == s.placement
        invariant Probing(x, chunks, s, max, i, probed, hashes)
      {
        ProbeTurn(x, chunks, s, max, i, probed, hashes);
        if |hashes| >= max { break; }
        if probed[i] || placement[i].Some? { continue; }
        var afterResolved := i > 0 && placement[i - 1].Some?;
        if i == 0 || afterResolved || x.dedupEligible(chunks[i].hash) {
          probed := probed[i := true];
          hashes := hashes + [chunks[i].hash];
        }
      }
      ProbingEnds(x, chunks, s, max, probed, hashes);
    }

    method ApplyDedupShard(response: KeyedShard) returns (r: Result<(), ApplyError>)
      requires Valid()
      modifies `placement
      ensures r.Ok? <==> response.key.Some?
      ensures Valid() && State() == After(x, chunks, old(State()), Apply(response))
    {
      if response.key.None? { return Err(MissingHmacKey); }
      var key := response.key.value;
      var known := CollectLookup(response.blocks);
      ghost var before := placement;
      for j := 0 to |chunks|
        invariant Valid() && probed == old(probed)
        invariant forall i :: 0 <= i < |chunks| ==>
          placement[i] == if i < j then Resolve(x, chunks, before, key, known)[i] else before[i]
      {
        if placement[j].Some? { continue; }
        var keyed := x.hmac(chunks[j].hash, key);
        if keyed in known {
          placement := placement[j := Some(known[keyed])];
        }
      }
      assert placement == Resolve(x, chunks, before, key, known);
      return Ok(());
    }

    // Pack, plan, and leave the session empty: chunks and placement are taken.
    method Finish() returns (plan: UploadPlan, ghost making: Making)
      requires Valid() && Serialisable(x, chunks)
      modifies `chunks, `placement
      ensures PlanMade(x, old(chunks), old(placement), making, plan)
      ensures Valid() && chunks == [] && placement == [] && probed == old(probed)
    {
      var taken, slots := chunks, placement;
      chunks, placement := [], [];
      plan, making := BuildPlan(x, taken, slots);
    }
  }

  function HashesAt(chunks: seq<Chunk>, g: seq<nat>): seq<Hash>
    requires InRange(chunks, g)
  {
    ChunkHashes(At(chunks, g))
  }

  // The probing loop after i chunks: the batch so far, and exactly those chunks marked.
  ghost predicate Probing(x: Xet, chunks: seq<Chunk>, s: Progress, max: nat, i: nat, probed: seq<bool>, hashes: seq<Hash>) {
    && Aligned(chunks, s) && i <= |chunks|
    && hashes == HashesAt(chunks, Batch(x, chunks, s, max, i))
    && probed == MarkProbed(s.probed, Batch(x, chunks, s, max, i))
  }

  lemma {:induction false} ProbingStarts(x: Xet, chunks: seq<Chunk>, s: Progress, max: nat)
    requires Aligned(chunks, s)
    ensures Probing(x, chunks, s, max, 0, s.probed, [])
  {
    assert s.probed == MarkProbed(s.probed, []);
  }

  // Whether the loop ran out of chunks or out of room, the batch is complete.
  lemma {:induction false} ProbingEnds(
    x: Xet, chunks: seq<Chunk>, s: Progress, max: nat, probed: seq<bool>, hashes: seq<Hash>)
    requires Probing(x, chunks, s, max, |chunks|, probed, hashes)
    ensures hashes == HashesAt(chunks, Emitted(x, chunks, s, Query(max)))
    ensures s.(probed := probed) == After(x, chunks, s, Query(max))
  {
  }

  lemma {:induction false} ProbeTurn(
    x: Xet, chunks: seq<Chunk>, s: Progress, max: nat, i: nat, probed: seq<bool>, hashes: seq<Hash>)
    requires Probing(x, chunks, s, max, i, probed, hashes) && i < |chunks|
    ensures |probed| == |s.probed| && |hashes| <= max && i < |probed| && probed[i] == s.probed[i]
    ensures |hashes| < max ==>
      if Candidate(x, chunks, s, i) then Probing(x, chunks, s, max, i + 1, probed[i := true], hashes + [chunks[i].hash])
      else Probing(x, chunks, s, max, i + 1, probed, hashes)
    ensures |hashes| >= max ==> Probing(x, chunks, s, max, |chunks|, probed, hashes)
  {
    var out := Batch(x, chunks, s, max, i);
    if |out| < max && Candidate(x, chunks, s, i) {
      assert probed[i := true] == MarkProbed(s.probed, out + [i]);
      assert HashesAt(chunks, out + [i]) == HashesAt(chunks, out) + [chunks[i].hash];
    }
    if |out| >= max {
      BatchFull(x, chunks, s, max, i, |chunks|);
    }
  }

  lemma {:induction false} BatchFull(x: Xet, chunks: seq<Chunk>, s: Progress, max: nat, i: nat, k: nat)
    requires Aligned(chunks, s) && i <= k <= |chunks| && |Batch(x, chunks, s, max, i)| == max
    ensures Batch(x, chunks, s, max, k) == Batch(x, chunks, s, max, i)
  {
    hide Batch;
    if i < k {
      BatchFull(x, chunks, s, max, i, k - 1);
      FullStays(x, chunks, s, max, k - 1);
    }
  }

  lemma {:induction false} FullStays(x: Xet, chunks: seq<Chunk>, s: Progress, max: nat, k: nat)
    requires Aligned(chunks, s) && k < |chunks| && |Batch(x, chunks, s, max, k)| == max
    ensures Batch(x, chunks, s, max, k + 1) == Batch(x, chunks, s, max, k)
  {
    hide Candidate;
  }

  method CollectLookup(blocks: seq<CasBlock>) returns (known: Lookup)
    ensures known == ByKeyedHash(blocks)
  {
    known := map[];
    for b := 0 to |blocks|
      invariant known == ByKeyedHash(blocks[..b])
    {
      var block := blocks[b];
      assert blocks[..b + 1][..b] == blocks[..b];
      ghost var start := known;
      for idx := 0 to |block.chunks|
        invariant known == BlockLookup(start, block, idx)
      {
        known := known[block.chunks[idx] := Placement(block.xorb, idx)];
      }
    }
    assert blocks[..|blocks|] == blocks;
  }
}
