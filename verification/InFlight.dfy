/**
 What the grace period promises an upload in flight (crates/server/src/gc.rs): between posting
 a plan's xorbs and registering its shard anything may run, collections included.
 */
module InFlight {
  import opened Basics
  import opened XetCore
  import opened Frames
  import opened XorbMeta
  import opened Packing
  import opened Terms
  import opened UploadSessions
  import opened Store
  import opened Invariants
  import opened Collection
  import opened RoundTrip

  // ---- what becomes of one stored xorb ----

  // If this event is a collection, it finds the xorb marked, or stored within its grace period.
  ghost predicate KeptBy(x: Xet, st: State, e: Store.Event, h: Hash)
    requires h in st.xorbs
  {
    e.CollectGarbage? ==> Referenced(x, st, h) || e.now - st.xorbs[h].mtime < e.grace
  }

  ghost predicate KeptThroughout(x: Xet, st: State, events: seq<Store.Event>, h: Hash)
    decreases |events|
  {
    && h in st.xorbs
    && (events == [] || (KeptBy(x, st, events[0], h) && KeptThroughout(x, Step(x, st, events[0]), events[1..], h)))
  }

  predicate NotReposted(events: seq<Store.Event>, h: Hash) {
    forall i :: 0 <= i < |events| ==> !(events[i].UploadXorb? && events[i].hash == h)
  }

  // Every collection among the events counts objects stored at `since` as young.
  predicate PassesWithin(events: seq<Store.Event>, since: int) {
    forall i :: 0 <= i < |events| && events[i].CollectGarbage? ==> events[i].now - since < events[i].grace
  }

  lemma {:induction false} StepKeepsIff(x: Xet, st: State, e: Store.Event, h: Hash)
    requires Inv(x, st) && h in st.xorbs
    ensures h in Step(x, st, e).xorbs <==> KeptBy(x, st, e, h)
    ensures h in Step(x, st, e).xorbs ==> Step(x, st, e).xorbs[h] == st.xorbs[h]
  {
    hide Inv, PostXorb, Register, Delete, Gc, Referenced;
    if e.CollectGarbage? {
      PassKeepsIff(x, st, e.now, e.grace, h);
      KeptAsItWas(x, st, e.now, e.grace, h);
    } else {
      OtherStepsKeep(x, st, e, h);
    }
  }

  lemma {:induction false} KeptAsItWas(x: Xet, st: State, now: int, grace: int, h: Hash)
    ensures h in Gc(x, st, now, grace).xorbs ==> h in st.xorbs && Gc(x, st, now, grace).xorbs[h] == st.xorbs[h]
  {
    hide Reachable, LiveShards, CorruptShard, InGrace, DropAllRows;
  }

  lemma {:induction false} OtherStepsKeep(x: Xet, st: State, e: Store.Event, h: Hash)
    requires !e.CollectGarbage? && h in st.xorbs
    ensures h in Step(x, st, e).xorbs && Step(x, st, e).xorbs[h] == st.xorbs[h]
  {
    hide ValidUpload, ValidatedInfo, Owners, PutBatch, ClaimFiles, IndexFiles, BodyLayout;
  }

  lemma {:induction false} StepAddsOnlyPosted(x: Xet, st: State, e: Store.Event, h: Hash)
    requires h !in st.xorbs && !(e.UploadXorb? && e.hash == h)
    ensures h !in Step(x, st, e).xorbs
  {
    hide ValidUpload, ValidatedInfo, Reachable, LiveShards, CorruptShard, InGrace, Owners, PutBatch, ClaimFiles, IndexFiles;
  }

  lemma {:induction false} AbsentStays(x: Xet, st: State, events: seq<Store.Event>, h: Hash)
    requires h !in st.xorbs && NotReposted(events, h)
    ensures h !in Run(x, st, events).xorbs
    decreases |events|
  {
    hide Step;
    if events != [] {
      StepAddsOnlyPosted(x, st, events[0], h);
      AbsentStays(x, Step(x, st, events[0]), events[1..], h);
    }
  }

  // Re-uploading a stored xorb changes neither the xorb nor its time.
  lemma {:induction false} KeptIsStored(x: Xet, st: State, events: seq<Store.Event>, h: Hash)
    requires Trusted(x) && Inv(x, st) && KeptThroughout(x, st, events, h)
    ensures h in Run(x, st, events).xorbs && Run(x, st, events).xorbs[h] == st.xorbs[h]
    decreases |events|
  {
    hide Trusted, Inv, Step, KeptBy;
    if events != [] {
      StepKeepsIff(x, st, events[0], h);
      StepKeepsInv(x, st, events[0]);
      KeptIsStored(x, Step(x, st, events[0]), events[1..], h);
    }
  }

  // A xorb nobody re-uploads is stored in the end exactly if every collection kept it.
  lemma {:induction false} StoredIffKept(x: Xet, st: State, events: seq<Store.Event>, h: Hash)
    requires Trusted(x) && Inv(x, st) && h in st.xorbs && NotReposted(events, h)
    ensures h in Run(x, st, events).xorbs <==> KeptThroughout(x, st, events, h)
    decreases |events|
  {
    hide Trusted, Inv, Step, KeptBy;
    if events != [] {
      var next := Step(x, st, events[0]);
      StepKeepsIff(x, st, events[0], h);
      StepKeepsInv(x, st, events[0]);
      if h in next.xorbs {
        StoredIffKept(x, next, events[1..], h);
      } else {
        AbsentStays(x, next, events[1..], h);
      }
    }
  }

  // Collections within grace of its upload time keep it.
  lemma {:induction false} YoungIsKept(x: Xet, st: State, events: seq<Store.Event>, h: Hash)
    requires Trusted(x) && Inv(x, st) && h in st.xorbs && PassesWithin(events, st.xorbs[h].mtime)
    ensures KeptThroughout(x, st, events, h)
    decreases |events|
  {
    hide Trusted, Inv, Step, Referenced;
    if events != [] {
      StepKeepsIff(x, st, events[0], h);
      StepKeepsInv(x, st, events[0]);
      YoungIsKept(x, Step(x, st, events[0]), events[1..], h);
    }
  }

  // ---- equal hashes, equal contents ----

  lemma {:induction false} SameHashSameRaws(x: Xet, a: State, b: State, h: Hash)
    requires Inv(x, a) && Inv(x, b) && DataHashInjective(x) && XorbHashInjective(x)
    requires h in a.xorbs && h in b.xorbs
    ensures Raws(FramesOf(x, a.xorbs[h].bytes)) == Raws(FramesOf(x, b.xorbs[h].bytes))
  {
    assert SoundBody(x, h, a.xorbs[h].bytes) && SoundBody(x, h, b.xorbs[h].bytes);
    hide Inv, SoundBody, FramesOf;
    var p, q := FramesOf(x, a.xorbs[h].bytes), FramesOf(x, b.xorbs[h].bytes);
    assert SizedOf(x, p) == SizedOf(x, q);
    assert |SizedOf(x, p)| == |p| && |SizedOf(x, q)| == |q|;
    forall i | 0 <= i < |p| ensures Raws(p)[i] == Raws(q)[i] {
      assert SizedOf(x, p)[i].0 == SizedOf(x, q)[i].0;
    }
  }

  lemma {:induction false} SpotSoundElsewhere(x: Xet, a: State, b: State, c: Chunk, p: Placement)
    requires Inv(x, a) && Inv(x, b) && DataHashInjective(x) && XorbHashInjective(x)
    requires SpotSound(x, a.xorbs, c, p) && p.xorb in b.xorbs
    ensures SpotSound(x, b.xorbs, c, p)
  {
    SameHashSameRaws(x, a, b, p.xorb);
    hide Inv, FramesOf;
    var f, g := FramesOf(x, a.xorbs[p.xorb].bytes), FramesOf(x, b.xorbs[p.xorb].bytes);
    assert Raws(f)[p.index] == Raws(g)[p.index];
  }

  // ---- the registration that follows ----

  ghost predicate AllStored(entries: seq<Entry>, xorbs: map<Hash, Blob>) {
    forall h :: RefersTo(entries, h) ==> h in xorbs
  }

  // In any later reachable state, the planned shard is accepted exactly if the xorbs its terms
  // refer to are stored there, whoever stored them.
  lemma {:induction false} AcceptedLaterIff(
    x: Xet, st: State, later: State, chunks: seq<Chunk>, before: Slots, m: Making, plan: UploadPlan, now: int)
    requires WorkingLibrary(x) && GoodChunks(x, chunks) && Inv(x, st) && SlotsSound(x, st.xorbs, chunks, before)
    requires PlanMade(x, chunks, before, m, plan) && Inv(x, later)
    ensures ValidUpload(x, later.xorbs, plan.shardBytes) <==>
      |plan.shardBytes| <= MAX_SHARD_SIZE && AllStored(m.entries, later.xorbs)
  {
    PlannedSpots(x, st, chunks, before, m, plan, now);
    PlanIsOneBlock(x, later.xorbs, chunks, before, m, plan);
    var mid, block := UploadXorbs(x, st, plan.xorbs, now), FileBlock(plan.fileHash, true, m.entries);
    LaterBlockIsValid(x, mid, later, chunks, before, m, plan);
    hide *;
    if ValidFile(x, later.xorbs, block) {
      ValidNeedsXorbs(x, later.xorbs, block);
    }
  }

  lemma {:induction false} LaterBlockIsValid(
    x: Xet, mid: State, later: State, chunks: seq<Chunk>, before: Slots, m: Making, plan: UploadPlan)
    requires WorkingLibrary(x) && GoodChunks(x, chunks) && |before| == |chunks| && PlanMade(x, chunks, before, m, plan)
    requires Inv(x, mid) && Inv(x, later) && SpotsSound(x, mid.xorbs, chunks, Expand(m.entries))
    ensures AllStored(m.entries, later.xorbs) ==> ValidFile(x, later.xorbs, FileBlock(plan.fileHash, true, m.entries))
  {
    WorkingPromises(x);
    hide Inv, WorkingLibrary, GoodChunks, PlacedBy, IsPacking, ClosedWhenFull, Maximal, DescribesAll, ValidFile, SpotsSound, AllStored;
    if AllStored(m.entries, later.xorbs) {
      StoredSpotsSound(x, mid, later, chunks, m.entries);
      PlannedBlockIsValid(x, later.xorbs, chunks, before, m, plan);
    }
  }

  lemma {:induction false} StoredSpotsSound(x: Xet, a: State, b: State, chunks: seq<Chunk>, entries: seq<Entry>)
    requires Inv(x, a) && Inv(x, b) && DataHashInjective(x) && XorbHashInjective(x)
    requires AllNonEmpty(entries) && SpotsSound(x, a.xorbs, chunks, Expand(entries)) && AllStored(entries, b.xorbs)
    ensures SpotsSound(x, b.xorbs, chunks, Expand(entries))
  {
    hide Inv, SpotSound, Expand;
    var spots := Expand(entries);
    forall i | 0 <= i < |spots| ensures SpotSound(x, b.xorbs, chunks[i], spots[i]) {
      SpotsAreReferred(entries, i);
      SpotSoundElsewhere(x, a, b, chunks[i], spots[i]);
    }
  }

  lemma {:induction false} ValidNeedsXorbs(x: Xet, xorbs: map<Hash, Blob>, b: FileBlock)
    requires ValidFile(x, xorbs, b)
    ensures AllStored(b.entries, xorbs)
  {
    hide FramesOf, FileChunks;
    forall h | RefersTo(b.entries, h) ensures h in xorbs {
      var k :| 0 <= k < |b.entries| && b.entries[k].term.xorb == h;
      assert ValidTerm(x, xorbs, b.entries[k]);
    }
  }

  lemma {:induction false} PostedState(
    x: Xet, st: State, chunks: seq<Chunk>, before: Slots, m: Making, plan: UploadPlan, now: int)
    requires WorkingLibrary(x) && GoodChunks(x, chunks) && Inv(x, st) && SlotsSound(x, st.xorbs, chunks, before)
    requires PlanMade(x, chunks, before, m, plan)
    ensures var posted := UploadXorbs(x, st, plan.xorbs, now);
      && Inv(x, posted) && AllStored(m.entries, posted.xorbs)
      && forall h :: h in posted.xorbs ==>
           posted.xorbs[h].mtime == if h in st.xorbs then st.xorbs[h].mtime else now
  {
    PlannedSpots(x, st, chunks, before, m, plan, now);
    var posted := UploadXorbs(x, st, plan.xorbs, now);
    hide Inv, SealsReadBack, SealsFit, FootersChecked, Serialisable, PlacedBy, IsPacking, Trusted, ClosedWhenFull,
      Maximal, DescribesAll, SlotsSound, UploadXorbs, Expand;
    forall h | RefersTo(m.entries, h) ensures h in posted.xorbs {
      var k :| 0 <= k < |m.entries| && m.entries[k].term.xorb == h;
      TermHasSpot(m.entries, k);
      var i :| 0 <= i < |Expand(m.entries)| && Expand(m.entries)[i].xorb == h;
      assert SpotSound(x, posted.xorbs, chunks[i], Expand(m.entries)[i]);
    }
    PostTimes(x, st, plan.xorbs, now);
  }

  lemma {:induction false} PostTimes(x: Xet, st: State, xorbs: seq<(Hash, seq<Byte>)>, now: int)
    ensures var posted := UploadXorbs(x, st, xorbs, now);
      forall h :: h in posted.xorbs ==>
        posted.xorbs[h].mtime == if h in st.xorbs then st.xorbs[h].mtime else now
    ensures forall h :: h in st.xorbs ==> h in UploadXorbs(x, st, xorbs, now).xorbs
  {
    hide ValidatedInfo, BodyLayout, PutBatch;
    if xorbs != [] {
      PostTimes(x, st, xorbs[..|xorbs| - 1], now);
    }
  }

  // Whatever runs between posting and registering, as long as nobody re-uploads the plan's
  // xorbs: the registration is accepted exactly if every collection found each of them marked,
  // or stored within its grace period.
  lemma {:induction false} RegistrationAfterIff(
    x: Xet, st: State, chunks: seq<Chunk>, before: Slots, m: Making, plan: UploadPlan, now: int, between: seq<Store.Event>)
    requires WorkingLibrary(x) && GoodChunks(x, chunks) && Inv(x, st) && SlotsSound(x, st.xorbs, chunks, before)
    requires PlanMade(x, chunks, before, m, plan)
    requires forall h :: RefersTo(m.entries, h) ==> NotReposted(between, h)
    ensures var posted := UploadXorbs(x, st, plan.xorbs, now);
      ValidUpload(x, Run(x, posted, between).xorbs, plan.shardBytes) <==>
        |plan.shardBytes| <= MAX_SHARD_SIZE
        && forall h :: RefersTo(m.entries, h) ==> KeptThroughout(x, posted, between, h)
  {
    var posted := UploadXorbs(x, st, plan.xorbs, now);
    PostedState(x, st, chunks, before, m, plan, now);
    RunKeepsInv(x, posted, between);
    AcceptedLaterIff(x, st, Run(x, posted, between), chunks, before, m, plan, now);
    hide Inv, WorkingLibrary, GoodChunks, PlanMade, SlotsSound, Run, KeptThroughout, UploadXorbs, ValidUpload, RefersTo;
    WorkingPromises(x);
    forall h | RefersTo(m.entries, h)
      ensures h in Run(x, posted, between).xorbs <==> KeptThroughout(x, posted, between, h)
    {
      StoredIffKept(x, posted, between, h);
    }
  }

  // The grace period protects uploads in flight: if every collection comes within grace of the
  // posts, and of the earlier upload of any xorb of the plan that was already stored, the
  // registration is still accepted. Only the shard's size can be objected to.
  lemma {:induction false} GraceProtectsUploads(
    x: Xet, st: State, chunks: seq<Chunk>, before: Slots, m: Making, plan: UploadPlan, now: int, between: seq<Store.Event>)
    requires WorkingLibrary(x) && GoodChunks(x, chunks) && Inv(x, st) && SlotsSound(x, st.xorbs, chunks, before)
    requires PlanMade(x, chunks, before, m, plan)
    requires PassesWithin(between, now)
    requires forall h :: RefersTo(m.entries, h) && h in st.xorbs ==> PassesWithin(between, st.xorbs[h].mtime)
    ensures ValidUpload(x, Run(x, UploadXorbs(x, st, plan.xorbs, now), between).xorbs, plan.shardBytes) <==>
      |plan.shardBytes| <= MAX_SHARD_SIZE
  {
    var posted := UploadXorbs(x, st, plan.xorbs, now);
    PostedState(x, st, chunks, before, m, plan, now);
    RunKeepsInv(x, posted, between);
    AcceptedLaterIff(x, st, Run(x, posted, between), chunks, before, m, plan, now);
    WorkingPromises(x);
    hide Inv, WorkingLibrary, GoodChunks, PlanMade, SlotsSound, Run, KeptThroughout, UploadXorbs, ValidUpload, RefersTo, PassesWithin, Trusted;
    forall h | RefersTo(m.entries, h) ensures h in Run(x, posted, between).xorbs {
      YoungIsKept(x, posted, between, h);
      KeptIsStored(x, posted, between, h);
    }
  }

  // Posting a xorb that is already stored does not make it young: old and unmarked, it goes
  // with the next collection, however recent the post.
  lemma {:induction false} RepostedXorbIsLost(x: Xet, st: State, h: Hash, body: seq<Byte>, posted: int, now: int, grace: int)
    requires Inv(x, st) && h in st.xorbs && !Referenced(x, st, h) && now - st.xorbs[h].mtime >= grace
    ensures PostXorb(x, st, h, body, posted) == st
    ensures h !in Gc(x, PostXorb(x, st, h, body, posted), now, grace).xorbs
  {
    PassKeepsIff(x, st, now, grace, h);
    hide Inv, Referenced, Gc, ValidatedInfo;
  }
}
