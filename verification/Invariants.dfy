/**
 What every reachable server state satisfies: indexed files stay reconstructable, recorded
 layouts describe stored blobs, and the claims table counts owners exactly.
 */
module Invariants {
  import opened Basics
  import opened XetCore
  import opened XorbMeta
  import opened Store

  // The library promises the invariants rest on.
  ghost predicate Trusted(x: Xet) {
    FootersChecked(x) && DataHashInjective(x) && FileHashInjective(x) && StandardLimits(x)
  }

  ghost predicate BlobsSound(x: Xet, xorbs: map<Hash, Blob>) {
    forall h :: h in xorbs ==> SoundBody(x, h, xorbs[h].bytes) && |xorbs[h].bytes| < U32
  }

  ghost predicate ShardsSound(x: Xet, shards: map<Hash, Blob>) {
    forall s :: s in shards ==> x.dataHash(shards[s].bytes) == s && x.parseShard(shards[s].bytes).Some?
  }

  // Some block of the shard is about f, and every block about f is valid on the stored xorbs.
  ghost predicate FileIn(x: Xet, xorbs: map<Hash, Blob>, files: seq<FileBlock>, f: Hash) {
    && (exists i :: 0 <= i < |files| && files[i].hash == f)
    && (forall i :: 0 <= i < |files| && files[i].hash == f ==> ValidFile(x, xorbs, files[i]))
  }

  ghost predicate FileSound(x: Xet, st: State, f: Hash)
    requires f in st.fileIndex
  {
    st.fileIndex[f] in st.shards && FileIn(x, st.xorbs, ShardFiles(x, st.shards, st.fileIndex[f]), f)
  }

  /** No indexed file is unreconstructable. */
  ghost predicate FilesSound(x: Xet, st: State) {
    forall f :: f in st.fileIndex ==> FileSound(x, st, f)
  }

  ghost predicate LayoutsMatch(x: Xet, st: State) {
    forall h :: h in st.layouts ==> h in st.xorbs && st.layouts[h] == BodyLayout(x, st.xorbs[h].bytes)
  }

  ghost predicate RowsDistinct(rows: seq<Row>) {
    forall i, j :: 0 <= i < j < |rows| ==> rows[i] != rows[j]
  }

  /** A file is indexed if and only if somebody claims it. */
  ghost predicate ClaimsMatch(st: State) {
    forall f :: f in st.fileIndex <==> Owners(st.claims, f) != {}
  }

  // Each claim carries the size of the content its file hash names.
  ghost predicate ClaimsSized(x: Xet, claims: map<(Hash, Owner), Claim>) {
    forall k, chunks :: k in claims && x.fileHash(chunks) == k.0 ==>
      claims[k].logicalBytes == Sum(SizesOf(chunks))
  }

  ghost predicate Inv(x: Xet, st: State) {
    && BlobsSound(x, st.xorbs) && ShardsSound(x, st.shards)
    && FilesSound(x, st) && LayoutsMatch(x, st) && RowsDistinct(st.rows)
    && ClaimsMatch(st) && ClaimsSized(x, st.claims)
  }

  // ---- what a file's validity depends on ----

  ghost predicate KeepsXorb(a: map<Hash, Blob>, b: map<Hash, Blob>, h: Hash) {
    h in a ==> h in b && b[h].bytes == a[h].bytes
  }

  lemma {:induction false} TermKept(x: Xet, a: map<Hash, Blob>, b: map<Hash, Blob>, t: Term)
    requires TermInStore(x, a, t) && KeepsXorb(a, b, t.xorb)
    ensures TermInStore(x, b, t) && TermFrames(x, b, t) == TermFrames(x, a, t)
  {
  }

  lemma {:induction false} ChunksKept(x: Xet, a: map<Hash, Blob>, b: map<Hash, Blob>, entries: seq<Entry>)
    requires forall i :: 0 <= i < |entries| ==>
      TermInStore(x, a, entries[i].term) && KeepsXorb(a, b, entries[i].term.xorb)
    ensures FileChunks(x, b, entries) == FileChunks(x, a, entries)
  {
    if entries != [] {
      ChunksKept(x, a, b, entries[..|entries| - 1]);
      TermKept(x, a, b, entries[|entries| - 1].term);
    }
  }

  lemma {:induction false} ValidFileKept(x: Xet, a: map<Hash, Blob>, b: map<Hash, Blob>, f: FileBlock)
    requires ValidFile(x, a, f)
    requires forall i :: 0 <= i < |f.entries| ==> KeepsXorb(a, b, f.entries[i].term.xorb)
    ensures ValidFile(x, b, f)
  {
    forall i | 0 <= i < |f.entries| ensures ValidTerm(x, b, f.entries[i]) && TermInStore(x, a, f.entries[i].term) {
      assert ValidTerm(x, a, f.entries[i]);
      TermKept(x, a, b, f.entries[i].term);
    }
    ChunksKept(x, a, b, f.entries);
  }

  lemma {:induction false} FileInKept(x: Xet, a: map<Hash, Blob>, b: map<Hash, Blob>, files: seq<FileBlock>, f: Hash)
    requires FileIn(x, a, files, f)
    requires forall i, k :: 0 <= i < |files| && files[i].hash == f && 0 <= k < |files[i].entries| ==>
      KeepsXorb(a, b, files[i].entries[k].term.xorb)
    ensures FileIn(x, b, files, f)
  {
    forall i | 0 <= i < |files| && files[i].hash == f ensures ValidFile(x, b, files[i]) {
      ValidFileKept(x, a, b, files[i]);
    }
  }

  // ---- tables ----

  lemma {:induction false} PutBatchDistinct(rows: seq<Row>, entries: seq<Row>)
    requires RowsDistinct(rows)
    ensures RowsDistinct(PutBatch(rows, entries))
    ensures forall r :: r in PutBatch(rows, entries) <==> r in rows || r in entries
  {
    if entries != [] {
      var init, last := entries[..|entries| - 1], entries[|entries| - 1];
      PutBatchDistinct(rows, init);
      assert entries == init + [last];
    }
  }

  lemma {:induction false} DropAllDistinct(rows: seq<Row>, gone: set<Hash>)
    requires RowsDistinct(rows)
    ensures RowsDistinct(DropAllRows(rows, gone))
    ensures forall r :: r in DropAllRows(rows, gone) <==> r in rows && r.xorb !in gone
  {
    if rows != [] {
      var init, last := rows[..|rows| - 1], rows[|rows| - 1];
      DropAllDistinct(init, gone);
      assert rows == init + [last];
    }
  }

  predicate About(files: seq<FileBlock>, f: Hash) {
    exists i :: 0 <= i < |files| && files[i].hash == f
  }

  lemma {:induction false} AboutSnoc(files: seq<FileBlock>, f: Hash)
    requires files != []
    ensures About(files, f) <==> About(files[..|files| - 1], f) || files[|files| - 1].hash == f
  {
    var init := files[..|files| - 1];
    if About(init, f) {
      var i :| 0 <= i < |init| && init[i].hash == f;
      assert files[i].hash == f;
    }
    if About(files, f) && files[|files| - 1].hash != f {
      var i :| 0 <= i < |files| && files[i].hash == f;
      assert init[i].hash == f;
    }
  }

  lemma {:induction false} IndexedFiles(index: map<Hash, Hash>, files: seq<FileBlock>, shard: Hash, f: Hash)
    ensures f in IndexFiles(index, files, shard) <==> f in index || About(files, f)
    ensures About(files, f) ==> IndexFiles(index, files, shard)[f] == shard
    ensures f in index && !About(files, f) ==> IndexFiles(index, files, shard)[f] == index[f]
  {
    if files != [] {
      IndexedFiles(index, files[..|files| - 1], shard, f);
      AboutSnoc(files, f);
    }
  }

  lemma {:induction false} ClaimedFiles(x: Xet, xorbs: map<Hash, Blob>, claims: map<(Hash, Owner), Claim>,
                                        files: seq<FileBlock>, owner: Owner, now: int, f: Hash, o: Owner)
    ensures (f, o) in ClaimFiles(x, xorbs, claims, files, owner, now) <==>
      (f, o) in claims || (o == owner && About(files, f))
  {
    if files != [] {
      ClaimedFiles(x, xorbs, claims, files[..|files| - 1], owner, now, f, o);
      AboutSnoc(files, f);
    }
  }

  lemma {:induction false} UpsertSized(
    x: Xet, claims: map<(Hash, Owner), Claim>, owner: Owner, now: int, f: Hash, content: seq<Sized>)
    requires FileHashInjective(x) && ClaimsSized(x, claims) && x.fileHash(content) == f
    ensures ClaimsSized(x, Upsert(claims, f, owner, Sum(SizesOf(content)), now))
  {
    var after := Upsert(claims, f, owner, Sum(SizesOf(content)), now);
    forall k, chunks | k in after && x.fileHash(chunks) == k.0 ensures after[k].logicalBytes == Sum(SizesOf(chunks)) {
      if k == (f, owner) {
        assert chunks == content;
      }
    }
  }

  lemma {:induction false} ClaimFilesSized(x: Xet, xorbs: map<Hash, Blob>, claims: map<(Hash, Owner), Claim>,
                                           files: seq<FileBlock>, owner: Owner, now: int)
    requires FileHashInjective(x) && ClaimsSized(x, claims)
    requires forall i :: 0 <= i < |files| ==> ValidFile(x, xorbs, files[i])
    ensures ClaimsSized(x, ClaimFiles(x, xorbs, claims, files, owner, now))
  {
    if files != [] {
      var init, last := files[..|files| - 1], files[|files| - 1];
      ClaimFilesSized(x, xorbs, claims, init, owner, now);
      assert x.fileHash(FileChunks(x, xorbs, last.entries)) == last.hash by {
        assert ValidFile(x, xorbs, last);
      }
      hide ClaimsSized, Upsert, ValidFile;
      UpsertSized(x, ClaimFiles(x, xorbs, claims, init, owner, now), owner, now, last.hash, FileChunks(x, xorbs, last.entries));
    }
  }

  lemma {:induction false} HasOwner(claims: map<(Hash, Owner), Claim>, f: Hash, o: Owner)
    ensures o in Owners(claims, f) <==> (f, o) in claims
  {
    if (f, o) in claims {
      assert (f, o).0 == f && (f, o).1 == o;
    }
  }

  // ---- each handler keeps the invariant ----

  lemma {:induction false} UploadKeepsInv(x: Xet, st: State, h: Hash, body: seq<Byte>, now: int)
    requires Trusted(x) && Inv(x, st)
    ensures Inv(x, PostXorb(x, st, h, body, now))
  {
    hide SoundBody, ValidatedInfo, BodyLayout, FileSound, ClaimsSized, Owners, PutBatch, XorbRows, HashesOf, FramesOf, RowsDistinct;
    if AcceptsXorb(x, st, h, body) {
      var next := PostXorb(x, st, h, body, now);
      AcceptedIsSound(x, body, h);
      PutBatchDistinct(st.rows, XorbRows(h, HashesOf(x, FramesOf(x, body))));
      forall f | f in next.fileIndex ensures FileSound(x, next, f) {
        assert FileSound(x, st, f);
        NewXorbKeepsFile(x, st, next, f);
      }
    }
  }

  // A file stays sound when xorbs are only added.
  lemma {:induction false} NewXorbKeepsFile(x: Xet, a: State, b: State, f: Hash)
    requires f in a.fileIndex && FileSound(x, a, f)
    requires b.fileIndex == a.fileIndex && b.shards == a.shards
    requires forall h :: h in a.xorbs ==> KeepsXorb(a.xorbs, b.xorbs, h)
    ensures FileSound(x, b, f)
  {
    hide FileIn, ShardFiles;
    var files := ShardFiles(x, a.shards, a.fileIndex[f]);
    forall i, k | 0 <= i < |files| && files[i].hash == f && 0 <= k < |files[i].entries|
      ensures KeepsXorb(a.xorbs, b.xorbs, files[i].entries[k].term.xorb)
    {
    }
    FileInKept(x, a.xorbs, b.xorbs, files, f);
  }

  // Put-if-absent under a collision-free hash: afterwards the shard parses to what was uploaded.
  lemma {:induction false} StoredShardIsUpload(x: Xet, shards: map<Hash, Blob>, body: seq<Byte>, now: int)
    requires DataHashInjective(x) && ShardsSound(x, shards) && x.parseShard(body).Some?
    ensures var next := PutAbsent(shards, x.dataHash(body), body, now);
      && ShardsSound(x, next)
      && ShardFiles(x, next, x.dataHash(body)) == x.parseShard(body).value.files
      && forall s :: s in shards ==> s in next && ShardFiles(x, next, s) == ShardFiles(x, shards, s)
  {
    var sh := x.dataHash(body);
    if sh in shards {
      assert x.dataHash(shards[sh].bytes) == x.dataHash(body);
    }
  }

  lemma {:induction false} RegisterKeepsFiles(x: Xet, st: State, owner: Owner, body: seq<Byte>, now: int)
    requires Trusted(x) && Inv(x, st) && ValidUpload(x, st.xorbs, body)
    ensures ShardsSound(x, Register(x, st, owner, body, now).shards)
    ensures FilesSound(x, Register(x, st, owner, body, now))
  {
    var next, files, sh := Register(x, st, owner, body, now), x.parseShard(body).value.files, x.dataHash(body);
    StoredShardIsUpload(x, st.shards, body, now);
    hide ShardFiles;
    forall f | f in next.fileIndex ensures FileSound(x, next, f) {
      IndexedFiles(st.fileIndex, files, sh, f);
      if !About(files, f) {
        assert FileSound(x, st, f);
      }
    }
  }

  lemma {:induction false} RegisterKeepsClaims(x: Xet, st: State, owner: Owner, body: seq<Byte>, now: int)
    requires Trusted(x) && Inv(x, st) && ValidUpload(x, st.xorbs, body)
    ensures ClaimsMatch(Register(x, st, owner, body, now))
    ensures ClaimsSized(x, Register(x, st, owner, body, now).claims)
  {
    var next, files, sh := Register(x, st, owner, body, now), x.parseShard(body).value.files, x.dataHash(body);
    ClaimFilesSized(x, st.xorbs, st.claims, files, owner, now);
    forall f ensures f in next.fileIndex <==> Owners(next.claims, f) != {} {
      IndexedFiles(st.fileIndex, files, sh, f);
      OwnersAfterRegister(x, st, files, owner, now, f);
    }
  }

  lemma {:induction false} OwnersAfterRegister(x: Xet, st: State, files: seq<FileBlock>, owner: Owner, now: int, f: Hash)
    ensures Owners(ClaimFiles(x, st.xorbs, st.claims, files, owner, now), f) ==
      Owners(st.claims, f) + (if About(files, f) then {owner} else {})
  {
    var claims := ClaimFiles(x, st.xorbs, st.claims, files, owner, now);
    forall o ensures o in Owners(claims, f) <==> o in Owners(st.claims, f) || (o == owner && About(files, f)) {
      ClaimedFiles(x, st.xorbs, st.claims, files, owner, now, f, o);
      HasOwner(claims, f, o);
      HasOwner(st.claims, f, o);
    }
  }

  lemma {:induction false} RegisterKeepsInv(x: Xet, st: State, owner: Owner, body: seq<Byte>, now: int)
    requires Trusted(x) && Inv(x, st)
    ensures Inv(x, Register(x, st, owner, body, now))
  {
    if ValidUpload(x, st.xorbs, body) {
      RegisterKeepsFiles(x, st, owner, body, now);
      RegisterKeepsClaims(x, st, owner, body, now);
      PutBatchDistinct(st.rows, CasRows(x.parseShard(body).value.cas));
    }
  }

  lemma {:induction false} DropFileKeepsInv(x: Xet, st: State, f: Hash)
    requires Inv(x, st)
    ensures Inv(x, WithoutFile(st, f))
  {
    hide FileIn, BlobsSound, ShardsSound, BodyLayout, RowsDistinct, Owners, ShardFiles;
    var next := WithoutFile(st, f);
    forall g | g in next.fileIndex ensures FileSound(x, next, g) {
      assert FileSound(x, st, g);
    }
    forall g ensures g in next.fileIndex <==> Owners(next.claims, g) != {} {
      OwnersWithout(st, f, g);
    }
  }

  lemma {:induction false} OwnersWithout(st: State, f: Hash, g: Hash)
    ensures Owners(WithoutFile(st, f).claims, g) == if g == f then {} else Owners(st.claims, g)
  {
    forall o ensures o in Owners(WithoutFile(st, f).claims, g) <==> g != f && o in Owners(st.claims, g) {
      HasOwner(WithoutFile(st, f).claims, g, o);
      HasOwner(st.claims, g, o);
    }
  }

  lemma {:induction false} LastOne(owners: set<Owner>, o: Owner)
    requires o in owners
    ensures owners - {o} == {} <==> |owners| == 1
  {
    assert |owners - {o}| == |owners| - 1;
  }

  lemma {:induction false} ReleaseOwners(claims: map<(Hash, Owner), Claim>, f: Hash, o: Owner, g: Hash)
    ensures Owners(claims - {(f, o)}, g) == if g == f then Owners(claims, f) - {o} else Owners(claims, g)
  {
    forall p ensures p in Owners(claims - {(f, o)}, g) <==> p in Owners(claims, g) && !(g == f && p == o) {
      HasOwner(claims - {(f, o)}, g, p);
      HasOwner(claims, g, p);
    }
  }

  lemma {:induction false} DeleteKeepsInv(x: Xet, st: State, caller: Caller, f: Hash)
    requires Inv(x, st)
    ensures Inv(x, Delete(st, caller, f))
  {
    var next, owners := Delete(st, caller, f), Owners(st.claims, f);
    DropFileKeepsInv(x, st, f);
    HasOwner(st.claims, f, caller.owner);
    if f in st.fileIndex && caller.owner in owners && |owners| != 1 {
      forall g | g in next.fileIndex ensures FileSound(x, next, g) {
        assert FileSound(x, st, g);
      }
      forall g ensures g in next.fileIndex <==> Owners(next.claims, g) != {} {
        ReleaseOwners(st.claims, f, caller.owner, g);
        LastOne(owners, caller.owner);
      }
    }
  }

  // Marking reaches every xorb of every block an indexed file resolves to.
  lemma {:induction false} MarkReaches(x: Xet, st: State, f: Hash, i: nat, k: nat)
    requires f in st.fileIndex
    requires var files := ShardFiles(x, st.shards, st.fileIndex[f]);
      i < |files| && files[i].hash == f && k < |files[i].entries|
    ensures st.fileIndex[f] in LiveShards(st)
    ensures ShardFiles(x, st.shards, st.fileIndex[f])[i].entries[k].term.xorb in Reachable(x, st)
  {
    var s := st.fileIndex[f];
    var files := ShardFiles(x, st.shards, s);
    assert files[i] in files && files[i].entries[k] in files[i].entries;
    assert files[i].entries[k].term.xorb in BlockXorbs(st.fileIndex, files, s);
    assert s in LiveShards(st);
  }

  lemma {:induction false} GcKeepsInv(x: Xet, st: State, now: int, grace: int)
    requires Inv(x, st)
    ensures Inv(x, Gc(x, st, now, grace))
  {
    if !exists s :: s in LiveShards(st) && CorruptShard(x, st, s) {
      var next := Gc(x, st, now, grace);
      DropAllDistinct(st.rows, Condemned(st.xorbs, Reachable(x, st), now, grace));
      forall f | f in next.fileIndex ensures FileSound(x, next, f) {
        assert FileSound(x, st, f);
        GcKeepsFile(x, st, now, grace, f);
      }
    }
  }

  lemma {:induction false} GcKeepsFile(x: Xet, st: State, now: int, grace: int, f: Hash)
    requires f in st.fileIndex && FileSound(x, st, f)
    requires !exists s :: s in LiveShards(st) && CorruptShard(x, st, s)
    ensures FileSound(x, Gc(x, st, now, grace), f)
  {
    var next, s := Gc(x, st, now, grace), st.fileIndex[f];
    var files := ShardFiles(x, st.shards, s);
    forall i, k | 0 <= i < |files| && files[i].hash == f && 0 <= k < |files[i].entries|
      ensures s in LiveShards(st) && KeepsXorb(st.xorbs, next.xorbs, files[i].entries[k].term.xorb)
    {
      MarkReaches(x, st, f, i, k);
    }
    assert s in LiveShards(st);
    assert ShardFiles(x, next.shards, s) == files;
    FileInKept(x, st.xorbs, next.xorbs, files, f);
  }

  lemma {:induction false} StepKeepsInv(x: Xet, st: State, e: Event)
    requires Trusted(x) && Inv(x, st)
    ensures Inv(x, Step(x, st, e))
  {
    match e {
      case UploadXorb(h, body, now) => UploadKeepsInv(x, st, h, body, now);
      case RegisterShard(owner, body, now) => RegisterKeepsInv(x, st, owner, body, now);
      case DeleteFile(caller, f) => DeleteKeepsInv(x, st, caller, f);
      case CollectGarbage(now, grace) => GcKeepsInv(x, st, now, grace);
    }
  }

  lemma {:induction false} RunKeepsInv(x: Xet, st: State, events: seq<Event>)
    requires Trusted(x) && Inv(x, st)
    ensures Inv(x, Run(x, st, events))
    decreases |events|
  {
    if events != [] {
      StepKeepsInv(x, st, events[0]);
      RunKeepsInv(x, Step(x, st, events[0]), events[1..]);
    }
  }

  lemma {:induction false} EmptyInv(x: Xet)
    ensures Inv(x, EMPTY)
  {
  }

  // Whatever the order of uploads, registrations, releases and collections, whatever their
  // clocks and grace periods, no run from the empty store loses an indexed file.
  lemma {:induction false} EveryRunIsSafe(x: Xet, events: seq<Event>)
    requires Trusted(x)
    ensures Inv(x, Run(x, EMPTY, events))
  {
    EmptyInv(x);
    RunKeepsInv(x, EMPTY, events);
  }
}
