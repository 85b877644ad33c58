/**
 The server as an object: its blob store and index tables are fields the handlers update in
 place (crates/server/src/routes, crates/server/src/gc.rs, crates/server/src/storage). Each
 handler does to the stored state exactly what its function in `Store` says.
 */
module Servers {
  import opened Basics
  import opened XetCore
  import opened Frames
  import opened XorbMeta
  import opened Invariants
  import opened Validation
  import opened Ownership
  import opened Collection
  import opened Store

  datatype UploadError = TooLarge | BadXorb | InternalError

  datatype GcError = CorruptStoredShard(shard: Hash)

  class Server {
    const x: Xet
    var xorbs: map<Hash, Blob>
    var shards: map<Hash, Blob>
    var fileIndex: map<Hash, Hash>
    var claims: map<(Hash, Owner), Claim>
    var rows: seq<Row>
    var layouts: map<Hash, XorbLayout>

    ghost function View(): State
      reads this
    {
      State(xorbs, shards, fileIndex, claims, rows, layouts)
    }

    ghost predicate Valid()
      reads this
    {
      Trusted(x) && Inv(x, View())
    }

    // Holds between any two writes, not only between handlers.
    ghost predicate LayoutsSound()
      reads this
    {
      LayoutsMatch(x, View())
    }

    constructor (library: Xet)
      requires Trusted(library)
      ensures Valid() && x == library && View() == EMPTY
    {
      x, xorbs, shards, fileIndex, claims, rows, layouts := library, map[], map[], map[], map[], [], map[];
      new;
      EmptyInv(x);
    }

    // ---- blob store (storage/object_store_backend.rs) ----

    method PutXorb(h: Hash, body: seq<Byte>, now: int) returns (inserted: bool)
      modifies this`xorbs
      ensures inserted <==> h !in old(xorbs)
      ensures xorbs == PutAbsent(old(xorbs), h, body, now)
      ensures old(LayoutsSound()) ==> LayoutsSound()
    {
      inserted := h !in xorbs;
      if inserted {
        xorbs := xorbs[h := Blob(body, now)];
      }
    }

    method PutShard(h: Hash, body: seq<Byte>, now: int) returns (inserted: bool)
      modifies this`shards
      ensures inserted <==> h !in old(shards)
      ensures shards == PutAbsent(old(shards), h, body, now)
    {
      inserted := h !in shards;
      if inserted {
        shards := shards[h := Blob(body, now)];
      }
    }

    // Deleting a blob is safe for the layout table once its layout is gone.
    method DeleteXorb(h: Hash)
      modifies this`xorbs
      ensures xorbs == old(xorbs) - {h}
      ensures old(LayoutsSound()) && h !in layouts ==> LayoutsSound()
    {
      xorbs := xorbs - {h};
    }

    method DeleteShard(h: Hash)
      modifies this`shards
      ensures shards == old(shards) - {h}
      ensures old(LayoutsSound()) ==> LayoutsSound()
    {
      shards := shards - {h};
    }

    // ---- chunk index (storage/index/sqlite_index.rs) ----

    method PutRows(entries: seq<Row>)
      modifies this`rows
      ensures rows == PutBatch(old(rows), entries)
      ensures old(LayoutsSound()) ==> LayoutsSound()
    {
      ghost var before := rows;
      for i := 0 to |entries|
        invariant rows == PutBatch(before, entries[..i])
      {
        assert entries[..i + 1][..i] == entries[..i];
        rows := PutRow(rows, entries[i]);
      }
      assert entries[..|entries|] == entries;
    }

    method PutXorbLayout(h: Hash, layout: XorbLayout)
      modifies this`layouts
      ensures layouts == old(layouts)[h := layout]
      ensures old(LayoutsSound()) && h in xorbs && layout == BodyLayout(x, xorbs[h].bytes) ==> LayoutsSound()
    {
      layouts := layouts[h := layout];
    }

    method RemoveXorb(h: Hash)
      modifies this`rows, this`layouts
      ensures forall r :: r in rows <==> r in old(rows) && r.xorb != h
      ensures rows == DropRows(old(rows), h) && layouts == old(layouts) - {h}
      ensures old(LayoutsSound()) ==> LayoutsSound()
    {
      RowsLeft(rows, h);
      rows := DropRows(rows, h);
      layouts := layouts - {h};
    }

    // ---- file index (storage/index/sqlite_index.rs) ----

    method PutFile(f: Hash, shard: Hash)
      modifies this`fileIndex
      ensures fileIndex == old(fileIndex)[f := shard]
    {
      fileIndex := fileIndex[f := shard];
    }

    method ClaimFile(owner: Owner, f: Hash, bytes: nat, now: int)
      modifies this`claims
      ensures claims.Keys == old(claims).Keys + {(f, owner)}
      ensures claims[(f, owner)].logicalBytes == bytes
      ensures claims[(f, owner)].createdAt == if (f, owner) in old(claims) then old(claims)[(f, owner)].createdAt else now
      ensures forall k :: k in old(claims) && k != (f, owner) ==> claims[k] == old(claims)[k]
    {
      if (f, owner) in claims {
        claims := claims[(f, owner) := claims[(f, owner)].(logicalBytes := bytes)];
      } else {
        claims := claims[(f, owner) := Claim(bytes, now)];
      }
    }

    method Release(owner: Owner, f: Hash) returns (released: bool)
      modifies this`claims
      ensures released <==> (f, owner) in old(claims)
      ensures claims == old(claims) - {(f, owner)}
    {
      released := (f, owner) in claims;
      claims := claims - {(f, owner)};
    }

    method RemoveFile(f: Hash)
      modifies this`claims, this`fileIndex
      ensures f !in fileIndex && Owners(claims, f) == {}
      ensures forall g :: g in old(fileIndex) && g != f ==> g in fileIndex
      ensures forall g :: g in fileIndex ==> g in old(fileIndex) && fileIndex[g] == old(fileIndex)[g]
      ensures forall g :: g != f ==> Owners(claims, g) == Owners(old(claims), g)
      ensures forall k :: k in claims ==> k in old(claims) && claims[k] == old(claims)[k]
    {
      OwnersLeft(claims, f);
      claims := map k | k in claims && k.0 != f :: claims[k];
      fileIndex := fileIndex - {f};
    }

    // ---- POST /v1/xorbs/default/{hash} ----

    method PostXorb(h: Hash, body: seq<Byte>, now: int) returns (r: Result<bool, UploadError>)
      requires Valid()
      modifies this`xorbs, this`rows, this`layouts
      ensures Valid() && View() == Store.PostXorb(x, old(View()), h, body, now)
      ensures r == Ok(true) <==> AcceptsXorb(x, old(View()), h, body)
      ensures r == Ok(false) <==> |body| <= x.maxXorbBytes + SERIALIZED_SLACK && h in old(xorbs)
      ensures r == Err(TooLarge) <==> |body| > x.maxXorbBytes + SERIALIZED_SLACK
      ensures r == Err(InternalError) <==>
        |body| <= x.maxXorbBytes + SERIALIZED_SLACK && h !in old(xorbs) && ValidatedInfo(x, body, h) == Err(Corrupt)
      ensures r == Err(BadXorb) <==>
        && |body| <= x.maxXorbBytes + SERIALIZED_SLACK && h !in old(xorbs)
        && (ValidatedInfo(x, body, h) == Err(Refused)
            || (ValidatedInfo(x, body, h).Ok? && ValidatedInfo(x, body, h).value.numChunks == 0))
      ensures r == Ok(true) ==> SoundBody(x, h, body) && xorbs[h] == Blob(body, now)
    {
      hide Inv, ValidatedInfo, SoundBody, Walk, InfoOf, LayoutOf, PutBatch, LayoutsSound, FootersChecked;
      ghost var before := View();
      UploadKeepsInv(x, before, h, body, now);
      if |body| > x.maxXorbBytes + SERIALIZED_SLACK { return Err(TooLarge); }
      if h in xorbs { return Ok(false); }
      var validated := ValidatedXorbInfo(x, body, h);
      if validated.Err? { return Err(if validated.error.Refused? then BadXorb else InternalError); }
      var info := validated.value;
      if info.numChunks == 0 { return Err(BadXorb); }
      AcceptedIsSound(x, body, h);
      InfoIsComplete(x, FramesOf(x, body));
      var layout := LayoutFromInfo(info, |body|);
      var _ := PutXorb(h, body, now);
      PutRows(XorbRows(h, info.chunkHashes));
      PutXorbLayout(h, layout);
      return Ok(true);
    }

    // ---- POST /v1/shards ----

    method RegisterShard(owner: Owner, body: seq<Byte>, now: int) returns (r: Result<bool, RegisterError>)
      requires Valid()
      modifies this`shards, this`fileIndex, this`claims, this`rows
      ensures Valid() && View() == Register(x, old(View()), owner, body, now)
      ensures r.Ok? <==> ValidUpload(x, xorbs, body)
      ensures r.Ok? ==> (r.value <==> x.dataHash(body) !in old(shards))
      ensures r.Err? ==> UploadDefect(x, xorbs, body, r.error) && View() == old(View())
      ensures UploadVerdict(x, xorbs, body) == if r.Ok? then None else Some(r.error)
    {
      hide Inv, ValidUpload, UploadDefect, UploadVerdict, PutBatch, CasRows, IndexFiles, ClaimFiles, LogicalBytes, LayoutsSound, FootersChecked;
      ghost var before := View();
      RegisterKeepsInv(x, before, owner, body, now);
      InvHasSoundBlobs(x, before);
      var checked := ValidateUpload(x, xorbs, body);
      if checked.Err? { return Err(checked.error); }
      var (shard, sizes) := checked.value;
      var sh := x.dataHash(body);
      var inserted := PutShard(sh, body, now);
      IndexAndClaim(shard.files, sizes, sh, owner, now);
      var entries := ChunkRows(shard.cas);
      PutRows(entries);
      return Ok(inserted);
    }

    method IndexAndClaim(ghost files: seq<FileBlock>, sizes: seq<(Hash, nat)>, shard: Hash, owner: Owner, now: int)
      requires sizes == FileSizes(x, xorbs, files)
      modifies this`fileIndex, this`claims
      ensures fileIndex == IndexFiles(old(fileIndex), files, shard)
      ensures claims == ClaimFiles(x, xorbs, old(claims), files, owner, now)
    {
      hide LogicalBytes, Upsert;
      ghost var index, owned := fileIndex, claims;
      for i := 0 to |sizes|
        invariant fileIndex == IndexFiles(index, files[..i], shard)
        invariant claims == ClaimFiles(x, xorbs, owned, files[..i], owner, now)
      {
        assert files[..i + 1][..i] == files[..i];
        PutFile(sizes[i].0, shard);
        ghost var before := claims;
        ClaimFile(owner, sizes[i].0, sizes[i].1, now);
        ClaimIsUpsert(before, claims, sizes[i].0, owner, sizes[i].1, now);
      }
      assert files[..|files|] == files;
    }

    // ---- DELETE /v1/files/{file_id} ----

    method DeleteFile(caller: Caller, f: Hash) returns (r: Result<DeleteOutcome, DeleteError>)
      requires Valid()
      modifies this`fileIndex, this`claims
      ensures Valid() && View() == Delete(old(View()), caller, f)
      ensures r == DeleteAnswer(old(View()), caller, f)
    {
      hide Inv, Owners, FootersChecked;
      ghost var before := View();
      DeleteKeepsInv(x, before, caller, f);
      if f !in fileIndex { return Err(DeleteError.NotFound); }
      var owners := Owners(claims, f);
      if owners == {} {
        if !caller.admin { return Err(Forbidden); }
        RemoveFile(f);
        RemovedFile(before, View(), f);
        return Ok(DeleteOutcome(true, 0));
      }
      var released := Release(caller.owner, f);
      if !released {
        assert claims == before.claims;
        return Err(Forbidden);
      }
      var remainingOwners := |owners| - 1;
      if remainingOwners == 0 {
        ghost var unclaimed := View();
        RemoveFile(f);
        RemovedFile(unclaimed, View(), f);
        assert claims == WithoutFile(before, f).claims;
      }
      return Ok(DeleteOutcome(remainingOwners == 0, remainingOwners));
    }

    // ---- garbage collection ----

    // Adds what the blocks that resolve to shard `s` refer to.
    method MarkShard(files: seq<FileBlock>, s: Hash, reachable: set<Hash>) returns (marked: set<Hash>)
      ensures marked == reachable + BlockXorbs(fileIndex, files, s)
    {
      marked := reachable;
      for i := 0 to |files|
        invariant marked == reachable + BlockXorbs(fileIndex, files[..i], s)
      {
        BlocksGrow(fileIndex, files, i, s);
        if files[i].hash in fileIndex && fileIndex[files[i].hash] == s {
          var before := marked;
          for k := 0 to |files[i].entries|
            invariant marked == before + EntryXorbs(files[i].entries[..k])
          {
            EntriesGrow(files[i].entries, k);
            marked := marked + {files[i].entries[k].term.xorb};
          }
          assert files[i].entries[..|files[i].entries|] == files[i].entries;
        }
      }
      assert files[..|files|] == files;
    }

    method Mark(live: set<Hash>) returns (r: Result<set<Hash>, GcError>)
      ensures r.Err? <==> exists s :: s in live && CorruptShard(x, View(), s)
      ensures r.Err? ==> CorruptShard(x, View(), r.error.shard)
      ensures r.Ok? ==> r.value == Marked(x, View(), live)
    {
      hide BlockXorbs, Marked;
      var todo, reachable: set<Hash> := live, {};
      assert live - todo == {};
      NothingSeen(x, View());
      while todo != {}
        invariant todo <= live
        invariant forall s :: s in live && s !in todo ==> !CorruptShard(x, View(), s)
        invariant reachable == Marked(x, View(), live - todo)
        decreases |todo|
      {
        var s := Choose(todo);
        MarkedGrows(x, View(), live - todo, s);
        assert live - (todo - {s}) == live - todo + {s};
        todo := todo - {s};
        if s in shards {
          var shard := x.parseShard(shards[s].bytes);
          if shard.None? { return Err(CorruptStoredShard(s)); }
          reachable := MarkShard(shard.value.files, s, reachable);
        } else {
          NothingMarked(fileIndex, s);
        }
      }
      assert live - {} == live;
      return Ok(reachable);
    }

    method SweepXorbs(reachable: set<Hash>, now: int, grace: int) returns (t: Tally)
      modifies this`xorbs, this`rows, this`layouts
      ensures var gone := Condemned(old(xorbs), reachable, now, grace);
        && xorbs == Swept(old(xorbs), reachable, now, grace)
        && rows == DropAllRows(old(rows), gone)
        && layouts == old(layouts) - gone
      ensures Sweeping(old(xorbs), xorbs, old(xorbs).Keys, reachable, now, grace, t)
      ensures t.skipped == |xorbs.Keys - reachable|
      ensures old(LayoutsSound()) ==> LayoutsSound()
    {
      hide Sweeping, Swept, Condemned, DropAllRows, DropRows, LayoutsMatch;
      ghost var before := View();
      ghost var gone := Condemned(xorbs, reachable, now, grace);
      SweepStarts(xorbs, reachable, now, grace);
      PurgeStarts(before, gone);
      t := Tally(0, 0, 0);
      var listed := xorbs;
      var todo := listed.Keys;
      assert listed.Keys - todo == {};
      while todo != {}
        invariant todo <= listed.Keys
        invariant Sweeping(listed, xorbs, listed.Keys - todo, reachable, now, grace, t)
        invariant Purged(before, rows, layouts, (listed.Keys - todo) * gone)
        invariant old(LayoutsSound()) ==> LayoutsSound()
        decreases |todo|
      {
        var h := Choose(todo);
        ghost var done := listed.Keys - todo;
        assert listed.Keys - (todo - {h}) == done + {h};
        CondemnedIff(listed, reachable, now, grace, h);
        todo := todo - {h};
        if h in reachable || InGrace(now, grace, listed[h].mtime) {
          SweepKeeps(listed, xorbs, done, reachable, now, grace, t, h);
          SameGone(done, gone, h);
          t := if h in reachable then t else Skipped(t);
        } else {
          SweepDeletes(listed, xorbs, done, reachable, now, grace, t, h);
          PurgeOne(before, rows, layouts, done, gone, h);
          t := Deleted(t, |listed[h].bytes|);
          RemoveXorb(h);
          DeleteXorb(h);
        }
      }
      assert listed.Keys - {} == listed.Keys;
      SweepEnds(listed, xorbs, reachable, now, grace, t);
      AllCondemned(listed, reachable, now, grace);
    }

    method SweepShards(live: set<Hash>, now: int, grace: int) returns (t: Tally)
      modifies this`shards
      ensures shards == Swept(old(shards), live, now, grace)
      ensures Sweeping(old(shards), shards, old(shards).Keys, live, now, grace, t)
      ensures t.skipped == |shards.Keys - live|
      ensures old(LayoutsSound()) ==> LayoutsSound()
    {
      hide Sweeping, Swept, Condemned, LayoutsMatch;
      var listed := shards;
      SweepStarts(shards, live, now, grace);
      t := Tally(0, 0, 0);
      var todo := listed.Keys;
      assert listed.Keys - todo == {};
      while todo != {}
        invariant todo <= listed.Keys
        invariant Sweeping(listed, shards, listed.Keys - todo, live, now, grace, t)
        invariant old(LayoutsSound()) ==> LayoutsSound()
        decreases |todo|
      {
        var s := Choose(todo);
        ghost var done := listed.Keys - todo;
        assert listed.Keys - (todo - {s}) == done + {s};
        todo := todo - {s};
        if s in live || InGrace(now, grace, listed[s].mtime) {
          SweepKeeps(listed, shards, done, live, now, grace, t, s);
          t := if s in live then t else Skipped(t);
        } else {
          SweepDeletes(listed, shards, done, live, now, grace, t, s);
          t := Deleted(t, |listed[s].bytes|);
          DeleteShard(s);
        }
      }
      assert listed.Keys - {} == listed.Keys;
      SweepEnds(listed, shards, live, now, grace, t);
    }

    method Sweep(reachable: set<Hash>, live: set<Hash>, now: int, grace: int) returns (onXorbs: Tally, onShards: Tally)
      modifies this`xorbs, this`shards, this`rows, this`layouts
      ensures BothSwept(old(View()), View(), reachable, live, now, grace, onXorbs, onShards)
      ensures old(LayoutsSound()) ==> LayoutsSound()
    {
      hide Sweeping, Swept, Condemned, DropAllRows, LayoutsMatch;
      onXorbs := SweepXorbs(reachable, now, grace);
      onShards := SweepShards(live, now, grace);
    }

    // run_gc: nothing is assumed of the stored state, and everything it held is accounted for.
    method RunGc(now: int, grace: int) returns (r: Result<GcReport, GcError>)
      modifies this`xorbs, this`shards, this`rows, this`layouts
      ensures r.Err? <==> Aborts(x, old(View()))
      ensures View() == Gc(x, old(View()), now, grace)
      ensures r.Ok? ==> ReportExact(x, old(View()), View(), r.value)
      ensures old(Valid()) ==> r.Ok? && Valid()
      ensures old(Valid()) ==> forall h :: h in xorbs <==>
        h in old(xorbs) && (Referenced(x, old(View()), h) || now - old(xorbs)[h].mtime < grace)
      ensures old(Valid()) ==> forall s :: s in shards <==>
        s in old(shards) && ((exists f :: f in fileIndex && fileIndex[f] == s) || now - old(shards)[s].mtime < grace)
      ensures old(LayoutsSound()) ==> LayoutsSound()
    {
      hide Inv, Referenced, BothSwept, Marked, CorruptShard, LayoutsMatch, Trusted, Gc, Aborts, ReportExact;
      ghost var before := View();
      GcKeepsValid(x, before, now, grace);
      var liveShards := set f | f in fileIndex :: fileIndex[f];
      assert liveShards == LiveShards(before);
      var marked := Mark(liveShards);
      AbortsIff(x, before, liveShards);
      if marked.Err? { return Err(marked.error); }
      hide LiveShards;
      var liveFiles := |fileIndex|;
      var onXorbs, onShards := Sweep(marked.value, liveShards, now, grace);
      SweepsMakePass(x, before, View(), now, grace, onXorbs, onShards);
      PassKeepsByAge(x, before, now, grace);
      return Ok(GcReport(
        liveFiles, |liveShards|, |marked.value|,
        onXorbs.deleted, onXorbs.freed, onShards.deleted, onShards.freed,
        onXorbs.skipped + onShards.skipped));
    }
  }

  lemma {:induction false} PassKeepsByAge(x: Xet, st: State, now: int, grace: int)
    ensures Inv(x, st) ==> forall h :: h in Gc(x, st, now, grace).xorbs <==>
      h in st.xorbs && (Referenced(x, st, h) || now - st.xorbs[h].mtime < grace)
    ensures Inv(x, st) ==> forall s :: s in Gc(x, st, now, grace).shards <==>
      s in st.shards && ((exists f :: f in st.fileIndex && st.fileIndex[f] == s) || now - st.shards[s].mtime < grace)
  {
    hide Inv, Referenced, Gc;
    if Inv(x, st) {
      forall h ensures h in Gc(x, st, now, grace).xorbs <==>
        h in st.xorbs && (Referenced(x, st, h) || now - st.xorbs[h].mtime < grace)
      {
        PassKeepsIff(x, st, now, grace, h);
      }
      forall s ensures s in Gc(x, st, now, grace).shards <==>
        s in st.shards && ((exists f :: f in st.fileIndex && st.fileIndex[f] == s) || now - st.shards[s].mtime < grace)
      {
        PassKeepsIff(x, st, now, grace, s);
      }
    }
  }

  method ChunkRows(cas: seq<CasBlock>) returns (entries: seq<Row>)
    ensures entries == CasRows(cas)
  {
    entries := [];
    for i := 0 to |cas|
      invariant entries == CasRows(cas[..i])
    {
      assert cas[..i + 1][..i] == cas[..i];
      var before := entries;
      var all := XorbRows(cas[i].xorb, cas[i].chunks);
      for k := 0 to |cas[i].chunks|
        invariant entries == before + all[..k]
      {
        entries := entries + [Row(cas[i].chunks[k], cas[i].xorb, k)];
      }
      assert all[..|all|] == all;
    }
    assert cas[..|cas|] == cas;
  }

  // ---- facts the handlers use ----

  lemma {:induction false} RowsLeft(rows: seq<Row>, h: Hash)
    ensures forall r :: r in DropRows(rows, h) <==> r in rows && r.xorb != h
  {
    if rows != [] {
      var init, last := rows[..|rows| - 1], rows[|rows| - 1];
      RowsLeft(init, h);
      assert rows == init + [last];
    }
  }

  lemma {:induction false} OwnersLeft(claims: map<(Hash, Owner), Claim>, f: Hash)
    ensures var left := map k | k in claims && k.0 != f :: claims[k];
      Owners(left, f) == {} && forall g :: g != f ==> Owners(left, g) == Owners(claims, g)
  {
    var left := map k | k in claims && k.0 != f :: claims[k];
    forall g, o ensures o in Owners(left, g) <==> g != f && o in Owners(claims, g) {
      HasOwner(left, g, o);
      HasOwner(claims, g, o);
    }
  }

  lemma {:induction false} SameClaim(a: State, b: State, f: Hash, k: (Hash, Owner))
    requires Owners(b.claims, f) == {} && forall g :: g != f ==> Owners(b.claims, g) == Owners(a.claims, g)
    ensures k in b.claims <==> k in a.claims && k.0 != f
  {
    hide Owners;
    HasOwner(b.claims, k.0, k.1);
    HasOwner(a.claims, k.0, k.1);
    assert k == (k.0, k.1);
  }

  // No owner of f and everything else as before is the state without f.
  lemma {:induction false} RemovedFile(a: State, b: State, f: Hash)
    requires b == a.(fileIndex := b.fileIndex, claims := b.claims)
    requires f !in b.fileIndex && Owners(b.claims, f) == {}
    requires forall g :: g in a.fileIndex && g != f ==> g in b.fileIndex
    requires forall g :: g in b.fileIndex ==> g in a.fileIndex && b.fileIndex[g] == a.fileIndex[g]
    requires forall g :: g != f ==> Owners(b.claims, g) == Owners(a.claims, g)
    requires forall k :: k in b.claims ==> k in a.claims && b.claims[k] == a.claims[k]
    ensures b == WithoutFile(a, f)
  {
    hide Owners;
    var want := WithoutFile(a, f);
    forall k ensures k in b.claims <==> k in want.claims {
      SameClaim(a, b, f, k);
    }
    SameMap(b.claims, want.claims);
    assert want.fileIndex == a.fileIndex - {f};
    forall g ensures g in b.fileIndex <==> g in want.fileIndex {
    }
    forall g | g in b.fileIndex ensures b.fileIndex[g] == want.fileIndex[g] {
      assert g in a.fileIndex;
    }
    SameMap(b.fileIndex, want.fileIndex);
  }

  lemma {:induction false} SameMap<K, V>(a: map<K, V>, b: map<K, V>)
    requires forall k :: k in a <==> k in b
    requires forall k :: k in a ==> a[k] == b[k]
    ensures a == b
  {
    assert a.Keys == b.Keys;
  }

  lemma {:induction false} ClaimIsUpsert(
    before: map<(Hash, Owner), Claim>, after: map<(Hash, Owner), Claim>, f: Hash, owner: Owner, bytes: nat, now: int)
    requires after.Keys == before.Keys + {(f, owner)} && after[(f, owner)].logicalBytes == bytes
    requires after[(f, owner)].createdAt == if (f, owner) in before then before[(f, owner)].createdAt else now
    requires forall k :: k in before && k != (f, owner) ==> after[k] == before[k]
    ensures after == Upsert(before, f, owner, bytes, now)
  {
    assert after.Keys == Upsert(before, f, owner, bytes, now).Keys;
  }

  lemma {:induction false} InfoIsComplete(x: Xet, fs: seq<Frame>)
    ensures Complete(InfoOf(x, fs))
    ensures InfoOf(x, fs).chunkHashes == HashesOf(x, fs)
  {
  }

  lemma {:induction false} InvHasSoundBlobs(x: Xet, st: State)
    requires Inv(x, st)
    ensures BlobsSound(x, st.xorbs)
  {
  }

  function EntryXorbs(entries: seq<Entry>): set<Hash> {
    set e | e in entries :: e.term.xorb
  }

  lemma {:induction false} EntriesGrow(entries: seq<Entry>, k: nat)
    requires k < |entries|
    ensures EntryXorbs(entries[..k + 1]) == EntryXorbs(entries[..k]) + {entries[k].term.xorb}
  {
    assert entries[..k + 1] == entries[..k] + [entries[k]];
  }

  lemma {:induction false} BlocksGrow(index: map<Hash, Hash>, files: seq<FileBlock>, i: nat, s: Hash)
    requires i < |files|
    ensures BlockXorbs(index, files[..i + 1], s) ==
      BlockXorbs(index, files[..i], s)
      + if files[i].hash in index && index[files[i].hash] == s then EntryXorbs(files[i].entries) else {}
  {
    assert files[..i + 1] == files[..i] + [files[i]];
  }

  lemma {:induction false} NothingMarked(index: map<Hash, Hash>, s: Hash)
    ensures BlockXorbs(index, [], s) == {}
  {
  }

  lemma {:induction false} NothingSeen(x: Xet, st: State)
    ensures Marked(x, st, {}) == {}
  {
  }

  lemma {:induction false} MarkedGrows(x: Xet, st: State, seen: set<Hash>, s: Hash)
    ensures Marked(x, st, seen + {s}) ==
      Marked(x, st, seen) + BlockXorbs(st.fileIndex, ShardFiles(x, st.shards, s), s)
  {
  }

  // Index rows and layouts of the xorbs in `gone` are purged.
  ghost predicate Purged(before: State, rows: seq<Row>, layouts: map<Hash, XorbLayout>, gone: set<Hash>) {
    rows == DropAllRows(before.rows, gone) && layouts == before.layouts - gone
  }

  lemma {:induction false} PurgeStarts(before: State, gone: set<Hash>)
    ensures Purged(before, before.rows, before.layouts, {} * gone)
  {
    DropNothing(before.rows);
    assert {} * gone == {};
    assert before.layouts - {} == before.layouts;
  }

  lemma {:induction false} PurgeOne(
    before: State, rows: seq<Row>, layouts: map<Hash, XorbLayout>, done: set<Hash>, gone: set<Hash>, h: Hash)
    requires Purged(before, rows, layouts, done * gone) && h in gone
    ensures Purged(before, DropRows(rows, h), layouts - {h}, (done + {h}) * gone)
  {
    DropOneMore(before.rows, done * gone, h);
    assert (done + {h}) * gone == done * gone + {h};
  }

  lemma {:induction false} AllCondemned(m: map<Hash, Blob>, live: set<Hash>, now: int, grace: int)
    ensures m.Keys * Condemned(m, live, now, grace) == Condemned(m, live, now, grace)
  {
  }

  lemma {:induction false} GcKeepsValid(x: Xet, st: State, now: int, grace: int)
    ensures Inv(x, st) ==> !Aborts(x, st) && Inv(x, Gc(x, st, now, grace))
  {
    if Inv(x, st) {
      GcKeepsInv(x, st, now, grace);
      NeverAborts(x, st);
    }
    hide *;
  }

  lemma {:induction false} AbortsIff(x: Xet, st: State, live: set<Hash>)
    requires live == LiveShards(st)
    ensures Aborts(x, st) <==> exists s :: s in live && CorruptShard(x, st, s)
    ensures Aborts(x, st) ==> forall now, grace :: Gc(x, st, now, grace) == st
  {
    hide CorruptShard;
  }

  // Both sweeps of a pass, with their counts.
  ghost predicate BothSwept(
    before: State, after: State, reachable: set<Hash>, live: set<Hash>, now: int, grace: int, onXorbs: Tally, onShards: Tally)
  {
    var gone := Condemned(before.xorbs, reachable, now, grace);
    && after == State(
         Swept(before.xorbs, reachable, now, grace), Swept(before.shards, live, now, grace),
         before.fileIndex, before.claims, DropAllRows(before.rows, gone), before.layouts - gone)
    && Sweeping(before.xorbs, after.xorbs, before.xorbs.Keys, reachable, now, grace, onXorbs)
    && Sweeping(before.shards, after.shards, before.shards.Keys, live, now, grace, onShards)
    && onXorbs.skipped == |after.xorbs.Keys - reachable|
    && onShards.skipped == |after.shards.Keys - live|
  }

  lemma {:induction false} SweepsMakePass(x: Xet, before: State, after: State, now: int, grace: int, onXorbs: Tally, onShards: Tally)
    requires BothSwept(before, after, Marked(x, before, LiveShards(before)), LiveShards(before), now, grace, onXorbs, onShards)
    requires !Aborts(x, before)
    ensures after == Gc(x, before, now, grace)
    ensures ReportExact(x, before, after, GcReport(
      |before.fileIndex|, |LiveShards(before)|, |Marked(x, before, LiveShards(before))|,
      onXorbs.deleted, onXorbs.freed, onShards.deleted, onShards.freed, onXorbs.skipped + onShards.skipped))
  {
    hide Marked, LiveShards, Sweeping, TotalBytes, CorruptShard, Swept, DropAllRows, Condemned;
    SweepCounts(before.xorbs, after.xorbs, Marked(x, before, LiveShards(before)), now, grace, onXorbs);
    SweepCounts(before.shards, after.shards, LiveShards(before), now, grace, onShards);
  }

  lemma {:induction false} SweepCounts(
    before: map<Hash, Blob>, after: map<Hash, Blob>, live: set<Hash>, now: int, grace: int, t: Tally)
    requires Sweeping(before, after, before.Keys, live, now, grace, t)
    ensures t.deleted + |after| == |before| && t.freed + TotalBytes(after) == TotalBytes(before)
  {
    hide Condemned, TotalBytes;
  }
}
