/**
 Who may read a file (crates/server/src/routes/files.rs `authorize_file_read`): its owners and
 the admins, and an owner only from a registration of his until he releases it.
 */
module Access {
  import opened Basics
  import opened XetCore
  import opened XorbMeta
  import opened RangeHeaders
  import opened RangeReads
  import opened Store
  import opened Invariants
  import opened Ownership
  import opened Reconstruction

  // ---- one state ----

  // Whoever is no admin and has no claim on the file is told it does not exist: whatever he asks
  // for, whole or part, well or badly put, and whether or not it exists.
  lemma {:induction false} StrangersFindNothing(x: Xet, st: State, caller: Caller, f: Hash)
    requires !caller.admin && caller.owner !in Owners(st.claims, f)
    ensures forall header :: GetReconstruction(x, st, caller, f, header) == Err(ReadError.NotFound)
    ensures forall start, end :: Download(x, st, caller, f, start, end) == Err(ReadError.NotFound)
  {
    HasOwner(st.claims, f, caller.owner);
    hide FetchTerms, PlanFetches, HeaderFor, FinalSlice;
  }

  // So is everybody about a file that is not indexed.
  lemma {:induction false} UnindexedIsNotFound(x: Xet, st: State, caller: Caller, f: Hash)
    requires f !in st.fileIndex
    ensures forall header :: GetReconstruction(x, st, caller, f, header) == Err(ReadError.NotFound)
    ensures forall start, end :: Download(x, st, caller, f, start, end) == Err(ReadError.NotFound)
  {
    hide FetchTerms, PlanFetches, HeaderFor, FinalSlice;
  }

  // In a reachable state a whole download succeeds exactly for an indexed file and an admin or
  // one of its owners, and is otherwise answered as for a missing file.
  lemma {:induction false} DownloadsIffOwner(x: Xet, st: State, caller: Caller, f: Hash)
    requires Inv(x, st) && OnlyVersionZero(x)
    ensures var r := Download(x, st, caller, f, None, None);
      && (r.Ok? <==> f in st.fileIndex && (caller.admin || caller.owner in Owners(st.claims, f)))
      && (r.Err? ==> r.error == ReadError.NotFound)
  {
    HasOwner(st.claims, f, caller.owner);
    hide Inv, OnlyVersionZero, Download, Owners;
    if !caller.admin && caller.owner !in Owners(st.claims, f) {
      StrangersFindNothing(x, st, caller, f);
    } else if f !in st.fileIndex {
      UnindexedIsNotFound(x, st, caller, f);
    } else {
      WholeDownload(x, st, caller, f);
    }
  }

  // The same of the server's answer, and of every part of the file: any request is refused with
  // NotFound exactly if the caller may not see the file.
  lemma {:induction false} RefusedAsMissingIff(x: Xet, st: State, caller: Caller, f: Hash, header: RangeHeader)
    requires Inv(x, st)
    ensures GetReconstruction(x, st, caller, f, header) == Err(ReadError.NotFound) <==>
      !(f in st.fileIndex && (caller.admin || caller.owner in Owners(st.claims, f)))
  {
    HasOwner(st.claims, f, caller.owner);
    hide Inv, Owners;
    if !caller.admin && caller.owner !in Owners(st.claims, f) {
      StrangersFindNothing(x, st, caller, f);
    } else if f !in st.fileIndex {
      UnindexedIsNotFound(x, st, caller, f);
    } else {
      OwnersAreAnswered(x, st, caller, f, header);
    }
  }

  lemma {:induction false} OwnersAreAnswered(x: Xet, st: State, caller: Caller, f: Hash, header: RangeHeader)
    requires Inv(x, st) && f in st.fileIndex && MayRead(st, caller, f)
    ensures GetReconstruction(x, st, caller, f, header) != Err(ReadError.NotFound)
  {
    hide Inv, FileEntries, ReconstructionTerms, AllInStore, AllValid, TermsOf, PlanFetches, MayRead;
    IndexedFileIsValid(x, st, f);
    ReaderFindsFile(x, st, caller, f, header);
    var all := TermsOf(FileEntries(x, st, f));
    var found := TrimTo(all, header);
    if found.Ok? {
      TrimToInStore(x, st.xorbs, all, header);
      AnswerIsComplete(x, st, found.value.1);
      PlanIsFetchMap(x, st, found.value.1);
    }
  }

  lemma {:induction false} TrimToInStore(x: Xet, xorbs: map<Hash, Blob>, terms: seq<Term>, header: RangeHeader)
    requires AllInStore(x, xorbs, terms) && TrimTo(terms, header).Ok?
    ensures AllInStore(x, xorbs, TrimTo(terms, header).value.1)
  {
    hide AllInStore, Trim, TotalSize;
    if header.Span? {
      TrimmedInStore(x, xorbs, terms, header.start, Min(header.end, TotalSize(terms) - 1));
    }
  }

  // A span that starts past its end is refused as such.
  lemma {:induction false} InvertedIsRefused(x: Xet, st: State, caller: Caller, f: Hash, a: nat, b: nat)
    requires Inv(x, st) && f in st.fileIndex && (caller.admin || (f, caller.owner) in st.claims) && b < a < U64
    ensures Download(x, st, caller, f, Some(a), Some(b)) == Err(RangeNotSatisfiable)
  {
    HeaderIs(Some(a), Some(b));
    hide Inv, FileEntries, ReconstructionTerms, TermsOf, HeaderFor, TotalSize, Trim;
    ReaderFindsFile(x, st, caller, f, Span(a, b));
  }

  // What a permitted reader is told about an indexed file whose shard is damaged; no run from
  // the empty store gets there.
  lemma {:induction false} DamagedShardAnswers(x: Xet, st: State, caller: Caller, f: Hash, header: RangeHeader)
    requires f in st.fileIndex && (caller.admin || (f, caller.owner) in st.claims)
    ensures st.fileIndex[f] !in st.shards ==> GetReconstruction(x, st, caller, f, header) == Err(ReadError.NotFound)
    ensures st.fileIndex[f] in st.shards && x.parseShard(st.shards[st.fileIndex[f]].bytes).None? ==>
      GetReconstruction(x, st, caller, f, header) == Err(Internal)
    ensures st.fileIndex[f] in st.shards && NoBlockAbout(x, st.shards[st.fileIndex[f]].bytes, f) ==>
      GetReconstruction(x, st, caller, f, header) == Err(Internal)
  {
    hide PlanFetches, TrimTo, TermsOf;
    if st.fileIndex[f] in st.shards && x.parseShard(st.shards[st.fileIndex[f]].bytes).Some? {
      NoneAbout(x.parseShard(st.shards[st.fileIndex[f]].bytes).value.files, f);
    }
  }

  predicate NoBlockAbout(x: Xet, body: seq<Byte>, f: Hash) {
    x.parseShard(body).Some? && forall b :: b in x.parseShard(body).value.files ==> b.hash != f
  }

  lemma {:induction false} NoneAbout(files: seq<FileBlock>, f: Hash)
    ensures FirstAbout(files, f).None? <==> forall b :: b in files ==> b.hash != f
  {
    if files != [] {
      NoneAbout(files[1..], f);
      assert forall b :: b in files <==> b == files[0] || b in files[1..];
    }
  }

  // ---- whole runs ----

  lemma {:induction false} RunSnoc(x: Xet, st: State, events: seq<Event>)
    requires events != []
    ensures Run(x, st, events) == Step(x, Run(x, st, events[..|events| - 1]), events[|events| - 1])
    decreases |events|
  {
    hide Step;
    if |events| == 1 {
      assert events[..0] == [] && events[1..] == [];
    } else {
      var init := events[..|events| - 1];
      RunSnoc(x, Step(x, st, events[0]), events[1..]);
      assert events[1..][..|events| - 2] == init[1..];
    }
  }

  // This event is an accepted registration of a shard that declares f, by this owner.
  ghost predicate Registers(x: Xet, st: State, e: Event, f: Hash, o: Owner) {
    && e.RegisterShard? && e.owner == o && ValidUpload(x, st.xorbs, e.shardBody)
    && x.parseShard(e.shardBody).Some?
    && exists b :: b in x.parseShard(e.shardBody).value.files && b.hash == f
  }

  predicate Releases(e: Event, f: Hash, o: Owner) {
    e.DeleteFile? && e.caller.owner == o && e.file == f
  }

  lemma {:induction false} StepClaims(x: Xet, st: State, e: Event, f: Hash, o: Owner)
    requires Inv(x, st)
    ensures (f, o) in Step(x, st, e).claims <==> Registers(x, st, e, f, o) || ((f, o) in st.claims && !Releases(e, f, o))
  {
    match e {
      case UploadXorb(_, _, _) => hide ValidatedInfo, PutBatch, BodyLayout, ValidUpload;
      case RegisterShard(owner, body, now) => RegisterClaims(x, st, owner, body, now, f, o);
      case DeleteFile(caller, g) => ReleaseClaims(x, st, caller, g, f, o);
      case CollectGarbage(_, _) => hide Reachable, LiveShards, CorruptShard, Condemned, Swept, DropAllRows;
    }
  }

  lemma {:induction false} RegisterClaims(x: Xet, st: State, owner: Owner, body: seq<Byte>, now: int, f: Hash, o: Owner)
    ensures (f, o) in Register(x, st, owner, body, now).claims <==>
      Registers(x, st, RegisterShard(owner, body, now), f, o) || (f, o) in st.claims
  {
    hide ValidFile, ClaimFiles, IndexFiles, PutBatch, CasRows;
    if ValidUpload(x, st.xorbs, body) {
      var files := x.parseShard(body).value.files;
      ClaimedFiles(x, st.xorbs, st.claims, files, owner, now, f, o);
      AboutIff(files, f);
    }
  }

  lemma {:induction false} AboutIff(files: seq<FileBlock>, f: Hash)
    ensures About(files, f) <==> exists b :: b in files && b.hash == f
  {
    if b :| b in files && b.hash == f {
      var i :| 0 <= i < |files| && files[i] == b;
    }
  }

  lemma {:induction false} ReleaseClaims(x: Xet, st: State, caller: Caller, g: Hash, f: Hash, o: Owner)
    requires Inv(x, st)
    ensures (f, o) in Delete(st, caller, g).claims <==> (f, o) in st.claims && !(g == f && caller.owner == o)
  {
    InvMatches(x, st);
    hide Inv, ClaimsMatch, Delete, Owners;
    OwnersAfterDelete(st, caller, g, f);
    HasOwner(Delete(st, caller, g).claims, f, o);
    HasOwner(st.claims, f, o);
    HasOwner(st.claims, g, caller.owner);
  }

  // The i-th event registers f for this owner, and none after it releases it.
  ghost predicate GrantedAt(x: Xet, events: seq<Event>, i: nat, f: Hash, o: Owner) {
    && i < |events| && Registers(x, Run(x, EMPTY, events[..i]), events[i], f, o)
    && forall j :: i < j < |events| ==> !Releases(events[j], f, o)
  }

  ghost predicate Granted(x: Xet, events: seq<Event>, f: Hash, o: Owner) {
    exists i: nat :: GrantedAt(x, events, i, f, o)
  }

  lemma {:induction false} GrantedSnoc(x: Xet, events: seq<Event>, f: Hash, o: Owner)
    requires events != []
    ensures var init, last := events[..|events| - 1], events[|events| - 1];
      Granted(x, events, f, o) <==>
        Registers(x, Run(x, EMPTY, init), last, f, o) || (Granted(x, init, f, o) && !Releases(last, f, o))
  {
    hide Run, Registers, Releases;
    var n := |events| - 1;
    var init, last := events[..n], events[n];
    if Registers(x, Run(x, EMPTY, init), last, f, o) {
      assert GrantedAt(x, events, n, f, o);
    }
    if Granted(x, init, f, o) && !Releases(last, f, o) {
      var i: nat :| GrantedAt(x, init, i, f, o);
      assert init[..i] == events[..i];
      assert GrantedAt(x, events, i, f, o);
    }
    if i: nat :| GrantedAt(x, events, i, f, o) {
      if i < n {
        assert init[..i] == events[..i];
        assert GrantedAt(x, init, i, f, o);
      }
    }
  }

  // At the end of any run from the empty store, an owner holds a claim on a file exactly if a
  // registration of his declared it and was accepted, and he has not released it since.
  lemma {:induction false} ClaimIffGranted(x: Xet, events: seq<Event>, f: Hash, o: Owner)
    requires Trusted(x)
    ensures (f, o) in Run(x, EMPTY, events).claims <==> Granted(x, events, f, o)
    decreases |events|
  {
    hide Trusted, Registers, Releases, Step, Inv;
    if events != [] {
      var init := events[..|events| - 1];
      ClaimIffGranted(x, init, f, o);
      EveryRunIsSafe(x, init);
      hide Run, Granted;
      RunSnoc(x, EMPTY, events);
      StepClaims(x, Run(x, EMPTY, init), events[|events| - 1], f, o);
      GrantedSnoc(x, events, f, o);
    }
  }

  // So a caller who is no admin downloads a file at the end of a run exactly if he has registered
  // it and not released it since; otherwise he reads nothing of it, whatever he asks for.
  lemma {:induction false} ReadsIffGranted(x: Xet, events: seq<Event>, f: Hash, o: Owner)
    requires Trusted(x) && OnlyVersionZero(x)
    ensures var st, caller := Run(x, EMPTY, events), Caller(o, false);
      && (Download(x, st, caller, f, None, None).Ok? <==> Granted(x, events, f, o))
      && (!Granted(x, events, f, o) ==>
            && (forall header :: GetReconstruction(x, st, caller, f, header) == Err(ReadError.NotFound))
            && forall start, end :: Download(x, st, caller, f, start, end) == Err(ReadError.NotFound))
  {
    var st, caller := Run(x, EMPTY, events), Caller(o, false);
    EveryRunIsSafe(x, events);
    ClaimIffGranted(x, events, f, o);
    InvMatches(x, st);
    HasOwner(st.claims, f, o);
    hide Run, Trusted, Inv, Granted, Download, GetReconstruction, OnlyVersionZero;
    DownloadsIffOwner(x, st, caller, f);
    if !Granted(x, events, f, o) {
      StrangersFindNothing(x, st, caller, f);
    }
  }
}
