/**
 The usage report (crates/server/src/storage/index/sqlite_index.rs `usage`): what it adds up,
 and what the sums mean in a reachable state.
 */
module UsageReports {
  import opened Basics
  import opened XetCore
  import opened Store
  import opened Invariants
  import opened Ownership
  import opened Reconstruction
  import opened RoundTrip
  import opened Servers

  // ---- sums over sets ----

  ghost function SumOver<T(!new)>(s: set<T>, weight: T -> nat): nat
    decreases |s|
  {
    if s == {} then 0
    else
      var e := Pick(s);
      weight(e) + SumOver(s - {e}, weight)
  }

  // The sum does not depend on the order it is taken in.
  lemma {:induction false} SumOverWithout<T(!new)>(s: set<T>, e: T, weight: T -> nat)
    requires e in s
    ensures SumOver(s, weight) == weight(e) + SumOver(s - {e}, weight)
    decreases |s|
  {
    var first := Pick(s);
    if first != e {
      SumOverWithout(s - {first}, e, weight);
      SumOverWithout(s - {e}, first, weight);
      assert s - {first} - {e} == s - {e} - {first};
    }
  }

  lemma {:induction false} SumOverAgrees<T(!new)>(s: set<T>, f: T -> nat, g: T -> nat)
    requires forall e :: e in s ==> f(e) == g(e)
    ensures SumOver(s, f) == SumOver(s, g)
    decreases |s|
  {
    if s != {} {
      SumOverAgrees(s - {Pick(s)}, f, g);
    }
  }

  lemma {:induction false} SumOverPlus<T(!new)>(s: set<T>, e: T, weight: T -> nat)
    requires e !in s
    ensures SumOver(s + {e}, weight) == SumOver(s, weight) + weight(e)
  {
    SumOverWithout(s + {e}, e, weight);
    assert s + {e} - {e} == s;
  }

  // Renaming the elements one to one keeps the sum.
  lemma {:induction false} SumOverPairs(owner: Owner, keys: set<(Hash, Owner)>, files: set<Hash>, f: ((Hash, Owner)) -> nat, g: Hash -> nat)
    requires forall k :: k in keys <==> k.1 == owner && k.0 in files
    requires forall k :: k in keys ==> f(k) == g(k.0)
    ensures SumOver(keys, f) == SumOver(files, g) && |keys| == |files|
    decreases |files|
  {
    if files == {} {
      assert keys == {};
    } else {
      var h := Pick(files);
      assert (h, owner) in keys;
      SumOverWithout(keys, (h, owner), f);
      SumOverPairs(owner, keys - {(h, owner)}, files - {h}, f, g);
    }
  }

  // ---- the report ----

  function BytesOfClaim(claims: Claims): ((Hash, Owner)) -> nat {
    k => if k in claims then claims[k].logicalBytes else 0
  }

  function ClaimsOf(claims: Claims, o: Owner): set<(Hash, Owner)> {
    set k | k in claims && k.1 == o
  }

  function ClaimedFiles(claims: Claims): set<Hash> {
    set k | k in claims :: k.0
  }

  function Claimants(claims: Claims): set<Owner> {
    set k | k in claims :: k.1
  }

  // m is the largest claim on f: MAX(logical_bytes) ... GROUP BY file_hash
  ghost predicate IsLargest(claims: Claims, f: Hash, m: nat) {
    && (exists o :: (f, o) in claims && claims[(f, o)].logicalBytes == m)
    && (forall o :: (f, o) in claims ==> claims[(f, o)].logicalBytes <= m)
  }

  datatype OwnerUsage = OwnerUsage(fileCount: nat, logicalBytes: nat)

  datatype UsageReport = UsageReport(owners: map<Owner, OwnerUsage>, claimedFiles: nat, uniqueFileBytes: nat)

  // One row per claimant with the number and the sum of his claims; `sizes` has the largest
  // claim on each claimed file.
  ghost predicate Tallied(claims: Claims, owners: map<Owner, OwnerUsage>, sizes: map<Hash, nat>) {
    && owners.Keys == Claimants(claims)
    && (forall o :: o in owners ==>
          owners[o] == OwnerUsage(|ClaimsOf(claims, o)|, SumOver(ClaimsOf(claims, o), BytesOfClaim(claims))))
    && sizes.Keys == ClaimedFiles(claims)
    && (forall f :: f in sizes ==> IsLargest(claims, f, sizes[f]))
  }

  function SizeIn(sizes: map<Hash, nat>): Hash -> nat {
    f => if f in sizes then sizes[f] else 0
  }

  function AddClaim(owners: map<Owner, OwnerUsage>, o: Owner, bytes: nat): map<Owner, OwnerUsage> {
    var u := if o in owners then owners[o] else OwnerUsage(0, 0);
    owners[o := OwnerUsage(u.fileCount + 1, u.logicalBytes + bytes)]
  }

  function AddSize(sizes: map<Hash, nat>, f: Hash, bytes: nat): map<Hash, nat> {
    sizes[f := if f in sizes && sizes[f] > bytes then sizes[f] else bytes]
  }

  lemma {:induction false} OwnerTurn(claims: Claims, k: (Hash, Owner), c: Claim, o: Owner)
    requires k !in claims
    ensures var next := claims[k := c];
      && |ClaimsOf(next, o)| == |ClaimsOf(claims, o)| + (if o == k.1 then 1 else 0)
      && SumOver(ClaimsOf(next, o), BytesOfClaim(next)) ==
         SumOver(ClaimsOf(claims, o), BytesOfClaim(claims)) + (if o == k.1 then c.logicalBytes else 0)
  {
    var next := claims[k := c];
    SumOverAgrees(ClaimsOf(claims, o), BytesOfClaim(claims), BytesOfClaim(next));
    if o == k.1 {
      assert ClaimsOf(next, o) == ClaimsOf(claims, o) + {k};
      SumOverPlus(ClaimsOf(claims, o), k, BytesOfClaim(next));
    } else {
      assert ClaimsOf(next, o) == ClaimsOf(claims, o);
    }
  }

  lemma {:induction false} NoClaims(claims: Claims, o: Owner)
    requires o !in Claimants(claims)
    ensures ClaimsOf(claims, o) == {} && SumOver(ClaimsOf(claims, o), BytesOfClaim(claims)) == 0
  {
    assert forall k :: k in claims ==> k.1 in Claimants(claims);
  }

  lemma {:induction false} SizeTurn(claims: Claims, k: (Hash, Owner), c: Claim, f: Hash, m: nat)
    requires k !in claims
    ensures k.0 != f && IsLargest(claims, f, m) ==> IsLargest(claims[k := c], f, m)
    ensures k.0 == f && IsLargest(claims, f, m) ==>
      IsLargest(claims[k := c], f, if m > c.logicalBytes then m else c.logicalBytes)
    ensures k.0 == f && f !in ClaimedFiles(claims) ==> IsLargest(claims[k := c], f, c.logicalBytes)
  {
    var next := claims[k := c];
    assert k == (k.0, k.1);
    if IsLargest(claims, f, m) {
      var o :| (f, o) in claims && claims[(f, o)].logicalBytes == m;
      assert (f, o) in next && next[(f, o)].logicalBytes == m;
    }
    assert (k.0, k.1) in next;
    forall o ensures (f, o) in claims ==> f in ClaimedFiles(claims) {
      ClaimedHas(claims, f, o);
    }
  }

  lemma {:induction false} ClaimedHas(claims: Claims, f: Hash, o: Owner)
    ensures (f, o) in claims ==> f in ClaimedFiles(claims)
  {
    assert (f, o).0 == f;
  }

  lemma {:induction false} TallyTurn(
    claims: Claims, owners: map<Owner, OwnerUsage>, sizes: map<Hash, nat>, k: (Hash, Owner), c: Claim)
    requires Tallied(claims, owners, sizes) && k !in claims
    ensures Tallied(claims[k := c], AddClaim(owners, k.1, c.logicalBytes), AddSize(sizes, k.0, c.logicalBytes))
  {
    var next, rows, all := claims[k := c], AddClaim(owners, k.1, c.logicalBytes), AddSize(sizes, k.0, c.logicalBytes);
    hide IsLargest, SumOver, BytesOfClaim, ClaimsOf;
    assert Claimants(next) == Claimants(claims) + {k.1};
    assert ClaimedFiles(next) == ClaimedFiles(claims) + {k.0};
    forall o | o in rows
      ensures rows[o] == OwnerUsage(|ClaimsOf(next, o)|, SumOver(ClaimsOf(next, o), BytesOfClaim(next)))
    {
      OwnerTurn(claims, k, c, o);
      if o !in owners {
        NoClaims(claims, o);
      }
    }
    forall f | f in all ensures IsLargest(next, f, all[f]) {
      SizeTurn(claims, k, c, f, if f in sizes then sizes[f] else 0);
    }
  }

  ghost predicate IsUsage(claims: Claims, r: UsageReport) {
    exists sizes :: Tallied(claims, r.owners, sizes)
      && r.claimedFiles == |sizes| && r.uniqueFileBytes == SumOver(sizes.Keys, SizeIn(sizes))
  }

  // Adds up all claims, row by row, then the sizes file by file.
  method Usage(server: Server) returns (r: UsageReport)
    ensures IsUsage(server.claims, r)
  {
    hide Tallied, AddClaim, AddSize;
    var owners: map<Owner, OwnerUsage>, sizes: map<Hash, nat> := map[], map[];
    var todo := server.claims.Keys;
    ghost var seen: Claims := map[];
    NothingTallied();
    while todo != {}
      invariant todo <= server.claims.Keys && seen == server.claims - todo
      invariant Tallied(seen, owners, sizes)
      decreases |todo|
    {
      var k := Choose(todo);
      var c := server.claims[k];
      TallyTurn(seen, owners, sizes, k, c);
      owners := AddClaim(owners, k.1, c.logicalBytes);
      sizes := AddSize(sizes, k.0, c.logicalBytes);
      OneMoreClaim(server.claims, todo, k);
      seen := seen[k := c];
      todo := todo - {k};
    }
    assert server.claims - {} == server.claims;
    var total := SumSizes(sizes);
    r := UsageReport(owners, |sizes|, total);
  }

  lemma {:induction false} OneMoreClaim(claims: Claims, todo: set<(Hash, Owner)>, k: (Hash, Owner))
    requires todo <= claims.Keys && k in todo
    ensures k !in claims - todo && (claims - todo)[k := claims[k]] == claims - (todo - {k})
  {
  }

  lemma {:induction false} NothingTallied()
    ensures Tallied(map[], map[], map[])
  {
  }

  method SumSizes(sizes: map<Hash, nat>) returns (total: nat)
    ensures total == SumOver(sizes.Keys, SizeIn(sizes))
  {
    total := 0;
    var todo := sizes.Keys;
    assert sizes.Keys - todo == {};
    NothingSummed(SizeIn(sizes));
    hide SumOver;
    while todo != {}
      invariant todo <= sizes.Keys && total == SumOver(sizes.Keys - todo, SizeIn(sizes))
      decreases |todo|
    {
      var f := Choose(todo);
      SumOverPlus(sizes.Keys - todo, f, SizeIn(sizes));
      OneMoreKey(sizes, todo, f);
      total := total + sizes[f];
      todo := todo - {f};
    }
    assert sizes.Keys - {} == sizes.Keys;
  }

  lemma {:induction false} NothingSummed(weight: Hash -> nat)
    ensures SumOver({}, weight) == 0
  {
  }

  lemma {:induction false} OneMoreKey(sizes: map<Hash, nat>, todo: set<Hash>, f: Hash)
    requires todo <= sizes.Keys && f in todo
    ensures sizes.Keys - (todo - {f}) == sizes.Keys - todo + {f} && f !in sizes.Keys - todo
    ensures SizeIn(sizes)(f) == sizes[f]
  {
  }

  // ---- what the sums mean ----

  function FilesOf(claims: Claims, o: Owner): set<Hash> {
    set k | k in claims && k.1 == o :: k.0
  }

  function FileSize(x: Xet, st: State): Hash -> nat {
    f => |FileContent(x, st, f)|
  }

  // A claim carries the size of the file it is on.
  lemma {:induction false} ClaimIsFileSize(x: Xet, st: State, f: Hash, o: Owner)
    requires Inv(x, st) && (f, o) in st.claims
    ensures f in st.fileIndex && st.claims[(f, o)].logicalBytes == |FileContent(x, st, f)|
  {
    HasOwner(st.claims, f, o);
    assert f in st.fileIndex;
    IndexedFileIsValid(x, st, f);
    var entries := FileEntries(x, st, f);
    ClaimIsChunkSum(x, st, f, o, FileChunks(x, st.xorbs, entries));
    hide Inv, FileEntries, FileChunks, Join;
    ChunksOfRaws(x, st.xorbs, entries);
    ContentOfRaws(x, st.xorbs, entries);
    var raws := FileRaws(x, st.xorbs, entries);
    assert SizesOf(SizedRaws(x, raws)) == Lens(raws);
    JoinLength(raws);
  }

  lemma {:induction false} ClaimIsChunkSum(x: Xet, st: State, f: Hash, o: Owner, chunks: seq<Sized>)
    requires Inv(x, st) && (f, o) in st.claims && x.fileHash(chunks) == f
    ensures st.claims[(f, o)].logicalBytes == Sum(SizesOf(chunks))
  {
    hide BlobsSound, ShardsSound, FilesSound, LayoutsMatch, RowsDistinct, ClaimsMatch, SizesOf;
    assert (f, o).0 == f;
  }

  lemma {:induction false} IndexedIsClaimed(st: State, f: Hash)
    requires ClaimsMatch(st)
    ensures f in st.fileIndex <==> f in ClaimedFiles(st.claims)
  {
    if f in ClaimedFiles(st.claims) {
      var k :| k in st.claims && k.0 == f;
      assert k == (f, k.1);
      HasOwner(st.claims, f, k.1);
    }
    if f in st.fileIndex {
      var o := Pick(Owners(st.claims, f));
      HasOwner(st.claims, f, o);
      assert (f, o).0 == f;
    }
  }

  // In a reachable state the report says: each owner's row counts the files he claims and adds
  // up their sizes, the claimed files are the indexed ones, and the unique bytes are the sizes
  // of the indexed files, each once.
  lemma {:induction false} UsageIsExact(x: Xet, st: State, r: UsageReport)
    requires Inv(x, st) && IsUsage(st.claims, r)
    ensures forall o :: o in r.owners <==> FilesOf(st.claims, o) != {}
    ensures forall o :: o in r.owners ==>
      r.owners[o] == OwnerUsage(|FilesOf(st.claims, o)|, SumOver(FilesOf(st.claims, o), FileSize(x, st)))
    ensures r.claimedFiles == |st.fileIndex|
    ensures r.uniqueFileBytes == SumOver(st.fileIndex.Keys, FileSize(x, st))
  {
    hide Inv, FileContent, SumOver, Tallied, FilesOf, FileSize;
    var sizes :| Tallied(st.claims, r.owners, sizes)
      && r.claimedFiles == |sizes| && r.uniqueFileBytes == SumOver(sizes.Keys, SizeIn(sizes));
    RowsAreExact(x, st, r.owners, sizes);
    SizesAreExact(x, st, r.owners, sizes);
  }

  lemma {:induction false} RowsAreExact(x: Xet, st: State, owners: map<Owner, OwnerUsage>, sizes: map<Hash, nat>)
    requires Inv(x, st) && Tallied(st.claims, owners, sizes)
    ensures forall o :: o in owners <==> FilesOf(st.claims, o) != {}
    ensures forall o :: o in owners ==>
      owners[o] == OwnerUsage(|FilesOf(st.claims, o)|, SumOver(FilesOf(st.claims, o), FileSize(x, st)))
  {
    hide Inv, FileSize, SumOver, FilesOf, IsLargest, ClaimsOf, BytesOfClaim;
    forall o ensures o in owners <==> FilesOf(st.claims, o) != {} {
      ClaimantHasFiles(st.claims, o);
    }
    forall o | o in owners
      ensures owners[o] == OwnerUsage(|FilesOf(st.claims, o)|, SumOver(FilesOf(st.claims, o), FileSize(x, st)))
    {
      OwnerRow(x, st, o);
    }
  }

  lemma {:induction false} SizesAreExact(x: Xet, st: State, owners: map<Owner, OwnerUsage>, sizes: map<Hash, nat>)
    requires Inv(x, st) && Tallied(st.claims, owners, sizes)
    ensures |sizes| == |st.fileIndex| && SumOver(sizes.Keys, SizeIn(sizes)) == SumOver(st.fileIndex.Keys, FileSize(x, st))
  {
    InvMatches(x, st);
    hide Inv, FileContent, SumOver, ClaimsMatch, IsLargest;
    forall f ensures f in sizes.Keys <==> f in st.fileIndex.Keys {
      IndexedIsClaimed(st, f);
    }
    assert sizes.Keys == st.fileIndex.Keys;
    forall f | f in sizes.Keys ensures SizeIn(sizes)(f) == FileSize(x, st)(f) {
      LargestIsFileSize(x, st, f, sizes[f]);
    }
    SumOverAgrees(sizes.Keys, SizeIn(sizes), FileSize(x, st));
  }

  lemma {:induction false} ClaimantHasFiles(claims: Claims, o: Owner)
    ensures o in Claimants(claims) <==> FilesOf(claims, o) != {}
  {
    if o in Claimants(claims) {
      var k :| k in claims && k.1 == o;
      assert k.0 in FilesOf(claims, o);
    }
  }

  lemma {:induction false} OwnerRow(x: Xet, st: State, o: Owner)
    requires Inv(x, st)
    ensures |ClaimsOf(st.claims, o)| == |FilesOf(st.claims, o)|
    ensures SumOver(ClaimsOf(st.claims, o), BytesOfClaim(st.claims)) == SumOver(FilesOf(st.claims, o), FileSize(x, st))
  {
    hide Inv, FileContent, SumOver;
    forall k | k in ClaimsOf(st.claims, o) ensures BytesOfClaim(st.claims)(k) == FileSize(x, st)(k.0) {
      assert k == (k.0, k.1);
      ClaimIsFileSize(x, st, k.0, k.1);
    }
    forall k ensures k in ClaimsOf(st.claims, o) <==> k.1 == o && k.0 in FilesOf(st.claims, o) {
      if k.1 == o && k.0 in FilesOf(st.claims, o) {
        var j :| j in st.claims && j.1 == o && j.0 == k.0;
        assert j == (j.0, j.1) && k == (k.0, k.1);
      }
    }
    SumOverPairs(o, ClaimsOf(st.claims, o), FilesOf(st.claims, o), BytesOfClaim(st.claims), FileSize(x, st));
  }

  lemma {:induction false} LargestIsFileSize(x: Xet, st: State, f: Hash, m: nat)
    requires Inv(x, st) && IsLargest(st.claims, f, m)
    ensures m == |FileContent(x, st, f)|
  {
    hide Inv, FileContent;
    var o :| (f, o) in st.claims && st.claims[(f, o)].logicalBytes == m;
    ClaimIsFileSize(x, st, f, o);
  }

  // Charging every owner for a shared file counts it once per owner.
  lemma {:induction false} SharedFileBytes(x: Xet, st: State, f: Hash, keys: set<(Hash, Owner)>)
    requires Inv(x, st) && forall k :: k in keys <==> k in st.claims && k.0 == f
    ensures SumOver(keys, BytesOfClaim(st.claims)) == |Owners(st.claims, f)| * |FileContent(x, st, f)|
  {
    hide Inv, FileContent, SumOver;
    forall k | k in keys ensures BytesOfClaim(st.claims)(k) == |FileContent(x, st, f)| {
      assert k == (k.0, k.1);
      ClaimIsFileSize(x, st, f, k.1);
    }
    EqualSum(keys, BytesOfClaim(st.claims), |FileContent(x, st, f)|);
    forall k ensures k in keys <==> k.0 == f && k.1 in Owners(st.claims, f) {
      HasOwner(st.claims, f, k.1);
      assert k == (k.0, k.1);
    }
    PairCount(keys, Owners(st.claims, f), f);
  }

  lemma {:induction false} EqualSum<T(!new)>(s: set<T>, weight: T -> nat, size: nat)
    requires forall e :: e in s ==> weight(e) == size
    ensures SumOver(s, weight) == |s| * size
    decreases |s|
  {
    if s != {} {
      var e := Pick(s);
      EqualSum(s - {e}, weight, size);
      assert |s - {e}| == |s| - 1;
      OneTimesMore(|s|, size);
    }
  }

  lemma {:induction false} OneTimesMore(n: nat, size: nat)
    requires n > 0
    ensures size + (n - 1) * size == n * size
  {
  }

  lemma {:induction false} PairCount(keys: set<(Hash, Owner)>, owners: set<Owner>, f: Hash)
    requires forall k :: k in keys <==> k.0 == f && k.1 in owners
    ensures |keys| == |owners|
    decreases |owners|
  {
    if owners == {} {
      assert keys == {};
    } else {
      var o := Pick(owners);
      assert (f, o) in keys;
      PairCount(keys - {(f, o)}, owners - {o}, f);
    }
  }
}
