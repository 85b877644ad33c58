/**
 The handlers that only read (crates/server/src/routes/reconstruction.rs, dedup.rs, xorb.rs)
 and the client that reassembles a file from them (python/src/openxet_fsspec/client.py).
 */
module Serving {
  import opened Basics
  import opened XetCore
  import opened XorbMeta
  import opened Decoding
  import opened RangeMerging
  import opened RangeReads
  import opened RangeHeaders
  import opened UploadSessions
  import opened Reconstruction
  import opened RoundTrip
  import opened Servers
  import opened Invariants
  import opened Store

  // ---- GET /v1/reconstructions/{file_id} ----

  method FindFile(files: seq<FileBlock>, f: Hash) returns (found: Option<FileBlock>)
    ensures found == FirstAbout(files, f)
  {
    for i := 0 to |files|
      invariant FirstAbout(files[i..], f) == FirstAbout(files, f)
    {
      assert files[i..][1..] == files[i + 1..];
      if files[i].hash == f { return Some(files[i]); }
    }
    return None;
  }

  method TermsFor(server: Server, caller: Caller, f: Hash, header: Option<string>) returns (r: Result<(nat, seq<Term>), ReadError>)
    ensures r == ReconstructionTerms(server.x, server.View(), caller, f, ParseRangeHeader(header))
  {
    hide FirstAbout, TotalSize, Trim, ParseRangeHeader;
    if !caller.admin && (f, caller.owner) !in server.claims { return Err(NotFound); }
    if f !in server.fileIndex { return Err(NotFound); }
    var sh := server.fileIndex[f];
    if sh !in server.shards { return Err(NotFound); }
    var parsed := server.x.parseShard(server.shards[sh].bytes);
    if parsed.None? { return Err(Internal); }
    var block := FindFile(parsed.value.files, f);
    if block.None? { return Err(Internal); }
    var terms := TermsOf(block.value.entries);
    match ParseRangeHeader(header) {
      case Absent => return Ok((0, terms));
      case Malformed => return Err(BadRequest);
      case Span(a, b) =>
        if a > b { return Err(RangeNotSatisfiable); }
        var trimmed := TrimTerms(terms, a, b);
        return if trimmed.Ok? then Ok(trimmed.value) else Err(RangeNotSatisfiable);
    }
  }

  method OffsetsFor(server: Server, h: Hash) returns (r: Result<seq<(nat, nat)>, ReadError>)
    ensures r == ChunkOffsets(server.x, server.View(), h)
  {
    hide LayoutOffsets, StoredInfo, ByteOffsets;
    if h in server.layouts {
      var fast := ChunkByteOffsetsFromLayout(server.layouts[h]);
      if fast.Some? { return Ok(fast.value); }
    }
    if h !in server.xorbs { return Err(NotFound); }
    var info := XorbInfoFromStored(server.x, server.xorbs[h].bytes);
    if info.Err? || !Complete(info.value) { return Err(Internal); }
    var offsets := ChunkByteOffsets(info.value);
    return Ok(offsets);
  }

  method SpansFor(offsets: seq<(nat, nat)>, ranges: Ranges) returns (infos: seq<FetchInfo>)
    ensures infos == FetchInfos(offsets, ranges)
  {
    infos := [];
    for i := 0 to |ranges|
      invariant infos + FetchInfos(offsets, ranges[i..]) == FetchInfos(offsets, ranges)
    {
      assert ranges[i..][1..] == ranges[i + 1..];
      ghost var before, rest := infos, FetchInfos(offsets, ranges[i + 1..]);
      var r := ranges[i];
      var end := Min(r.end, |offsets|);
      if r.start < |offsets| && end != 0 {
        var info := FetchInfo(r, offsets[r.start].0, Less(offsets[end - 1].1));
        infos := infos + [info];
        assert before + ([info] + rest) == infos + rest;
      }
    }
    assert infos + [] == infos;
  }

  method GetReconstruction(server: Server, caller: Caller, f: Hash, header: Option<string>) returns (r: Result<Answer, ReadError>)
    ensures r == Reconstruction.GetReconstruction(server.x, server.View(), caller, f, ParseRangeHeader(header))
  {
    hide ReconstructionTerms, ChunkOffsets, FetchInfos, PerXorb, PlanFetches, ParseRangeHeader;
    var found := TermsFor(server, caller, f, header);
    if found.Err? { return Err(found.error); }
    var (offset, terms) := found.value;
    var perXorb := MergedChunkRangesPerXorb(terms);
    var fetch: map<Hash, seq<FetchInfo>> := map[];
    NothingPlanned(server.x, server.View(), perXorb);
    for k := 0 to |perXorb|
      invariant PlanFetches(server.x, server.View(), perXorb[..k]) == Ok(fetch)
    {
      PlanTurn(server.x, server.View(), perXorb, k, fetch);
      var (h, ranges) := perXorb[k];
      var offsets := OffsetsFor(server, h);
      if offsets.Err? {
        FirstFailureDecides(server.x, server.View(), perXorb, k + 1);
        return Err(offsets.error);
      }
      var infos := SpansFor(offsets.value, ranges);
      if infos != [] {
        fetch := fetch[h := infos];
      }
    }
    assert perXorb[..|perXorb|] == perXorb;
    return Ok(Answer(offset, terms, fetch));
  }

  lemma {:induction false} NothingPlanned(x: Xet, st: State, perXorb: seq<(Hash, Ranges)>)
    ensures PlanFetches(x, st, perXorb[..0]) == Ok(map[])
  {
  }

  lemma {:induction false} PlanTurn(
    x: Xet, st: State, perXorb: seq<(Hash, Ranges)>, k: nat, fetch: map<Hash, seq<FetchInfo>>)
    requires k < |perXorb| && PlanFetches(x, st, perXorb[..k]) == Ok(fetch)
    ensures PlanFetches(x, st, perXorb[..k + 1]) ==
      match ChunkOffsets(x, st, perXorb[k].0)
      case Err(e) => Err(e)
      case Ok(offsets) => Ok(WithFetch(fetch, perXorb[k].0, FetchInfos(offsets, perXorb[k].1)))
  {
    hide ChunkOffsets, FetchInfos, WithFetch;
    assert perXorb[..k + 1][..k] == perXorb[..k];
  }

  lemma {:induction false} FirstFailureDecides(x: Xet, st: State, perXorb: seq<(Hash, Ranges)>, k: nat)
    requires k <= |perXorb| && PlanFetches(x, st, perXorb[..k]).Err?
    ensures PlanFetches(x, st, perXorb) == PlanFetches(x, st, perXorb[..k])
    decreases |perXorb|
  {
    hide ChunkOffsets, FetchInfos;
    if k == |perXorb| {
      assert perXorb[..k] == perXorb;
    } else {
      var init := perXorb[..|perXorb| - 1];
      assert init[..k] == perXorb[..k];
      FirstFailureDecides(x, st, init, k);
    }
  }

  // ---- GET /v1/xorbs/default/{hash} with a byte span ----

  method GetXorb(server: Server, h: Hash, first: nat, last: nat) returns (r: Result<seq<Byte>, ReadError>)
    ensures r == GetXorbRange(server.View(), h, first, last)
    ensures r == Err(NotFound) <==> h !in server.xorbs
    ensures r == Err(RangeNotSatisfiable) <==> h in server.xorbs && (first > last || first >= |server.xorbs[h].bytes|)
    ensures r.Ok? <==> h in server.xorbs && first <= last && first < |server.xorbs[h].bytes|
    ensures r.Ok? ==> r.value == server.xorbs[h].bytes[first..Min(last + 1, |server.xorbs[h].bytes|)]
  {
    if h !in server.xorbs { return Err(NotFound); }
    var body := server.xorbs[h].bytes;
    if first > last || first >= |body| { return Err(RangeNotSatisfiable); }
    var end := Min(last + 1, |body|);
    return Ok(body[first..end]);
  }

  // ---- the client's `download` ----

  method FindCovering(infos: seq<FetchInfo>, t: Term) returns (found: Option<FetchInfo>)
    ensures found == Covering(infos, t)
    ensures found.Some? ==> found.value in infos && found.value.range.start <= t.start && t.end <= found.value.range.end
    ensures found.None? ==> forall i :: 0 <= i < |infos| ==> !(infos[i].range.start <= t.start && t.end <= infos[i].range.end)
  {
    for i := 0 to |infos|
      invariant Covering(infos[i..], t) == Covering(infos, t)
      invariant forall j :: 0 <= j < i ==> !(infos[j].range.start <= t.start && t.end <= infos[j].range.end)
    {
      assert infos[i..][1..] == infos[i + 1..];
      if infos[i].range.start <= t.start && infos[i].range.end >= t.end { return Some(infos[i]); }
    }
    return None;
  }

  method FetchOne(server: Server, answer: Answer, t: Term) returns (r: Result<seq<Byte>, ReadError>)
    ensures r == FetchTerm(server.x, server.View(), answer, t)
  {
    hide Covering, GetXorbRange, Decode;
    var infos := if t.xorb in answer.fetch then answer.fetch[t.xorb] else [];
    var info := FindCovering(infos, t);
    if info.None? { return Err(NoFetchInfo); }
    var data := GetXorb(server, t.xorb, info.value.first, info.value.last);
    if data.Err? { return Err(FetchFailed); }
    if t.end < info.value.range.start { return Err(DecodeFailed); }
    var decoded := DecodeChunks(server.x, data.value, t.start - info.value.range.start, t.end - info.value.range.start);
    return if decoded.Ok? then Ok(decoded.value) else Err(DecodeFailed);
  }

  function Prefixed(parts: seq<seq<Byte>>, rest: Result<seq<seq<Byte>>, ReadError>): Result<seq<seq<Byte>>, ReadError> {
    match rest
    case Err(e) => Err(e)
    case Ok(more) => Ok(parts + more)
  }

  lemma {:induction false} FetchTurn(x: Xet, st: State, answer: Answer, terms: seq<Term>, i: nat, parts: seq<seq<Byte>>)
    requires i < |terms|
    ensures var part := FetchTerm(x, st, answer, terms[i]);
      Prefixed(parts, FetchTerms(x, st, answer, terms[i..])) ==
        if part.Err? then Err(part.error) else Prefixed(parts + [part.value], FetchTerms(x, st, answer, terms[i + 1..]))
  {
    hide FetchTerm;
    assert terms[i..][1..] == terms[i + 1..];
    var part, rest := FetchTerm(x, st, answer, terms[i]), FetchTerms(x, st, answer, terms[i + 1..]);
    if part.Ok? && rest.Ok? {
      assert parts + ([part.value] + rest.value) == (parts + [part.value]) + rest.value;
    }
  }

  lemma {:induction false} FetchEnds(x: Xet, st: State, answer: Answer, terms: seq<Term>, parts: seq<seq<Byte>>)
    ensures Prefixed([], FetchTerms(x, st, answer, terms[0..])) == FetchTerms(x, st, answer, terms)
    ensures Prefixed(parts, FetchTerms(x, st, answer, terms[|terms|..])) == Ok(parts)
  {
    hide FetchTerm;
    assert terms[0..] == terms && terms[|terms|..] == [] && parts + [] == parts;
    var all := FetchTerms(x, st, answer, terms);
    if all.Ok? {
      assert [] + all.value == all.value;
    }
  }

  method Download(server: Server, caller: Caller, f: Hash, start: Option<nat>, end: Option<nat>)
    returns (r: Result<seq<Byte>, ReadError>)
    ensures r == Reconstruction.Download(server.x, server.View(), caller, f, start, end)
  {
    hide Reconstruction.GetReconstruction, FetchTerm, FetchTerms, Prefixed, ParseRangeHeader, ClientHeader;
    var header := ClientHeader(start, end);
    var answered := GetReconstruction(server, caller, f, header);
    if answered.Err? { return Err(answered.error); }
    var answer := answered.value;
    var parts: seq<seq<Byte>> := [];
    ghost var st := server.View();
    FetchEnds(server.x, st, answer, answer.terms, []);
    for i := 0 to |answer.terms|
      invariant Prefixed(parts, FetchTerms(server.x, st, answer, answer.terms[i..])) == FetchTerms(server.x, st, answer, answer.terms)
    {
      FetchTurn(server.x, st, answer, answer.terms, i, parts);
      var part := FetchOne(server, answer, answer.terms[i]);
      if part.Err? { return Err(part.error); }
      parts := parts + [part.value];
    }
    FetchEnds(server.x, st, answer, answer.terms, parts);
    var buf := Join(parts);
    if start.Some? && end.Some? && start.value <= end.value {
      return Ok(Clip(buf, answer.offset, answer.offset + (end.value - start.value + 1)));
    }
    return Ok(Clip(buf, answer.offset, |buf|));
  }

  // ---- GET /v1/chunks/default/{hash} ----

  datatype DedupError = ChunkUnknown | XorbUnreadable(xorb: Hash)

  function Located(rows: seq<Row>, chunk: Hash): set<Hash> {
    set r | r in Locations(rows, chunk) :: r.xorb
  }

  ghost predicate BlocksFor(blocks: seq<CasBlock>, located: set<Hash>) {
    && |blocks| == |located|
    && forall h :: h in located <==> exists i :: 0 <= i < |blocks| && blocks[i].xorb == h
  }

  method TriplesFor(server: Server, h: Hash) returns (r: Result<seq<Triple>, MetaError>)
    ensures r == DedupTriples(server.x, server.View(), h)
  {
    hide LayoutTriples, InfoTriples, StoredInfo;
    if h in server.layouts {
      var fast := TriplesFromLayout(server.layouts[h]);
      return Ok(fast);
    }
    if h !in server.xorbs { return Err(Corrupt); }
    var info := XorbInfoFromStored(server.x, server.xorbs[h].bytes);
    if info.Err? { return Err(info.error); }
    if !Complete(info.value) { return Err(Corrupt); }
    var slow := ChunkInfoTriples(info.value);
    return Ok(slow);
  }

  // Answers with one block per located xorb, unless one of them can no longer be read.
  method GetDedup(server: Server, chunk: Hash, key: Hash) returns (r: Result<KeyedShard, DedupError>)
    requires server.Valid()
    ensures r == Err(ChunkUnknown) <==> Located(server.rows, chunk) == {}
    ensures r.Ok? <==> Located(server.rows, chunk) != {} && Located(server.rows, chunk) <= server.xorbs.Keys
    ensures r.Ok? ==> DedupAnswer(server.x, server.View(), key, r.value)
    ensures r.Ok? ==> BlocksFor(r.value.blocks, Located(server.rows, chunk))
    ensures r.Err? && r.error.XorbUnreadable? ==> r.error.xorb in Located(server.rows, chunk) && r.error.xorb !in server.xorbs
  {
    hide Inv, DedupTriples, Trusted, Locations, BlocksFor;
    var located := set row | row in Locations(server.rows, chunk) :: row.xorb;
    assert located == Located(server.rows, chunk);
    if located == {} { return Err(ChunkUnknown); }
    var todo, blocks: seq<CasBlock> := located, [];
    NoBlocks();
    assert located - located == {};
    while todo != {}
      invariant todo <= located && located - todo <= server.xorbs.Keys
      invariant forall i :: 0 <= i < |blocks| ==> DedupBlock(server.x, server.View(), key, blocks[i])
      invariant BlocksFor(blocks, located - todo)
      decreases |todo|
    {
      var h := Choose(todo);
      TriplesDescribeStored(server.x, server.View(), h);
      var triples := TriplesFor(server, h);
      if triples.Err? { return Err(XorbUnreadable(h)); }
      var block := CasBlock(h, KeyedHashes(server.x, triples.value, key));
      OneMoreBlock(blocks, located - todo, block);
      OneMoreSeen(located, todo, h, server.xorbs.Keys);
      todo := todo - {h};
      blocks := blocks + [block];
    }
    assert located - {} == located;
    return Ok(KeyedShard(Some(key), blocks));
  }

  lemma {:induction false} NoBlocks()
    ensures BlocksFor([], {})
  {
  }

  lemma {:induction false} OneMoreSeen(all: set<Hash>, todo: set<Hash>, h: Hash, keys: set<Hash>)
    requires todo <= all && all - todo <= keys && h in todo && h in keys
    ensures all - (todo - {h}) == all - todo + {h} && all - (todo - {h}) <= keys
    ensures h !in all - todo
  {
  }

  lemma {:induction false} OneMoreBlock(blocks: seq<CasBlock>, located: set<Hash>, b: CasBlock)
    requires BlocksFor(blocks, located) && b.xorb !in located
    ensures BlocksFor(blocks + [b], located + {b.xorb})
  {
    var all := blocks + [b];
    forall h ensures h in located + {b.xorb} <==> exists i :: 0 <= i < |all| && all[i].xorb == h {
      if h in located {
        var i :| 0 <= i < |blocks| && blocks[i].xorb == h;
        assert all[i].xorb == h;
      }
      if h == b.xorb {
        assert all[|blocks|].xorb == h;
      }
      if i :| 0 <= i < |all| && all[i].xorb == h {
        assert i < |blocks| ==> blocks[i].xorb == h;
      }
    }
  }
}
