/**
 Which xorbs are accepted, what an accepted one changes, and why another is refused
 (crates/server/src/routes/xorb.rs, xorb_meta.rs), said of the uploaded bytes themselves.
 */
module XorbUploads {
  import opened Basics
  import opened XetCore
  import opened Frames
  import opened XorbMeta
  import opened Store
  import opened Registration

  // The body is complete chunk frames, at least one, that aggregate to the hash.
  predicate Aggregates(x: Xet, body: seq<Byte>, h: Hash) {
    Walk(x, body, 0).Ok? && |Walk(x, body, 0).value| > 0 && x.xorbHash(SizedOf(x, Walk(x, body, 0).value)) == h
  }

  // The library's full validation of the footer vouches for the body.
  predicate Vouched(x: Xet, body: seq<Byte>, h: Hash) {
    x.validateXorb(body, h).Some? && x.validateXorb(body, h).value.Some?
  }

  // The three kinds of body, whatever the library does. Without a readable footer the frames
  // decide. With one the library decides, and its metadata is taken; a legacy footer, which has
  // no unpacked offsets, is replaced by a walk, and only there can the answer be a server error.
  lemma {:induction false} FooterPolicy(x: Xet, body: seq<Byte>, h: Hash)
    ensures var r := ValidatedInfo(x, body, h);
      && (x.readFooter(body).None? ==>
            && (r.Ok? <==> Aggregates(x, body, h))
            && (r.Ok? ==> r.value == InfoOf(x, Walk(x, body, 0).value))
            && (r.Err? ==> r.error == Refused))
      && (x.readFooter(body).Some? && !Vouched(x, body, h) ==> r == Err(Refused))
      && (x.readFooter(body).Some? && Vouched(x, body, h) ==>
            var info := x.validateXorb(body, h).value.value;
            && (|info.unpackedOffsets| == info.numChunks ==> r == Ok(info))
            && (|info.unpackedOffsets| != info.numChunks ==>
                  r == if Walk(x, body, 0).Ok? then Ok(InfoOf(x, Walk(x, body, 0).value)) else Err(Corrupt)))
  {
    if Walk(x, body, 0).Ok? {
      WalkedIsGood(x, body);
      InfoRecoversSizes(x, Walk(x, body, 0).value);
      hide SizedFromInfo;
    }
  }

  // Reading stored bytes: a footer with offsets is taken as it stands, anything else is walked.
  lemma {:induction false} StoredPolicy(x: Xet, body: seq<Byte>)
    ensures x.readFooter(body).Some? && |x.readFooter(body).value.unpackedOffsets| == x.readFooter(body).value.numChunks ==>
      StoredInfo(x, body) == Ok(x.readFooter(body).value)
    ensures x.readFooter(body).None? || |x.readFooter(body).value.unpackedOffsets| != x.readFooter(body).value.numChunks ==>
      StoredInfo(x, body) == if Walk(x, body, 0).Ok? then Ok(InfoOf(x, Walk(x, body, 0).value)) else Err(Corrupt)
  {
    hide InfoOf;
  }

  lemma {:induction false} WalkedIsGood(x: Xet, body: seq<Byte>)
    requires Walk(x, body, 0).Ok?
    ensures AllWellFormed(x, Walk(x, body, 0).value)
  {
    var tail := WalkedIsPrinted(x, body, 0);
  }

  // A body is stored under a hash exactly if it is within the size allowance, the hash is new,
  // a footer the library can read validates, and the frames aggregate to the hash. If the library
  // keeps its promise about footers, no upload ends in a server error.
  lemma {:induction false} AcceptedXorbIff(x: Xet, st: State, h: Hash, body: seq<Byte>)
    requires FootersChecked(x)
    ensures AcceptsXorb(x, st, h, body) <==>
      && |body| <= x.maxXorbBytes + 4194304 && h !in st.xorbs
      && (x.readFooter(body).Some? ==> Vouched(x, body, h)) && Aggregates(x, body, h)
    ensures ValidatedInfo(x, body, h) != Err(Corrupt)
  {
    FooterPolicy(x, body, h);
    hide ValidatedInfo, InfoOf;
    InfoCounts(x, body);
  }

  lemma {:induction false} InfoCounts(x: Xet, body: seq<Byte>)
    ensures Walk(x, body, 0).Ok? ==> InfoOf(x, Walk(x, body, 0).value).numChunks == |Walk(x, body, 0).value|
  {
  }

  // With the standard limits the allowance is 68 MiB.
  lemma {:induction false} StandardAllowance(x: Xet, st: State, h: Hash, body: seq<Byte>)
    requires StandardLimits(x)
    ensures AcceptsXorb(x, st, h, body) ==> |body| <= 71303168
    ensures |body| > 71303168 ==> forall now :: PostXorb(x, st, h, body, now) == st
  {
    hide ValidatedInfo;
  }

  // Every table after an accepted upload, entry by entry; any other upload changes nothing.
  lemma {:induction false} UploadChanges(x: Xet, st: State, h: Hash, body: seq<Byte>, now: int)
    requires FootersChecked(x) && AcceptsXorb(x, st, h, body)
    ensures var next, fs := PostXorb(x, st, h, body, now), FramesOf(x, body);
      && next.shards == st.shards && next.fileIndex == st.fileIndex && next.claims == st.claims
      && (forall g :: g in next.xorbs <==> g in st.xorbs || g == h)
      && (forall g :: g in st.xorbs ==> next.xorbs[g] == st.xorbs[g])
      && next.xorbs[h] == Blob(body, now)
      && st.rows <= next.rows
      && (forall r :: r in next.rows <==>
            r in st.rows || (r.xorb == h && r.index < |fs| && r.chunk == x.dataHash(fs[r.index].raw)))
      && (forall g :: g in next.layouts <==> g in st.layouts || g == h)
      && (forall g :: g in st.layouts && g != h ==> next.layouts[g] == st.layouts[g])
      && next.layouts[h].numBytesOnDisk == |body| && |next.layouts[h].chunks| == |fs|
      && forall i :: 0 <= i < |fs| ==>
           next.layouts[h].chunks[i] == LayoutChunk(x.dataHash(fs[i].raw), |fs[i].raw|, |fs[i].payload|)
  {
    AcceptedIsSound(x, body, h);
    var fs := FramesOf(x, body);
    var entries := XorbRows(h, HashesOf(x, fs));
    BatchExtends(st.rows, entries);
    hide ValidatedInfo, FramesOf, LayoutOf, InfoOf, PutBatch, StoredInfo, FootersChecked, AllWellFormed;
    LayoutSize(x, fs, |body|);
    forall i | 0 <= i < |fs|
      ensures BodyLayout(x, body).chunks[i] == LayoutChunk(x.dataHash(fs[i].raw), |fs[i].raw|, |fs[i].payload|)
    {
      LayoutDescribesFrames(x, fs, |body|, i);
    }
    forall r ensures r in entries <==> r.xorb == h && r.index < |fs| && r.chunk == x.dataHash(fs[r.index].raw) {
      if r.xorb == h && r.index < |fs| && r.chunk == x.dataHash(fs[r.index].raw) {
        assert entries[r.index] == r;
      }
    }
  }

  lemma {:induction false} LayoutSize(x: Xet, fs: seq<Frame>, onDisk: nat)
    ensures LayoutOf(InfoOf(x, fs), onDisk).numBytesOnDisk == onDisk
    ensures |LayoutOf(InfoOf(x, fs), onDisk).chunks| == |fs|
  {
  }

  lemma {:induction false} RefusedChangesNothing(x: Xet, st: State, h: Hash, body: seq<Byte>, now: int)
    requires FootersChecked(x)
    requires |body| > x.maxXorbBytes + 4194304 || h in st.xorbs || !Aggregates(x, body, h)
      || (x.readFooter(body).Some? && !Vouched(x, body, h))
    ensures PostXorb(x, st, h, body, now) == st
  {
    AcceptedXorbIff(x, st, h, body);
    hide AcceptsXorb, Aggregates;
  }
}
