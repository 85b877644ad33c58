/**
 What the chunk index promises dedup queries: every chunk of every stored xorb is located,
 and its layout recorded, in every state a run can reach.
 */
module Discovery {
  import opened Basics
  import opened XetCore
  import opened XorbMeta
  import opened Store
  import opened Invariants
  import opened Collection

  ghost predicate XorbIndexed(x: Xet, st: State, h: Hash)
    requires h in st.xorbs
  {
    var fs := FramesOf(x, st.xorbs[h].bytes);
    && h in st.layouts
    && forall i :: 0 <= i < |fs| ==> Row(HashesOf(x, fs)[i], h, i) in st.rows
  }

  ghost predicate AllIndexed(x: Xet, st: State) {
    forall h :: h in st.xorbs ==> XorbIndexed(x, st, h)
  }

  // Rows and layouts of other xorbs survive whatever grows the tables.
  lemma {:induction false} IndexedKept(x: Xet, a: State, b: State, h: Hash)
    requires h in a.xorbs && XorbIndexed(x, a, h) && h in b.xorbs && b.xorbs[h].bytes == a.xorbs[h].bytes
    requires h in b.layouts && forall r :: r in a.rows && r.xorb == h ==> r in b.rows
    ensures XorbIndexed(x, b, h)
  {
  }

  lemma {:induction false} UploadKeepsIndexed(x: Xet, st: State, h: Hash, body: seq<Byte>, now: int)
    requires RowsDistinct(st.rows) && AllIndexed(x, st)
    ensures AllIndexed(x, PostXorb(x, st, h, body, now))
  {
    hide ValidatedInfo, BodyLayout, FramesOf;
    if AcceptsXorb(x, st, h, body) {
      var next := PostXorb(x, st, h, body, now);
      var entries := XorbRows(h, HashesOf(x, FramesOf(x, body)));
      PutBatchDistinct(st.rows, entries);
      forall g | g in next.xorbs ensures XorbIndexed(x, next, g) {
        if g == h {
          forall i | 0 <= i < |entries| ensures entries[i] in next.rows {
            assert entries[i] in entries;
          }
        } else {
          IndexedKept(x, st, next, g);
        }
      }
    }
  }

  lemma {:induction false} RegisterKeepsIndexed(x: Xet, st: State, owner: Owner, body: seq<Byte>, now: int)
    requires RowsDistinct(st.rows) && AllIndexed(x, st)
    ensures AllIndexed(x, Register(x, st, owner, body, now))
  {
    hide ValidFile, FramesOf;
    if ValidUpload(x, st.xorbs, body) {
      var next := Register(x, st, owner, body, now);
      PutBatchDistinct(st.rows, CasRows(x.parseShard(body).value.cas));
      forall g | g in next.xorbs ensures XorbIndexed(x, next, g) {
        IndexedKept(x, st, next, g);
      }
    }
  }

  lemma {:induction false} DeleteKeepsIndexed(x: Xet, st: State, caller: Caller, f: Hash)
    requires AllIndexed(x, st)
    ensures AllIndexed(x, Delete(st, caller, f))
  {
    hide FramesOf, Owners;
    var next := Delete(st, caller, f);
    forall g | g in next.xorbs ensures XorbIndexed(x, next, g) {
      IndexedKept(x, st, next, g);
    }
  }

  lemma {:induction false} GcKeepsIndexed(x: Xet, st: State, now: int, grace: int)
    requires AllIndexed(x, st)
    ensures AllIndexed(x, Gc(x, st, now, grace))
  {
    hide FramesOf, CorruptShard;
    if !Aborts(x, st) {
      var next := Gc(x, st, now, grace);
      forall g | g in next.xorbs ensures XorbIndexed(x, next, g) {
        GcKeepsIndex(x, st, now, grace, g);
        IndexedKept(x, st, next, g);
      }
    }
  }

  lemma {:induction false} GcKeepsIndex(x: Xet, st: State, now: int, grace: int, h: Hash)
    requires !Aborts(x, st) && h in Gc(x, st, now, grace).xorbs
    ensures var next := Gc(x, st, now, grace);
      && h in st.xorbs && next.xorbs[h] == st.xorbs[h]
      && (h in st.layouts ==> h in next.layouts)
      && forall r :: r in st.rows && r.xorb == h ==> r in next.rows
  {
    PassIsExact(x, st, now, grace);
    forall r | r in st.rows && r.xorb == h ensures r in Gc(x, st, now, grace).rows {
      RowsOfDeletedXorbsGo(x, st, now, grace, r);
    }
  }

  lemma {:induction false} StepKeepsIndexed(x: Xet, st: State, e: Event)
    requires Inv(x, st) && AllIndexed(x, st)
    ensures AllIndexed(x, Step(x, st, e))
  {
    match e {
      case UploadXorb(h, body, now) => UploadKeepsIndexed(x, st, h, body, now);
      case RegisterShard(owner, body, now) => RegisterKeepsIndexed(x, st, owner, body, now);
      case DeleteFile(caller, f) => DeleteKeepsIndexed(x, st, caller, f);
      case CollectGarbage(now, grace) => GcKeepsIndexed(x, st, now, grace);
    }
  }

  lemma {:induction false} RunKeepsIndexed(x: Xet, st: State, events: seq<Event>)
    requires Trusted(x) && Inv(x, st) && AllIndexed(x, st)
    ensures AllIndexed(x, Run(x, st, events))
    decreases |events|
  {
    hide Inv, Trusted, AllIndexed, Step;
    if events != [] {
      StepKeepsInv(x, st, events[0]);
      StepKeepsIndexed(x, st, events[0]);
      RunKeepsIndexed(x, Step(x, st, events[0]), events[1..]);
    }
  }

  lemma {:induction false} LocatedRow(rows: seq<Row>, r: Row)
    ensures r in Locations(rows, r.chunk) <==> r in rows
  {
    if rows != [] {
      var init, last := rows[..|rows| - 1], rows[|rows| - 1];
      LocatedRow(init, r);
      assert rows == init + [last];
    }
  }

  // After any run from the empty store, looking up any chunk of any stored xorb finds that
  // xorb, at the chunk's own position, and the xorb's recorded layout.
  lemma {:induction false} StoredChunksAreFound(x: Xet, events: seq<Event>, h: Hash, i: nat)
    requires Trusted(x)
    requires h in Run(x, EMPTY, events).xorbs && i < |FramesOf(x, Run(x, EMPTY, events).xorbs[h].bytes)|
    ensures var st := Run(x, EMPTY, events);
      var chunk := x.dataHash(FramesOf(x, st.xorbs[h].bytes)[i].raw);
      Row(chunk, h, i) in Locations(st.rows, chunk) && h in st.layouts
  {
    hide Run, FramesOf, Inv, Trusted;
    EmptyInv(x);
    RunKeepsIndexed(x, EMPTY, events);
    var st := Run(x, EMPTY, events);
    assert XorbIndexed(x, st, h);
    var fs := FramesOf(x, st.xorbs[h].bytes);
    assert Row(HashesOf(x, fs)[i], h, i) in st.rows;
    LocatedRow(st.rows, Row(x.dataHash(fs[i].raw), h, i));
  }
}
