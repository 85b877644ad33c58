/**
 Term coalescing in `build_plan` (crates/wasm/src/lib.rs): runs of chunks that lie next to
 each other in one xorb become one reconstruction term.
 */
module Terms {
  import opened Basics
  import opened XetCore
  import opened Packing

  type Spots = seq<Placement>

  function ChunkHashes(chunks: seq<Chunk>): (r: seq<Hash>)
    ensures |r| == |chunks| && forall i :: 0 <= i < |chunks| ==> r[i] == chunks[i].hash
  {
    seq(|chunks|, i requires 0 <= i < |chunks| => chunks[i].hash)
  }

  function ChunkLens(chunks: seq<Chunk>): (r: seq<nat>)
    ensures |r| == |chunks| && forall i :: 0 <= i < |chunks| ==> r[i] == |chunks[i].data|
  {
    seq(|chunks|, i requires 0 <= i < |chunks| => |chunks[i].data|)
  }

  predicate NonEmpty(t: Term) {
    t.start < t.end
  }

  predicate AllNonEmpty(entries: seq<Entry>) {
    forall k :: 0 <= k < |entries| ==> NonEmpty(entries[k].term)
  }

  // The placements a term stands for.
  function ExpandTerm(t: Term): (r: Spots)
    requires NonEmpty(t)
    ensures |r| == t.end - t.start
    ensures forall i :: 0 <= i < |r| ==> r[i] == Placement(t.xorb, t.start + i)
  {
    seq(t.end - t.start, i requires 0 <= i < t.end - t.start => Placement(t.xorb, t.start + i))
  }

  function Expand(entries: seq<Entry>): Spots
    requires AllNonEmpty(entries)
  {
    if entries == [] then []
    else Expand(entries[..|entries| - 1]) + ExpandTerm(entries[|entries| - 1].term)
  }

  function Counts(entries: seq<Entry>): (r: seq<nat>)
    requires AllNonEmpty(entries)
    ensures |r| == |entries| && forall k :: 0 <= k < |entries| ==> r[k] == entries[k].term.end - entries[k].term.start
  {
    seq(|entries|, k requires 0 <= k < |entries| => entries[k].term.end - entries[k].term.start)
  }

  // How many chunks the first k terms cover.
  function TermCut(entries: seq<Entry>, k: nat): nat
    requires AllNonEmpty(entries) && k <= |entries|
  {
    Sum(Counts(entries)[..k])
  }

  lemma {:induction false} ExpandLength(entries: seq<Entry>)
    requires AllNonEmpty(entries)
    ensures |Expand(entries)| == TermCut(entries, |entries|)
  {
    if entries != [] {
      var init := entries[..|entries| - 1];
      ExpandLength(init);
      assert Counts(entries)[..|init|] == Counts(init) == Counts(init)[..|init|];
      SumStep(Counts(entries), |init|);
    }
  }

  lemma {:induction false} ExpandSnoc(entries: seq<Entry>, e: Entry)
    requires AllNonEmpty(entries) && NonEmpty(e.term)
    ensures AllNonEmpty(entries + [e]) && Expand(entries + [e]) == Expand(entries) + ExpandTerm(e.term)
    ensures forall k :: 0 <= k <= |entries| ==> TermCut(entries + [e], k) == TermCut(entries, k)
    ensures TermCut(entries + [e], |entries| + 1) == |Expand(entries + [e])|
  {
    var all := entries + [e];
    assert all[..|entries|] == entries;
    forall k | 0 <= k <= |entries| ensures TermCut(all, k) == TermCut(entries, k) {
      assert Counts(all)[..k] == Counts(entries)[..k];
    }
    ExpandLength(all);
  }

  lemma {:induction false} ExpandCons(e: Entry, entries: seq<Entry>)
    requires AllNonEmpty(entries) && NonEmpty(e.term)
    ensures AllNonEmpty([e] + entries) && Expand([e] + entries) == ExpandTerm(e.term) + Expand(entries)
  {
    var all := [e] + entries;
    if entries == [] {
      assert all[..0] == [];
      assert all == [e];
    } else {
      var init, last := entries[..|entries| - 1], entries[|entries| - 1];
      assert all[..|all| - 1] == [e] + init && all[|all| - 1] == last;
      ExpandCons(e, init);
      hide ExpandTerm;
      ConcatAssociates(ExpandTerm(e.term), Expand(init), ExpandTerm(last.term));
    }
  }

  function ExpandParts(entries: seq<Entry>): (r: seq<Spots>)
    requires AllNonEmpty(entries)
    ensures |r| == |entries| && forall k :: 0 <= k < |entries| ==> r[k] == ExpandTerm(entries[k].term)
  {
    seq(|entries|, k requires 0 <= k < |entries| => ExpandTerm(entries[k].term))
  }

  lemma {:induction false} PartsInit(entries: seq<Entry>)
    requires AllNonEmpty(entries) && entries != []
    ensures AllNonEmpty(entries[..|entries| - 1])
    ensures ExpandParts(entries)[..|entries| - 1] == ExpandParts(entries[..|entries| - 1])
    ensures ExpandParts(entries)[|entries| - 1] == ExpandTerm(entries[|entries| - 1].term)
  {
    hide ExpandTerm;
  }

  lemma {:induction false} PartLengths(entries: seq<Entry>)
    requires AllNonEmpty(entries)
    ensures Lens(ExpandParts(entries)) == Counts(entries)
  {
  }

  lemma {:induction false} ExpandIsJoin(entries: seq<Entry>)
    requires AllNonEmpty(entries)
    ensures Expand(entries) == Join(ExpandParts(entries))
  {
    hide ExpandTerm, ExpandParts, AllNonEmpty;
    if entries != [] {
      PartsInit(entries);
      ExpandIsJoin(entries[..|entries| - 1]);
    }
  }

  lemma {:induction false} JoinOne<T>(parts: seq<seq<T>>, k: nat)
    requires k < |parts|
    ensures Join(parts[k..k + 1]) == parts[k]
  {
    assert parts[k..k + 1] == [] + [parts[k]];
    JoinSnoc([], parts[k]);
  }

  // Term k covers the placements between its two cuts.
  lemma {:induction false} ExpandSlice(entries: seq<Entry>, k: nat)
    requires AllNonEmpty(entries) && k < |entries|
    ensures TermCut(entries, k) + |ExpandTerm(entries[k].term)| == TermCut(entries, k + 1) <= |Expand(entries)|
    ensures Expand(entries)[TermCut(entries, k)..TermCut(entries, k + 1)] == ExpandTerm(entries[k].term)
  {
    var parts := ExpandParts(entries);
    ExpandIsJoin(entries);
    PartLengths(entries);
    SumStep(Counts(entries), k);
    hide ExpandTerm, Expand, Sum, Join, Lens;
    JoinSlice(parts, k, k + 1);
    JoinOne(parts, k);
  }

  /** The second term picks up in the same xorb exactly where the first one stops. */
  predicate Joinable(a: Term, b: Term) {
    a.xorb == b.xorb && a.end == b.start
  }

  ghost predicate Maximal(entries: seq<Entry>) {
    forall k :: 0 < k < |entries| ==> !Joinable(entries[k - 1].term, entries[k].term)
  }

  // ---- the run-length form is canonical ----

  lemma {:induction false} HeadOfExpansion(entries: seq<Entry>)
    requires AllNonEmpty(entries) && entries != []
    ensures AllNonEmpty(entries[1..]) && Expand(entries) == ExpandTerm(entries[0].term) + Expand(entries[1..])
  {
    assert [entries[0]] + entries[1..] == entries;
    ExpandCons(entries[0], entries[1..]);
  }

  // Right after the first term of a maximal list comes something the term does not continue with.
  lemma {:induction false} SecondTerm(a: seq<Entry>)
    requires AllNonEmpty(a) && a != [] && Maximal(a)
    ensures var t := a[0].term; var n := t.end - t.start;
      n <= |Expand(a)| && (n < |Expand(a)| ==> Expand(a)[n] != Placement(t.xorb, t.end))
  {
    HeadOfExpansion(a);
    if |a| > 1 {
      HeadOfExpansion(a[1..]);
      var v := a[1].term;
      assert Expand(a[1..])[0] == ExpandTerm(v)[0] == Placement(v.xorb, v.start);
      assert !Joinable(a[0].term, v);
    }
  }

  // A first term cannot stop short of where another list's first term goes on.
  lemma {:induction false} FirstTermIsLongest(a: seq<Entry>, b: seq<Entry>)
    requires AllNonEmpty(a) && AllNonEmpty(b) && a != [] && b != []
    requires Maximal(a) && Expand(a) == Expand(b)
    ensures a[0].term.xorb == b[0].term.xorb && a[0].term.start == b[0].term.start
    ensures b[0].term.end <= a[0].term.end
  {
    hide Expand, Maximal;
    HeadOfExpansion(a);
    HeadOfExpansion(b);
    var t, u, spots := a[0].term, b[0].term, Expand(a);
    assert spots[0] == ExpandTerm(t)[0] == ExpandTerm(u)[0];
    var n := t.end - t.start;
    if n < u.end - u.start {
      assert spots[n] == ExpandTerm(u)[n] == Placement(t.xorb, t.end);
      SecondTerm(a);
    }
  }

  predicate SameRange(a: Term, b: Term) {
    a.xorb == b.xorb && a.start == b.start && a.end == b.end
  }

  lemma {:induction false} SameTails(a: seq<Entry>, b: seq<Entry>)
    requires AllNonEmpty(a) && AllNonEmpty(b) && a != [] && b != []
    requires Expand(a) == Expand(b) && SameRange(a[0].term, b[0].term)
    ensures AllNonEmpty(a[1..]) && AllNonEmpty(b[1..]) && Expand(a[1..]) == Expand(b[1..])
  {
    hide Expand;
    HeadOfExpansion(a);
    HeadOfExpansion(b);
    var head := ExpandTerm(a[0].term);
    assert head == ExpandTerm(b[0].term);
    assert (head + Expand(a[1..]))[|head|..] == Expand(a[1..]);
    assert (head + Expand(b[1..]))[|head|..] == Expand(b[1..]);
  }

  lemma {:induction false} EmptyExpansion(a: seq<Entry>)
    requires AllNonEmpty(a) && a != []
    ensures Expand(a) != []
  {
    hide Expand;
    HeadOfExpansion(a);
  }

  lemma {:induction false} SameRangesCons(a: seq<Entry>, b: seq<Entry>)
    requires a != [] && b != [] && SameRange(a[0].term, b[0].term) && |a| == |b|
    requires forall k :: 0 <= k < |a[1..]| ==> SameRange(a[1..][k].term, b[1..][k].term)
    ensures forall k :: 0 <= k < |a| ==> SameRange(a[k].term, b[k].term)
  {
    forall k | 0 <= k < |a| ensures SameRange(a[k].term, b[k].term) {
      if k > 0 {
        assert a[k] == a[1..][k - 1] && b[k] == b[1..][k - 1];
      }
    }
  }

  lemma {:induction false} MaximalTail(a: seq<Entry>)
    requires Maximal(a) && a != []
    ensures Maximal(a[1..])
  {
    forall k | 0 < k < |a[1..]| ensures !Joinable(a[1..][k - 1].term, a[1..][k].term) {
      assert a[1..][k - 1] == a[k] && a[1..][k] == a[k + 1];
    }
  }

  // Losslessness and maximality fix the chunk ranges: any two such lists agree.
  lemma {:induction false} CoalescingIsCanonical(a: seq<Entry>, b: seq<Entry>)
    requires AllNonEmpty(a) && AllNonEmpty(b) && Maximal(a) && Maximal(b)
    requires Expand(a) == Expand(b)
    ensures |a| == |b|
    ensures forall k :: 0 <= k < |a| ==> SameRange(a[k].term, b[k].term)
  {
    hide Maximal, AllNonEmpty, Expand;
    if a != [] && b != [] {
      FirstTermIsLongest(a, b);
      FirstTermIsLongest(b, a);
      SameTails(a, b);
      MaximalTail(a);
      MaximalTail(b);
      CoalescingIsCanonical(a[1..], b[1..]);
      SameRangesCons(a, b);
    } else if a != [] {
      EmptyExpansion(a);
      NothingExpands();
    } else if b != [] {
      EmptyExpansion(b);
      NothingExpands();
    }
  }

  lemma {:induction false} NothingExpands()
    ensures Expand([]) == []
  {
  }

  // ---- the xorbs a term list refers to ----

  predicate RefersTo(entries: seq<Entry>, h: Hash) {
    exists k :: 0 <= k < |entries| && entries[k].term.xorb == h
  }

  lemma {:induction false} SpotsAreReferred(entries: seq<Entry>, i: nat)
    requires AllNonEmpty(entries) && i < |Expand(entries)|
    ensures RefersTo(entries, Expand(entries)[i].xorb)
  {
    var last := |entries| - 1;
    var init := entries[..last];
    if i < |Expand(init)| {
      SpotsAreReferred(init, i);
      var k :| 0 <= k < |init| && init[k].term.xorb == Expand(init)[i].xorb;
      assert entries[k].term.xorb == Expand(entries)[i].xorb;
    } else {
      assert entries[last].term.xorb == Expand(entries)[i].xorb;
    }
  }

  lemma {:induction false} TermHasSpot(entries: seq<Entry>, k: nat)
    requires AllNonEmpty(entries) && k < |entries|
    ensures exists i :: 0 <= i < |Expand(entries)| && Expand(entries)[i].xorb == entries[k].term.xorb
  {
    var last := |entries| - 1;
    var init, all := entries[..last], Expand(entries);
    if k < last {
      TermHasSpot(init, k);
      var i :| 0 <= i < |Expand(init)| && Expand(init)[i].xorb == init[k].term.xorb;
      assert all[i] == Expand(init)[i];
    } else {
      assert NonEmpty(entries[last].term);
      assert all[|Expand(init)|] == ExpandTerm(entries[last].term)[0];
    }
  }

  // ---- the loop ----

  // The term carries the wrapped byte count and the verification hash of chunks a..b.
  predicate Describes(x: Xet, chunks: seq<Chunk>, e: Entry, a: nat, b: nat)
    requires a <= b <= |chunks|
  {
    && e.term.unpacked == Wrap(Sum(ChunkLens(chunks)[a..b]))
    && e.check == x.rangeHash(ChunkHashes(chunks)[a..b])
  }

  predicate DescribedAt(x: Xet, chunks: seq<Chunk>, entries: seq<Entry>, k: nat)
    requires AllNonEmpty(entries) && k < |entries|
  {
    && TermCut(entries, k) <= TermCut(entries, k + 1) <= |chunks|
    && Describes(x, chunks, entries[k], TermCut(entries, k), TermCut(entries, k + 1))
  }

  ghost predicate DescribesAll(x: Xet, chunks: seq<Chunk>, entries: seq<Entry>) {
    && AllNonEmpty(entries)
    && forall k :: 0 <= k < |entries| ==> DescribedAt(x, chunks, entries, k)
  }

  ghost predicate Coalesced(x: Xet, chunks: seq<Chunk>, spots: Spots, entries: seq<Entry>, t: nat) {
    && t <= |spots| == |chunks|
    && AllNonEmpty(entries) && Expand(entries) == spots[..t]
    && Maximal(entries) && DescribesAll(x, chunks, entries)
    && (t < |spots| && entries != [] ==>
          var last := entries[|entries| - 1].term; spots[t] != Placement(last.xorb, last.end))
  }

  // From t on, chunks up to end continue the run; the chunk at end does not.
  predicate Consecutive(spots: Spots, t: nat, end: nat) {
    && t < end <= |spots|
    && forall k :: t <= k < end ==> spots[k] == Placement(spots[t].xorb, spots[t].index + (k - t))
  }

  predicate RunStops(spots: Spots, t: nat, end: nat)
    requires t < |spots| && t <= end
  {
    end < |spots| ==> spots[end] != Placement(spots[t].xorb, spots[t].index + (end - t))
  }

  method RunEnd(spots: Spots, t: nat) returns (end: nat)
    requires t < |spots|
    ensures Consecutive(spots, t, end) && RunStops(spots, t, end)
  {
    var xorb, startIdx := spots[t].xorb, spots[t].index;
    end := t + 1;
    var expectedIdx := startIdx + 1;
    while end < |spots| && spots[end].xorb == xorb && spots[end].index == expectedIdx
      invariant Consecutive(spots, t, end) && expectedIdx == startIdx + (end - t)
    {
      expectedIdx := expectedIdx + 1;
      end := end + 1;
    }
  }

  method SumWrapped(lens: seq<nat>) returns (total: nat)
    ensures total == Wrap(Sum(lens))
  {
    total := 0;
    for i := 0 to |lens|
      invariant total == Wrap(Sum(lens[..i]))
    {
      SumStep(lens, i);
      assert Add32(Wrap(Sum(lens[..i])), lens[i]) == Wrap(Sum(lens[..i]) + lens[i]);
      total := Add32(total, lens[i]);
    }
    assert lens[..|lens|] == lens;
  }

  // What the new term adds to the expansion.
  lemma {:induction false} RunExpands(spots: Spots, t: nat, end: nat, term: Term)
    requires Consecutive(spots, t, end)
    requires term.xorb == spots[t].xorb && term.start == spots[t].index && term.end == spots[end - 1].index + 1
    ensures NonEmpty(term) && ExpandTerm(term) == spots[t..end] && term.end == spots[t].index + (end - t)
  {
    assert spots[end - 1] == Placement(spots[t].xorb, spots[t].index + (end - 1 - t));
  }

  lemma {:induction false} DescribedSnoc(x: Xet, chunks: seq<Chunk>, entries: seq<Entry>, e: Entry, end: nat)
    requires DescribesAll(x, chunks, entries) && NonEmpty(e.term)
    requires |Expand(entries)| <= end == |Expand(entries + [e])| <= |chunks|
    requires Describes(x, chunks, e, |Expand(entries)|, end)
    ensures DescribesAll(x, chunks, entries + [e])
  {
    ExpandSnoc(entries, e);
    ExpandLength(entries);
    var all := entries + [e];
    forall k | 0 <= k < |all| ensures DescribedAt(x, chunks, all, k) {
      if k < |entries| {
        assert DescribedAt(x, chunks, entries, k);
      }
    }
  }

  lemma {:induction false} AddTerm(x: Xet, chunks: seq<Chunk>, spots: Spots, entries: seq<Entry>, t: nat, end: nat, e: Entry)
    requires Coalesced(x, chunks, spots, entries, t) && t < |spots|
    requires Consecutive(spots, t, end) && RunStops(spots, t, end)
    requires e.term.xorb == spots[t].xorb && e.term.start == spots[t].index && e.term.end == spots[end - 1].index + 1
    requires |chunks| == |spots| && Describes(x, chunks, e, t, end)
    ensures Coalesced(x, chunks, spots, entries + [e], end)
  {
    hide Describes, DescribesAll;
    RunExpands(spots, t, end, e.term);
    ExpandSnoc(entries, e);
    assert spots[..end] == spots[..t] + spots[t..end];
    DescribedSnoc(x, chunks, entries, e, end);
  }

  method Coalesce(x: Xet, chunks: seq<Chunk>, spots: Spots) returns (entries: seq<Entry>)
    requires |spots| == |chunks|
    ensures AllNonEmpty(entries) && Expand(entries) == spots
    ensures Maximal(entries) && DescribesAll(x, chunks, entries)
  {
    entries := [];
    var t := 0;
    while t < |spots|
      invariant Coalesced(x, chunks, spots, entries, t)
    {
      hide Coalesced;
      var end := RunEnd(spots, t);
      var unpacked := SumWrapped(ChunkLens(chunks)[t..end]);
      var e := Entry(
        Term(spots[t].xorb, unpacked, spots[t].index, spots[end - 1].index + 1),
        x.rangeHash(ChunkHashes(chunks)[t..end]));
      AddTerm(x, chunks, spots, entries, t, end, e);
      entries := entries + [e];
      t := end;
    }
    assert spots[..t] == spots;
  }
}
