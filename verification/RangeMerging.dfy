/**
 `merged_chunk_ranges_per_xorb` (crates/server/src/routes/reconstruction.rs): per xorb, the
 terms' chunk ranges collapse into a minimal list. The list is a canonical form.
 */
module RangeMerging {
  import opened Basics
  import opened XetCore

  datatype ChunkRange = ChunkRange(start: nat, end: nat)

  type Ranges = seq<ChunkRange>

  predicate Holds(r: ChunkRange, p: nat) {
    r.start <= p < r.end
  }

  // Chunk p is requested by some range.
  ghost predicate Covers(rs: Ranges, p: nat) {
    exists i :: 0 <= i < |rs| && Holds(rs[i], p)
  }

  // Registration refuses empty and inverted terms (crates/server/src/routes/shard.rs:130).
  predicate Proper(rs: Ranges) {
    forall i :: 0 <= i < |rs| ==> rs[i].start < rs[i].end
  }

  /** Sorted, and neither overlapping nor adjacent. */
  predicate Separated(rs: Ranges) {
    forall i, j :: 0 <= i < j < |rs| ==> rs[i].start <= rs[j].start && rs[i].end < rs[j].start
  }

  predicate Canonical(rs: Ranges) {
    Proper(rs) && Separated(rs)
  }

  // ---- sort_by_key(|r| (r.start, r.end)) ----

  predicate Precedes(a: ChunkRange, b: ChunkRange) {
    a.start < b.start || (a.start == b.start && a.end <= b.end)
  }

  predicate Sorted(rs: Ranges) {
    forall i, j :: 0 <= i < j < |rs| ==> Precedes(rs[i], rs[j])
  }

  function Insert(r: ChunkRange, rs: Ranges): (out: Ranges)
    requires Sorted(rs)
    ensures Sorted(out) && multiset(out) == multiset(rs) + multiset{r}
  {
    if rs == [] then [r]
    else if Precedes(r, rs[0]) then
      assert forall i :: 0 <= i < |rs| ==> Precedes(r, rs[i]);
      [r] + rs
    else
      var out := Insert(r, rs[1..]);
      assert rs == [rs[0]] + rs[1..];
      InsertMembers(r, rs[1..], out, rs[0]);
      [rs[0]] + out
  }

  lemma {:induction false} InsertMembers(r: ChunkRange, rs: Ranges, out: Ranges, head: ChunkRange)
    requires multiset(out) == multiset(rs) + multiset{r}
    requires Precedes(head, r) && forall i :: 0 <= i < |rs| ==> Precedes(head, rs[i])
    ensures forall i :: 0 <= i < |out| ==> Precedes(head, out[i])
  {
    forall i | 0 <= i < |out| ensures Precedes(head, out[i]) {
      assert out[i] in multiset(out);
      assert out[i] in multiset(rs) || out[i] == r;
    }
  }

  function Sort(rs: Ranges): (out: Ranges)
    ensures Sorted(out) && multiset(out) == multiset(rs)
  {
    if rs == [] then []
    else
      assert rs == rs[..|rs| - 1] + [rs[|rs| - 1]];
      Insert(rs[|rs| - 1], Sort(rs[..|rs| - 1]))
  }

  lemma {:induction false} SortKeepsMembers(rs: Ranges)
    ensures forall r :: r in Sort(rs) <==> r in rs
    ensures Proper(rs) ==> Proper(Sort(rs))
    ensures forall p :: Covers(rs, p) <==> Covers(Sort(rs), p)
  {
    var out := Sort(rs);
    forall r ensures r in out <==> r in rs {
      assert r in out <==> r in multiset(out);
      assert r in rs <==> r in multiset(rs);
    }
    if Proper(rs) {
      forall i | 0 <= i < |out| ensures out[i].start < out[i].end {
        assert out[i] in rs;
      }
    }
    SameMembersCover(rs, out);
  }

  lemma {:induction false} SameMembersCover(a: Ranges, b: Ranges)
    requires forall r :: r in a <==> r in b
    ensures forall p :: Covers(a, p) <==> Covers(b, p)
  {
    forall p ensures Covers(a, p) <==> Covers(b, p) {
      if Covers(a, p) {
        var i :| 0 <= i < |a| && Holds(a[i], p);
        assert a[i] in b;
      }
      if Covers(b, p) {
        var i :| 0 <= i < |b| && Holds(b[i], p);
        assert b[i] in a;
      }
    }
  }

  // ---- the merging loop ----

  // One turn: stretch the last range, or open a new one.
  function MergeNext(merged: Ranges, range: ChunkRange): Ranges {
    if merged != [] && range.start <= merged[|merged| - 1].end then
      var last := merged[|merged| - 1];
      merged[|merged| - 1 := ChunkRange(last.start, Max(last.end, range.end))]
    else merged + [range]
  }

  function Merge(ranges: Ranges): Ranges {
    if ranges == [] then [] else MergeNext(Merge(ranges[..|ranges| - 1]), ranges[|ranges| - 1])
  }

  method MergeSorted(ranges: Ranges) returns (merged: Ranges)
    ensures merged == Merge(ranges)
  {
    merged := [];
    for i := 0 to |ranges|
      invariant merged == Merge(ranges[..i])
    {
      var range := ranges[i];
      assert ranges[..i + 1][..i] == ranges[..i];
      if merged != [] && range.start <= merged[|merged| - 1].end {
        var last := merged[|merged| - 1];
        merged := merged[|merged| - 1 := ChunkRange(last.start, Max(last.end, range.end))];
      } else {
        merged := merged + [range];
      }
    }
    assert ranges[..|ranges|] == ranges;
  }

  predicate Within(r: ChunkRange, m: ChunkRange) {
    m.start <= r.start && r.end <= m.end
  }

  ghost predicate HasHome(merged: Ranges, r: ChunkRange) {
    exists i :: 0 <= i < |merged| && Within(r, merged[i])
  }

  ghost predicate SameChunks(a: Ranges, b: Ranges) {
    forall p :: Covers(a, p) <==> Covers(b, p)
  }

  // What the loop keeps: separated so far, same chunks, every range inside one of them, and
  // the open one starts no later than the range read last.
  ghost predicate MergedOf(ranges: Ranges, merged: Ranges) {
    && Separated(merged) && (Proper(ranges) ==> Proper(merged))
    && SameChunks(merged, ranges)
    && (forall i :: 0 <= i < |ranges| ==> HasHome(merged, ranges[i]))
    && (merged != [] ==> ranges != [] && merged[|merged| - 1].start <= ranges[|ranges| - 1].start)
  }

  lemma {:induction false} MergeNextSeparated(merged: Ranges, range: ChunkRange)
    requires Separated(merged)
    requires merged != [] ==> merged[|merged| - 1].start <= range.start
    ensures Separated(MergeNext(merged, range))
    ensures Proper(merged) && range.start < range.end ==> Proper(MergeNext(merged, range))
    ensures var next := MergeNext(merged, range); next != [] && next[|next| - 1].start <= range.start
  {
  }

  lemma {:induction false} MergeNextHomes(merged: Ranges, range: ChunkRange, r: ChunkRange)
    requires merged != [] ==> merged[|merged| - 1].start <= range.start
    ensures HasHome(MergeNext(merged, range), range)
    ensures HasHome(merged, r) ==> HasHome(MergeNext(merged, range), r)
  {
    var next := MergeNext(merged, range);
    assert Within(range, next[|next| - 1]);
    if HasHome(merged, r) {
      var i :| 0 <= i < |merged| && Within(r, merged[i]);
      assert Within(r, next[i]);
    }
  }

  lemma {:induction false} MergeNextCovers(merged: Ranges, range: ChunkRange, p: nat)
    requires merged != [] ==> merged[|merged| - 1].start <= range.start
    ensures Covers(MergeNext(merged, range), p) <==> Covers(merged, p) || Holds(range, p)
  {
    var next, n := MergeNext(merged, range), |merged|;
    if Covers(next, p) {
      var i :| 0 <= i < |next| && Holds(next[i], p);
      if i < n && Holds(merged[i], p) {
        assert Covers(merged, p);
      }
    }
    if Covers(merged, p) {
      var i :| 0 <= i < n && Holds(merged[i], p);
      assert Holds(next[i], p);
    }
    if Holds(range, p) {
      assert Holds(next[|next| - 1], p);
    }
  }

  lemma {:induction false} CoversSnoc(ranges: Ranges, range: ChunkRange, p: nat)
    ensures Covers(ranges + [range], p) <==> Covers(ranges, p) || Holds(range, p)
  {
    var all := ranges + [range];
    if Covers(ranges, p) {
      var i :| 0 <= i < |ranges| && Holds(ranges[i], p);
      assert Holds(all[i], p);
    }
    if Holds(range, p) {
      assert Holds(all[|ranges|], p);
    }
  }

  lemma {:induction false} MergeTurn(ranges: Ranges, merged: Ranges, range: ChunkRange)
    requires MergedOf(ranges, merged)
    requires ranges != [] ==> Precedes(ranges[|ranges| - 1], range)
    ensures MergedOf(ranges + [range], MergeNext(merged, range))
  {
    var all, next := ranges + [range], MergeNext(merged, range);
    MergeNextSeparated(merged, range);
    forall i | 0 <= i < |ranges| && Proper(all) ensures ranges[i].start < ranges[i].end {
      assert all[i] == ranges[i];
    }
    assert all[|ranges|] == range;
    forall p ensures Covers(next, p) <==> Covers(all, p) {
      MergeNextCovers(merged, range, p);
      CoversSnoc(ranges, range, p);
    }
    forall i | 0 <= i < |all| ensures HasHome(next, all[i]) {
      MergeNextHomes(merged, range, all[i]);
    }
    hide Covers, MergeNext, HasHome, Separated;
  }

  lemma {:induction false} MergeKeeps(ranges: Ranges)
    requires Sorted(ranges)
    ensures MergedOf(ranges, Merge(ranges))
  {
    if ranges == [] {
      assert MergedOf([], []);
    } else {
      hide MergedOf, MergeNext;
      var init, last := ranges[..|ranges| - 1], ranges[|ranges| - 1];
      MergeKeeps(init);
      assert ranges == init + [last];
      MergeTurn(init, Merge(init), last);
    }
  }

  // ---- canonical form ----

  lemma {:induction false} FirstPoint(a: Ranges, b: Ranges)
    requires Canonical(a) && Canonical(b) && a != [] && b != []
    requires SameChunks(a, b)
    ensures b[0].start <= a[0].start
    ensures a[0].start == b[0].start ==> b[0].end <= a[0].end
  {
    assert Holds(a[0], a[0].start);
    assert Covers(a, a[0].start);
    var i :| 0 <= i < |b| && Holds(b[i], a[0].start);
    assert b[0].start <= b[i].start;
    if a[0].start == b[0].start && a[0].end < b[0].end {
      assert Holds(b[0], a[0].end) && Covers(b, a[0].end);
      JustPastFirst(a);
    }
  }

  lemma {:induction false} JustPastFirst(a: Ranges)
    requires Canonical(a) && a != []
    ensures !Covers(a, a[0].end)
  {
    forall j | 0 <= j < |a| ensures !Holds(a[j], a[0].end) {
      assert j == 0 || a[0].end < a[j].start;
    }
  }

  lemma {:induction false} TailPoints(a: Ranges, p: nat)
    requires Canonical(a) && a != []
    ensures Covers(a[1..], p) <==> Covers(a, p) && p >= a[0].end
  {
    if Covers(a, p) && p >= a[0].end {
      var i :| 0 <= i < |a| && Holds(a[i], p);
      assert a[1..][i - 1] == a[i];
    }
    if Covers(a[1..], p) {
      var i :| 0 <= i < |a[1..]| && Holds(a[1..][i], p);
      assert Holds(a[i + 1], p);
    }
  }

  lemma {:induction false} HeadPoint(a: Ranges)
    requires Canonical(a) && a != []
    ensures Covers(a, a[0].start) && Canonical(a[1..])
  {
    assert Holds(a[0], a[0].start);
  }

  lemma {:induction false} NoPoints(p: nat)
    ensures !Covers([], p)
  {
  }

  lemma {:induction false} SameTails(a: Ranges, b: Ranges)
    requires Canonical(a) && Canonical(b) && a != [] && b != [] && SameChunks(a, b) && a[0] == b[0]
    ensures SameChunks(a[1..], b[1..])
  {
    hide Covers, Canonical;
    forall p ensures Covers(a[1..], p) <==> Covers(b[1..], p) {
      TailPoints(a, p);
      TailPoints(b, p);
    }
  }

  // Two canonical lists that request the same chunks are the same list.
  lemma {:induction false} CanonicalIsUnique(a: Ranges, b: Ranges)
    requires Canonical(a) && Canonical(b)
    requires SameChunks(a, b)
    ensures a == b
  {
    hide Covers, Canonical;
    if a != [] {
      HeadPoint(a);
      NoPoints(a[0].start);
    }
    if b != [] {
      HeadPoint(b);
      NoPoints(b[0].start);
    }
    if a != [] && b != [] {
      FirstPoint(a, b);
      FirstPoint(b, a);
      SameTails(a, b);
      CanonicalIsUnique(a[1..], b[1..]);
      assert a == [a[0]] + a[1..] && b == [b[0]] + b[1..];
    }
  }

  /** What the server answers for one xorb. */
  function MergedRanges(ranges: Ranges): Ranges {
    Merge(Sort(ranges))
  }

  // For all ranges: sorted and pairwise non-touching, the same chunks, and each requested
  // range inside a merged range, only one if it is not empty.
  lemma {:induction false} MergedKeepsChunks(ranges: Ranges)
    ensures Separated(MergedRanges(ranges)) && SameChunks(MergedRanges(ranges), ranges)
    ensures forall r :: r in ranges ==> HasHome(MergedRanges(ranges), r)
    ensures forall r, i, j :: r in ranges && r.start < r.end && 0 <= i < j < |MergedRanges(ranges)| ==>
      !(Within(r, MergedRanges(ranges)[i]) && Within(r, MergedRanges(ranges)[j]))
  {
    SortKeepsMembers(ranges);
    MergeKeeps(Sort(ranges));
    hide Sort, Merge;
    var merged := MergedRanges(ranges);
    forall r | r in ranges ensures HasHome(merged, r) {
      assert r in Sort(ranges);
    }
  }

  // Without empty ranges the answer is canonical.
  lemma {:induction false} MergedIsCanonical(ranges: Ranges)
    requires Proper(ranges)
    ensures Canonical(MergedRanges(ranges))
  {
    SortKeepsMembers(ranges);
    MergeKeeps(Sort(ranges));
    hide Sort, Merge;
  }

  // An empty range away from all others is kept: it has the chunks of the empty list, but
  // another answer. Registration keeps such ranges out.
  lemma {:induction false} EmptyRangeIsKept(n: nat)
    ensures MergedRanges([ChunkRange(n, n)]) == [ChunkRange(n, n)] && MergedRanges([]) == []
    ensures SameChunks([ChunkRange(n, n)], [])
  {
    var one := [ChunkRange(n, n)];
    assert one[..|one| - 1] == [] && Sort([]) == [] && Merge([]) == [];
    assert Sort(one) == one;
    assert Merge(one) == MergeNext([], one[0]) == one;
  }

  // The answer depends on the union of the requested chunks alone: not on the order of the
  // terms, not on repeats, not on how the union was cut.
  lemma {:induction false} MergedDependsOnUnion(a: Ranges, b: Ranges)
    requires Proper(a) && Proper(b)
    ensures MergedRanges(a) == MergedRanges(b) <==> SameChunks(a, b)
  {
    MergedIsCanonical(a);
    MergedIsCanonical(b);
    MergedKeepsChunks(a);
    MergedKeepsChunks(b);
    if SameChunks(a, b) {
      CanonicalIsUnique(MergedRanges(a), MergedRanges(b));
    }
  }

  // ---- all xorbs of a term list ----

  function RangesOf(terms: seq<Term>, xorb: Hash): Ranges {
    if terms == [] then []
    else
      var last := terms[|terms| - 1];
      RangesOf(terms[..|terms| - 1], xorb) + (if last.xorb == xorb then [ChunkRange(last.start, last.end)] else [])
  }

  predicate Mentions(terms: seq<Term>, xorb: Hash) {
    exists i :: 0 <= i < |terms| && terms[i].xorb == xorb
  }

  lemma {:induction false} RangesOfMembers(terms: seq<Term>, xorb: Hash, r: ChunkRange)
    ensures r in RangesOf(terms, xorb) <==>
      exists i :: 0 <= i < |terms| && terms[i].xorb == xorb && r == ChunkRange(terms[i].start, terms[i].end)
  {
    if terms != [] {
      var init, last := terms[..|terms| - 1], terms[|terms| - 1];
      RangesOfMembers(init, xorb, r);
      if r in RangesOf(init, xorb) {
        var i :| 0 <= i < |init| && init[i].xorb == xorb && r == ChunkRange(init[i].start, init[i].end);
        assert terms[i] == init[i];
      }
      if exists i :: 0 <= i < |terms| && terms[i].xorb == xorb && r == ChunkRange(terms[i].start, terms[i].end) {
        var i :| 0 <= i < |terms| && terms[i].xorb == xorb && r == ChunkRange(terms[i].start, terms[i].end);
        if i < |init| {
          assert init[i] == terms[i];
        }
      }
    }
  }

  // The xorbs of a term list in the order they first occur.
  function FirstSeen(terms: seq<Term>): seq<Hash> {
    if terms == [] then []
    else
      var init, h := FirstSeen(terms[..|terms| - 1]), terms[|terms| - 1].xorb;
      if h in init then init else init + [h]
  }

  lemma {:induction false} FirstSeenMembers(terms: seq<Term>, h: Hash)
    ensures h in FirstSeen(terms) <==> Mentions(terms, h)
  {
    if terms != [] {
      var init, last := terms[..|terms| - 1], terms[|terms| - 1];
      FirstSeenMembers(init, h);
      if Mentions(init, h) {
        var k :| 0 <= k < |init| && init[k].xorb == h;
        assert terms[k].xorb == h;
      }
      if Mentions(terms, h) && last.xorb != h {
        var k :| 0 <= k < |terms| && terms[k].xorb == h;
        assert init[k].xorb == h;
      }
    }
  }

  // The map and the first-seen order after i terms.
  ghost predicate Grouped(terms: seq<Term>, order: seq<Hash>, grouped: map<Hash, Ranges>) {
    && order == FirstSeen(terms)
    && (forall h :: h in grouped <==> h in order)
    && (forall h :: h in grouped ==> grouped[h] == RangesOf(terms, h))
  }

  lemma {:induction false} GroupTurn(terms: seq<Term>, order: seq<Hash>, grouped: map<Hash, Ranges>, t: Term)
    requires Grouped(terms, order, grouped)
    ensures var range := ChunkRange(t.start, t.end);
      && (t.xorb in grouped ==> Grouped(terms + [t], order, grouped[t.xorb := grouped[t.xorb] + [range]]))
      && (t.xorb !in grouped ==> Grouped(terms + [t], order + [t.xorb], grouped[t.xorb := [range]]))
  {
    var all := terms + [t];
    assert all[..|terms|] == terms;
    FirstSeenMembers(terms, t.xorb);
    if t.xorb !in grouped && RangesOf(terms, t.xorb) != [] {
      RangesOfMembers(terms, t.xorb, RangesOf(terms, t.xorb)[0]);
    }
  }

  lemma {:induction false} GroupingHolds(terms: seq<Term>, order: seq<Hash>, grouped: map<Hash, Ranges>)
    requires Grouped(terms, order, grouped)
    ensures order == FirstSeen(terms)
    ensures forall k :: 0 <= k < |order| ==> order[k] in grouped && grouped[order[k]] == RangesOf(terms, order[k])
  {
    forall k | 0 <= k < |order| ensures order[k] in grouped && grouped[order[k]] == RangesOf(terms, order[k]) {
      var h := order[k];
      assert h in order;
      assert h in grouped;
      assert grouped[h] == RangesOf(terms, h);
    }
  }

  // What the grouping answers: one pair per xorb, in first-seen order.
  function PerXorb(terms: seq<Term>): (r: seq<(Hash, Ranges)>)
    ensures |r| == |FirstSeen(terms)|
    ensures forall k :: 0 <= k < |r| ==> r[k] == (FirstSeen(terms)[k], MergedRanges(RangesOf(terms, FirstSeen(terms)[k])))
  {
    var order := FirstSeen(terms);
    seq(|order|, k requires 0 <= k < |order| => (order[k], MergedRanges(RangesOf(terms, order[k]))))
  }

  // Grouping by xorb in a map, then sorting and merging each group.
  method MergedChunkRangesPerXorb(terms: seq<Term>) returns (perXorb: seq<(Hash, Ranges)>)
    ensures perXorb == PerXorb(terms)
  {
    var order: seq<Hash>, grouped: map<Hash, Ranges> := [], map[];
    assert Grouped([], order, grouped);
    for i := 0 to |terms|
      invariant Grouped(terms[..i], order, grouped)
    {
      var t := terms[i];
      GroupTurn(terms[..i], order, grouped, t);
      assert terms[..i + 1] == terms[..i] + [t];
      hide *;
      if t.xorb !in grouped {
        order := order + [t.xorb];
        grouped := grouped[t.xorb := [ChunkRange(t.start, t.end)]];
      } else {
        grouped := grouped[t.xorb := grouped[t.xorb] + [ChunkRange(t.start, t.end)]];
      }
    }
    assert terms[..|terms|] == terms;
    GroupingHolds(terms, order, grouped);
    perXorb := MergeGroups(order, grouped);
  }

  method MergeGroups(order: seq<Hash>, grouped: map<Hash, Ranges>) returns (perXorb: seq<(Hash, Ranges)>)
    requires forall k :: 0 <= k < |order| ==> order[k] in grouped
    ensures |perXorb| == |order|
    ensures forall k :: 0 <= k < |order| ==> perXorb[k] == (order[k], MergedRanges(grouped[order[k]]))
  {
    hide Merge, Sort;
    perXorb := [];
    for k := 0 to |order|
      invariant |perXorb| == k
      invariant forall j :: 0 <= j < k ==> perXorb[j] == (order[j], MergedRanges(grouped[order[j]]))
    {
      var merged := MergeSorted(Sort(grouped[order[k]]));
      perXorb := perXorb + [(order[k], merged)];
    }
  }
}
