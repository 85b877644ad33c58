/**
 The packing loop of `build_plan` (crates/wasm/src/lib.rs): unresolved chunks are cut, in
 order, into xorbs under a byte cap and a chunk-count cap. The greedy cut is optimal.
 */
module Packing {
  import opened Basics
  import opened XetCore

  /** One content-defined chunk of the file. */
  datatype Chunk = Chunk(hash: Hash, data: seq<Byte>)

  /** The xorb a chunk of the file is stored in, and its position there. */
  datatype Placement = Placement(xorb: Hash, index: nat)

  type Slots = seq<Option<Placement>>

  predicate InRange(chunks: seq<Chunk>, g: seq<nat>) {
    forall i :: 0 <= i < |g| ==> g[i] < |chunks|
  }

  function LensAt(chunks: seq<Chunk>, g: seq<nat>): (r: seq<nat>)
    requires InRange(chunks, g)
    ensures |r| == |g| && forall i :: 0 <= i < |g| ==> r[i] == |chunks[g[i]].data|
  {
    seq(|g|, i requires 0 <= i < |g| => |chunks[g[i]].data|)
  }

  function BytesOf(chunks: seq<Chunk>, g: seq<nat>): nat
    requires InRange(chunks, g)
  {
    Sum(LensAt(chunks, g))
  }

  // Both caps, except that a chunk over the byte cap still travels alone.
  predicate Fits(x: Xet, chunks: seq<Chunk>, g: seq<nat>)
    requires InRange(chunks, g)
  {
    && g != []
    && (|g| == 1 || (BytesOf(chunks, g) <= x.maxXorbBytes && |g| <= x.maxXorbChunks))
  }

  // The loop's cut: the next chunk would break a cap.
  predicate Full(x: Xet, chunks: seq<Chunk>, g: seq<nat>, next: nat)
    requires InRange(chunks, g) && next < |chunks|
  {
    BytesOf(chunks, g) + |chunks[next].data| > x.maxXorbBytes || |g| >= x.maxXorbChunks
  }

  /** An order-preserving partition of `todo` into groups that fit. */
  ghost predicate IsPacking(x: Xet, chunks: seq<Chunk>, todo: seq<nat>, groups: seq<seq<nat>>) {
    && Join(groups) == todo
    && forall k :: 0 <= k < |groups| ==> InRange(chunks, groups[k]) && Fits(x, chunks, groups[k])
  }

  /** Each group was closed only because the next chunk broke a cap. */
  ghost predicate ClosedWhenFull(x: Xet, chunks: seq<Chunk>, groups: seq<seq<nat>>)
    requires forall k :: 0 <= k < |groups| ==> InRange(chunks, groups[k]) && groups[k] != []
  {
    forall k :: 0 < k < |groups| ==> groups[k][0] < |chunks| && Full(x, chunks, groups[k - 1], groups[k][0])
  }

  // ---- optimality ----

  function Cut<T>(groups: seq<seq<T>>, k: nat): nat
    requires k <= |groups|
  {
    Sum(Lens(groups)[..k])
  }

  lemma {:induction false} CutStep<T>(groups: seq<seq<T>>, k: nat)
    requires k < |groups|
    ensures Cut(groups, k + 1) == Cut(groups, k) + |groups[k]| <= |Join(groups)|
    ensures Join(groups)[Cut(groups, k)..Cut(groups, k + 1)] == groups[k]
  {
    SumStep(Lens(groups), k);
    JoinSlice(groups, k, k + 1);
    assert groups[k..k + 1] == [groups[k]];
    assert Join([groups[k]]) == groups[k] by {
      JoinSnoc([], groups[k]);
      assert [] + [groups[k]] == [groups[k]];
    }
  }

  lemma {:induction false} LastCut<T>(groups: seq<seq<T>>)
    ensures Cut(groups, |groups|) == |Join(groups)|
  {
    JoinLength(groups);
    assert Lens(groups)[..|groups|] == Lens(groups);
  }

  lemma {:induction false} SumStretch(lens: seq<nat>, a: nat, b: nat, c: nat, d: nat)
    requires a <= b <= c <= d <= |lens|
    ensures Sum(lens[b..c]) <= Sum(lens[a..d])
  {
    assert lens[a..d] == lens[a..b] + lens[b..d] && lens[b..d] == lens[b..c] + lens[c..d];
    SumConcat(lens[a..b], lens[b..d]);
    SumConcat(lens[b..c], lens[c..d]);
  }

  lemma {:induction false} LensOfStretch(chunks: seq<Chunk>, todo: seq<nat>, a: nat, b: nat)
    requires a <= b <= |todo| && InRange(chunks, todo)
    ensures InRange(chunks, todo[a..b]) && LensAt(chunks, todo[a..b]) == LensAt(chunks, todo)[a..b]
  {
  }

  // A longer stretch of chunks weighs at least as much.
  lemma {:induction false} StretchWeighs(chunks: seq<Chunk>, todo: seq<nat>, a: nat, b: nat, c: nat, d: nat)
    requires a <= b <= c <= d <= |todo| && InRange(chunks, todo)
    ensures InRange(chunks, todo[b..c]) && InRange(chunks, todo[a..d])
    ensures BytesOf(chunks, todo[b..c]) <= BytesOf(chunks, todo[a..d])
  {
    LensOfStretch(chunks, todo, b, c);
    LensOfStretch(chunks, todo, a, d);
    SumStretch(LensAt(chunks, todo), a, b, c, d);
  }

  // Extending a stretch by the chunk after it adds that chunk's bytes.
  lemma {:induction false} StretchGrows(chunks: seq<Chunk>, todo: seq<nat>, a: nat, b: nat)
    requires a <= b < |todo| && InRange(chunks, todo)
    ensures InRange(chunks, todo[a..b]) && InRange(chunks, todo[a..b + 1])
    ensures BytesOf(chunks, todo[a..b + 1]) == BytesOf(chunks, todo[a..b]) + |chunks[todo[b]].data|
  {
    assert LensAt(chunks, todo[a..b + 1]) == LensAt(chunks, todo[a..b]) + [|chunks[todo[b]].data|];
    SumSnoc(LensAt(chunks, todo[a..b]), |chunks[todo[b]].data|);
  }

  // Inside a group that fits, no shorter stretch is full.
  lemma {:induction false} StretchNotFull(x: Xet, chunks: seq<Chunk>, todo: seq<nat>, c: nat, a: nat, b: nat, d: nat)
    requires c <= a < b < d <= |todo| && InRange(chunks, todo) && InRange(chunks, todo[c..d])
    requires Fits(x, chunks, todo[c..d])
    ensures InRange(chunks, todo[a..b]) && !Full(x, chunks, todo[a..b], todo[b])
  {
    StretchGrows(chunks, todo, a, b);
    StretchWeighs(chunks, todo, c, a, b + 1, d);
  }

  // After every number of groups the greedy packing has consumed at least as many chunks.
  lemma {:induction false} GreedyStaysAhead(
    x: Xet, chunks: seq<Chunk>, todo: seq<nat>, greedy: seq<seq<nat>>, other: seq<seq<nat>>, k: nat)
    requires InRange(chunks, todo)
    requires IsPacking(x, chunks, todo, greedy) && ClosedWhenFull(x, chunks, greedy)
    requires IsPacking(x, chunks, todo, other)
    requires k <= |greedy| && k <= |other|
    ensures Cut(other, k) <= Cut(greedy, k)
  {
    if k > 0 {
      GreedyStaysAhead(x, chunks, todo, greedy, other, k - 1);
      CutStep(greedy, k - 1);
      CutStep(other, k - 1);
      var a, b := Cut(greedy, k - 1), Cut(greedy, k);
      var c, d := Cut(other, k - 1), Cut(other, k);
      assert Fits(x, chunks, greedy[k - 1]) && Fits(x, chunks, other[k - 1]);
      if b < d {
        LastCut(greedy);
        CutStep(greedy, k);
        assert todo[b] == todo[b..Cut(greedy, k + 1)][0];
        StretchNotFull(x, chunks, todo, c, a, b, d);
      }
    }
  }

  // No order-preserving packing under the caps uses fewer xorbs.
  lemma {:induction false} GreedyIsOptimal(x: Xet, chunks: seq<Chunk>, todo: seq<nat>, greedy: seq<seq<nat>>, other: seq<seq<nat>>)
    requires InRange(chunks, todo)
    requires IsPacking(x, chunks, todo, greedy) && ClosedWhenFull(x, chunks, greedy)
    requires IsPacking(x, chunks, todo, other)
    ensures |greedy| <= |other|
  {
    var m := |other|;
    if |greedy| > m {
      GreedyStaysAhead(x, chunks, todo, greedy, other, m);
      LastCut(other);
      assert Fits(x, chunks, greedy[m]);
      CutStep(greedy, m);
    }
  }

  // ---- the loop ----

  // The indices below k that dedup left unresolved, in order.
  function Unresolved(slots: Slots, k: nat): (r: seq<nat>)
    requires k <= |slots|
    ensures forall i :: 0 <= i < |r| ==> r[i] < k && slots[r[i]].None?
    ensures forall i, j :: 0 <= i < j < |r| ==> r[i] < r[j]
  {
    if k == 0 then [] else Unresolved(slots, k - 1) + if slots[k - 1].None? then [k - 1] else []
  }

  lemma {:induction false} UnresolvedIsComplete(slots: Slots, k: nat, i: nat)
    requires i < k <= |slots| && slots[i].None?
    ensures i in Unresolved(slots, k)
  {
    if i < k - 1 {
      UnresolvedIsComplete(slots, k - 1, i);
    }
  }

  function SizedAt(chunks: seq<Chunk>, g: seq<nat>): (r: seq<Sized>)
    requires InRange(chunks, g)
    ensures |r| == |g| && forall i :: 0 <= i < |g| ==> r[i] == (chunks[g[i]].hash, |chunks[g[i]].data|)
  {
    seq(|g|, i requires 0 <= i < |g| => var size: nat := |chunks[g[i]].data|; (chunks[g[i]].hash, size))
  }

  function GroupHash(x: Xet, chunks: seq<Chunk>, g: seq<nat>): Hash
    requires InRange(chunks, g)
  {
    x.xorbHash(SizedAt(chunks, g))
  }

  // Slots after packing: every chunk of a group sits at its group position in the group's
  // xorb, and no other slot moved.
  ghost predicate PlacedBy(x: Xet, chunks: seq<Chunk>, before: Slots, groups: seq<seq<nat>>, after: Slots) {
    && |after| == |before| == |chunks|
    && (forall k :: 0 <= k < |groups| ==> InRange(chunks, groups[k]))
    && (forall k, l :: 0 <= k < |groups| && 0 <= l < |groups[k]| ==>
          after[groups[k][l]] == Some(Placement(GroupHash(x, chunks, groups[k]), l)))
    && (forall i :: 0 <= i < |before| && i !in Join(groups) ==> after[i] == before[i])
  }

  // The placement half of the `seal` closure.
  method PlaceGroup(slots: Slots, group: seq<nat>, xorb: Hash) returns (placed: Slots)
    requires forall i :: 0 <= i < |group| ==> group[i] < |slots|
    requires forall i, j :: 0 <= i < j < |group| ==> group[i] < group[j]
    ensures |placed| == |slots|
    ensures forall l :: 0 <= l < |group| ==> placed[group[l]] == Some(Placement(xorb, l))
    ensures forall i :: 0 <= i < |slots| && i !in group ==> placed[i] == slots[i]
  {
    placed := slots;
    for l := 0 to |group|
      invariant |placed| == |slots|
      invariant forall m :: 0 <= m < l ==> placed[group[m]] == Some(Placement(xorb, m))
      invariant forall i :: 0 <= i < |slots| && i !in group ==> placed[i] == slots[i]
    {
      placed := placed[group[l] := Some(Placement(xorb, l))];
    }
  }

  lemma {:induction false} MemberOfJoin<T>(groups: seq<seq<T>>, k: nat, l: nat)
    requires k < |groups| && l < |groups[k]|
    ensures groups[k][l] in Join(groups)
  {
    if k < |groups| - 1 {
      MemberOfJoin(groups[..|groups| - 1], k, l);
    }
  }

  lemma {:induction false} SealKeepsPlaced(
    x: Xet, chunks: seq<Chunk>, before: Slots, groups: seq<seq<nat>>, slots: Slots, group: seq<nat>, placed: Slots)
    requires PlacedBy(x, chunks, before, groups, slots)
    requires InRange(chunks, group) && |placed| == |slots|
    requires forall l :: 0 <= l < |group| ==> placed[group[l]] == Some(Placement(GroupHash(x, chunks, group), l))
    requires forall i :: 0 <= i < |slots| && i !in group ==> placed[i] == slots[i]
    requires forall i :: i in group ==> i !in Join(groups)
    ensures PlacedBy(x, chunks, before, groups + [group], placed)
  {
    JoinSnoc(groups, group);
    var all := groups + [group];
    forall k, l | 0 <= k < |all| && 0 <= l < |all[k]|
      ensures placed[all[k][l]] == Some(Placement(GroupHash(x, chunks, all[k]), l))
    {
      if k < |groups| {
        MemberOfJoin(groups, k, l);
      }
    }
  }

  lemma {:induction false} SealKeepsPacking(x: Xet, chunks: seq<Chunk>, groups: seq<seq<nat>>, group: seq<nat>)
    requires forall k :: 0 <= k < |groups| ==> InRange(chunks, groups[k]) && Fits(x, chunks, groups[k])
    requires InRange(chunks, group) && Fits(x, chunks, group)
    ensures IsPacking(x, chunks, Join(groups) + group, groups + [group])
  {
    hide InRange, Fits, Join;
    JoinSnoc(groups, group);
  }

  // Before the open group is sealed: it fits, and every sealed group was closed when full.
  ghost predicate Packed(x: Xet, chunks: seq<Chunk>, groups: seq<seq<nat>>, group: seq<nat>, groupBytes: nat) {
    && InRange(chunks, group) && (group == [] || Fits(x, chunks, group)) && groupBytes == BytesOf(chunks, group)
    && (forall k :: 0 <= k < |groups| ==> InRange(chunks, groups[k]) && Fits(x, chunks, groups[k]))
    && ClosedWhenFull(x, chunks, groups)
    && (groups != [] ==> group != [] && Full(x, chunks, groups[|groups| - 1], group[0]))
  }

  lemma {:induction false} SealStep(x: Xet, chunks: seq<Chunk>, groups: seq<seq<nat>>, group: seq<nat>, groupBytes: nat, next: nat)
    requires Packed(x, chunks, groups, group, groupBytes) && group != []
    requires next < |chunks| && Full(x, chunks, group, next)
    ensures Packed(x, chunks, groups + [group], [next], |chunks[next].data|)
  {
    OneChunk(chunks, next);
    hide Full, BytesOf;
    ClosedSnoc(x, chunks, groups, group);
    hide ClosedWhenFull;
  }

  lemma {:induction false} OneChunk(chunks: seq<Chunk>, next: nat)
    requires next < |chunks|
    ensures InRange(chunks, [next]) && BytesOf(chunks, [next]) == |chunks[next].data|
  {
    assert LensAt(chunks, [next]) == [] + [|chunks[next].data|];
    SumSnoc([], |chunks[next].data|);
  }

  lemma {:induction false} ClosedSnoc(x: Xet, chunks: seq<Chunk>, groups: seq<seq<nat>>, group: seq<nat>)
    requires forall k :: 0 <= k < |groups| ==> InRange(chunks, groups[k]) && groups[k] != []
    requires InRange(chunks, group) && group != [] && ClosedWhenFull(x, chunks, groups)
    requires groups != [] ==> Full(x, chunks, groups[|groups| - 1], group[0])
    ensures ClosedWhenFull(x, chunks, groups + [group])
  {
    hide Full;
  }

  lemma {:induction false} GrowStep(x: Xet, chunks: seq<Chunk>, groups: seq<seq<nat>>, group: seq<nat>, groupBytes: nat, next: nat)
    requires Packed(x, chunks, groups, group, groupBytes)
    requires next < |chunks| && (group != [] ==> !Full(x, chunks, group, next))
    requires group == [] ==> groups == []
    ensures Packed(x, chunks, groups, group + [next], groupBytes + |chunks[next].data|)
  {
    assert LensAt(chunks, group + [next]) == LensAt(chunks, group) + [|chunks[next].data|];
    SumSnoc(LensAt(chunks, group), |chunks[next].data|);
  }

  // One index list without repeats, cut anywhere, has disjoint halves.
  lemma {:induction false} HalvesDisjoint(all: seq<nat>, a: seq<nat>, b: seq<nat>)
    requires all == a + b && forall i, j :: 0 <= i < j < |all| ==> all[i] < all[j]
    ensures forall i :: i in b ==> i !in a
    ensures forall i, j :: 0 <= i < j < |b| ==> b[i] < b[j]
  {
    forall i | i in b ensures i !in a {
      var l :| 0 <= l < |b| && b[l] == i;
      assert all[|a| + l] == i;
      forall k | 0 <= k < |a| ensures a[k] != i {
        assert all[k] == a[k];
      }
    }
    forall i, j | 0 <= i < j < |b| ensures b[i] < b[j] {
      assert all[|a| + i] == b[i] && all[|a| + j] == b[j];
    }
  }

  /** Everything the loop keeps: `groups` are sealed and placed, `group` is open, chunks below idx are seen. */
  ghost predicate Open(x: Xet, chunks: seq<Chunk>, before: Slots, slots: Slots,
                       groups: seq<seq<nat>>, group: seq<nat>, groupBytes: nat, idx: nat)
  {
    && idx <= |before| == |chunks| == |slots|
    && PlacedBy(x, chunks, before, groups, slots)
    && Packed(x, chunks, groups, group, groupBytes)
    && (group == [] ==> groups == [])
    && Join(groups) + group == Unresolved(before, idx)
  }

  method SealGroup(x: Xet, chunks: seq<Chunk>, ghost before: Slots, slots: Slots,
                   groups: seq<seq<nat>>, group: seq<nat>, ghost groupBytes: nat, ghost idx: nat)
    returns (placed: Slots)
    requires InRange(chunks, group) && Open(x, chunks, before, slots, groups, group, groupBytes, idx)
    ensures |placed| == |slots| && PlacedBy(x, chunks, before, groups + [group], placed)
  {
    HalvesDisjoint(Unresolved(before, idx), Join(groups), group);
    placed := PlaceGroup(slots, group, GroupHash(x, chunks, group));
    SealKeepsPlaced(x, chunks, before, groups, slots, group, placed);
  }

  lemma {:induction false} SealTurn(x: Xet, chunks: seq<Chunk>, before: Slots, slots: Slots, placed: Slots,
                 groups: seq<seq<nat>>, group: seq<nat>, groupBytes: nat, idx: nat)
    requires Open(x, chunks, before, slots, groups, group, groupBytes, idx)
    requires idx < |before| && before[idx].None? && InRange(chunks, group)
    requires group != [] && Full(x, chunks, group, idx)
    requires |placed| == |slots| && PlacedBy(x, chunks, before, groups + [group], placed)
    ensures Open(x, chunks, before, placed, groups + [group], [idx], |chunks[idx].data|, idx + 1)
  {
    hide PlacedBy, Packed;
    SealStep(x, chunks, groups, group, groupBytes, idx);
    JoinSnoc(groups, group);
  }

  lemma {:induction false} GrowTurn(x: Xet, chunks: seq<Chunk>, before: Slots, slots: Slots,
                 groups: seq<seq<nat>>, group: seq<nat>, groupBytes: nat, idx: nat)
    requires Open(x, chunks, before, slots, groups, group, groupBytes, idx)
    requires idx < |before| && before[idx].None? && InRange(chunks, group)
    requires group != [] ==> !Full(x, chunks, group, idx)
    ensures Open(x, chunks, before, slots, groups, group + [idx], groupBytes + |chunks[idx].data|, idx + 1)
  {
    hide PlacedBy, Packed;
    GrowStep(x, chunks, groups, group, groupBytes, idx);
    assert Join(groups) + (group + [idx]) == (Join(groups) + group) + [idx];
  }

  // What one turn reads: the slot dedup left, and the cap test on the open group.
  lemma {:induction false} TurnReads(x: Xet, chunks: seq<Chunk>, before: Slots, slots: Slots,
                  groups: seq<seq<nat>>, group: seq<nat>, groupBytes: nat, idx: nat)
    requires Open(x, chunks, before, slots, groups, group, groupBytes, idx) && idx < |before|
    ensures InRange(chunks, group) && slots[idx] == before[idx]
    ensures Full(x, chunks, group, idx) <==>
      (groupBytes + |chunks[idx].data| > x.maxXorbBytes || |group| >= x.maxXorbChunks)
    ensures slots[idx].Some? ==> Open(x, chunks, before, slots, groups, group, groupBytes, idx + 1)
  {
    hide PlacedBy;
    SlotUntouched(x, chunks, before, groups, slots, group, idx);
    assert Unresolved(before, idx) + [] == Unresolved(before, idx);
  }

  method PackChunks(x: Xet, chunks: seq<Chunk>, before: Slots) returns (after: Slots, groups: seq<seq<nat>>)
    requires |before| == |chunks|
    ensures PlacedBy(x, chunks, before, groups, after)
    ensures |after| == |before| && forall i :: 0 <= i < |after| ==> after[i].Some?
    ensures IsPacking(x, chunks, Unresolved(before, |before|), groups)
    ensures ClosedWhenFull(x, chunks, groups)
  {
    hide *;
    after, groups := before, [];
    var group: seq<nat>, groupBytes: nat := [], 0;
    StartPacking(x, chunks, before);
    for idx := 0 to |chunks|
      invariant |after| == |chunks|
      invariant Open(x, chunks, before, after, groups, group, groupBytes, idx)
    {
      TurnReads(x, chunks, before, after, groups, group, groupBytes, idx);
      if after[idx].Some? { continue; }
      var len := |chunks[idx].data|;
      if group != [] && (groupBytes + len > x.maxXorbBytes || |group| >= x.maxXorbChunks) {
        var placed := SealGroup(x, chunks, before, after, groups, group, groupBytes, idx);
        SealTurn(x, chunks, before, after, placed, groups, group, groupBytes, idx);
        after, groups := placed, groups + [group];
        group, groupBytes := [idx], len;
      } else {
        GrowTurn(x, chunks, before, after, groups, group, groupBytes, idx);
        group, groupBytes := group + [idx], groupBytes + len;
      }
    }
    OpenIsInRange(x, chunks, before, after, groups, group, groupBytes, |chunks|);
    if group != [] {
      FinalSeal(x, chunks, before, after, groups, group, groupBytes);
      after := SealGroup(x, chunks, before, after, groups, group, groupBytes, |chunks|);
      groups := groups + [group];
    } else {
      NothingPacked(x, chunks, before, after, groups, groupBytes);
    }
    EverySlotFilled(x, chunks, before, groups, after);
  }

  lemma {:induction false} OpenIsInRange(x: Xet, chunks: seq<Chunk>, before: Slots, slots: Slots,
                      groups: seq<seq<nat>>, group: seq<nat>, groupBytes: nat, idx: nat)
    requires Open(x, chunks, before, slots, groups, group, groupBytes, idx)
    ensures InRange(chunks, group)
  {
  }

  lemma {:induction false} FinalSeal(x: Xet, chunks: seq<Chunk>, before: Slots, slots: Slots,
                  groups: seq<seq<nat>>, group: seq<nat>, groupBytes: nat)
    requires Open(x, chunks, before, slots, groups, group, groupBytes, |chunks|) && group != []
    ensures IsPacking(x, chunks, Unresolved(before, |before|), groups + [group])
    ensures ClosedWhenFull(x, chunks, groups + [group])
  {
    hide PlacedBy, Full, BytesOf, Join, Unresolved, IsPacking;
    SealKeepsPacking(x, chunks, groups, group);
    ClosedSnoc(x, chunks, groups, group);
    hide ClosedWhenFull;
  }

  lemma {:induction false} NothingPacked(x: Xet, chunks: seq<Chunk>, before: Slots, slots: Slots, groups: seq<seq<nat>>, groupBytes: nat)
    requires Open(x, chunks, before, slots, groups, [], groupBytes, |chunks|)
    ensures PlacedBy(x, chunks, before, groups, slots)
    ensures IsPacking(x, chunks, Unresolved(before, |before|), groups)
    ensures ClosedWhenFull(x, chunks, groups)
  {
  }

  lemma {:induction false} StartPacking(x: Xet, chunks: seq<Chunk>, before: Slots)
    requires |before| == |chunks|
    ensures Open(x, chunks, before, before, [], [], 0, 0)
  {
  }

  lemma {:induction false} PlacedElsewhere(x: Xet, chunks: seq<Chunk>, before: Slots, groups: seq<seq<nat>>, after: Slots, i: nat)
    requires PlacedBy(x, chunks, before, groups, after) && i < |before| && i !in Join(groups)
    ensures |after| == |before| && after[i] == before[i]
  {
  }

  lemma {:induction false} PlacedInGroup(x: Xet, chunks: seq<Chunk>, before: Slots, groups: seq<seq<nat>>, after: Slots, k: nat, l: nat)
    requires PlacedBy(x, chunks, before, groups, after) && k < |groups| && l < |groups[k]|
    ensures InRange(chunks, groups[k]) && groups[k][l] < |after|
    ensures after[groups[k][l]] == Some(Placement(GroupHash(x, chunks, groups[k]), l))
  {
  }

  // The loop reads slots[idx] after sealing groups of smaller indices only.
  lemma {:induction false} SlotUntouched(x: Xet, chunks: seq<Chunk>, before: Slots, groups: seq<seq<nat>>, slots: Slots, group: seq<nat>, idx: nat)
    requires PlacedBy(x, chunks, before, groups, slots) && idx < |before| == |slots|
    requires Join(groups) + group == Unresolved(before, idx)
    ensures slots[idx] == before[idx]
  {
    hide PlacedBy;
    var sealed := Join(groups);
    forall k | 0 <= k < |sealed| ensures sealed[k] < idx {
      assert Unresolved(before, idx)[k] == sealed[k];
    }
    PlacedElsewhere(x, chunks, before, groups, slots, idx);
  }

  lemma {:induction false} EverySlotFilled(x: Xet, chunks: seq<Chunk>, before: Slots, groups: seq<seq<nat>>, after: Slots)
    requires PlacedBy(x, chunks, before, groups, after) && IsPacking(x, chunks, Unresolved(before, |before|), groups)
    requires |after| == |before|
    ensures forall i :: 0 <= i < |after| ==> after[i].Some?
  {
    hide PlacedBy;
    forall i | 0 <= i < |after| ensures after[i].Some? {
      if before[i].None? {
        UnresolvedIsComplete(before, |before|, i);
        assert i in Join(groups);
        var at := GroupPosition<nat>(groups, i);
        PlacedInGroup(x, chunks, before, groups, after, at.0, at.1);
      } else {
        PlacedElsewhere(x, chunks, before, groups, after, i);
      }
    }
  }

  // Which group holds a member of the join, and where.
  lemma {:induction false} GroupPosition<T>(groups: seq<seq<T>>, e: T) returns (at: (nat, nat))
    requires e in Join(groups)
    ensures at.0 < |groups| && at.1 < |groups[at.0]| && groups[at.0][at.1] == e
  {
    var last := |groups| - 1;
    if e in groups[last] {
      var l :| 0 <= l < |groups[last]| && groups[last][l] == e;
      at := (last, l);
    } else {
      at := GroupPosition(groups[..last], e);
    }
  }
}
