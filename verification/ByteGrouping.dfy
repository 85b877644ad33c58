/** BG4 byte grouping (docs/SPECIFICATION.md section 4.2) and the client's inverse, `_ungroup4`. */
module ByteGrouping {
  import opened Basics

  // Every fourth element from position g on.
  function Stride<T>(s: seq<T>, g: nat): seq<T> {
    seq(StrideSize(|s|, g), i requires 0 <= i < StrideSize(|s|, g) => s[g + 4 * i])
  }

  function StrideSize(n: nat, g: nat): (r: nat)
    ensures forall i :: 0 <= i < r <==> 0 <= i && g + 4 * i < n
  {
    if g < n then (n - g + 3) / 4 else 0
  }

  // The four position groups, one after the other.
  function Group<T>(s: seq<T>): seq<T> {
    Stride(s, 0) + Stride(s, 1) + Stride(s, 2) + Stride(s, 3)
  }

  // How many of n positions belong to group g, and where the group starts once grouped.
  function GroupSize(n: nat, g: nat): nat
    requires g < 4
  {
    n / 4 + if g < n % 4 then 1 else 0
  }

  function GroupStart(n: nat, g: nat): (r: nat)
    requires g <= 4
    ensures r + (if g < 4 then GroupSize(n, g) else 0) <= n
  {
    match g
    case 0 => 0
    case 1 => GroupSize(n, 0)
    case 2 => GroupSize(n, 0) + GroupSize(n, 1)
    case 3 => GroupSize(n, 0) + GroupSize(n, 1) + GroupSize(n, 2)
    case 4 => n
  }

  // Where position k of the original lies in the grouped form.
  function GroupedAt(n: nat, k: nat): (p: nat)
    requires k < n
    ensures p < n
  {
    GroupStart(n, k % 4) + k / 4
  }

  function Ungroup<T>(grouped: seq<T>): (r: seq<T>)
    ensures |r| == |grouped|
  {
    seq(|grouped|, k requires 0 <= k < |grouped| => grouped[GroupedAt(|grouped|, k)])
  }

  lemma {:induction false} StrideSizes<T>(s: seq<T>)
    ensures |Stride(s, 0)| == GroupSize(|s|, 0) && |Stride(s, 1)| == GroupSize(|s|, 1)
    ensures |Stride(s, 2)| == GroupSize(|s|, 2) && |Stride(s, 3)| == GroupSize(|s|, 3)
    ensures |Group(s)| == |s|
  {
  }

  lemma {:induction false} FourPartIndex<T>(a: seq<T>, b: seq<T>, c: seq<T>, d: seq<T>, i: nat)
    ensures i < |a| ==> (a + b + c + d)[i] == a[i]
    ensures i < |b| ==> (a + b + c + d)[|a| + i] == b[i]
    ensures i < |c| ==> (a + b + c + d)[|a| + |b| + i] == c[i]
    ensures i < |d| ==> (a + b + c + d)[|a| + |b| + |c| + i] == d[i]
  {
  }

  // Element i of group g sits i past the start of the group.
  lemma {:induction false} GroupElement<T>(s: seq<T>, g: nat, i: nat)
    requires g < 4 && 4 * i + g < |s|
    ensures i < GroupSize(|s|, g) && GroupStart(|s|, g) + i < |s| == |Group(s)|
    ensures Group(s)[GroupStart(|s|, g) + i] == s[4 * i + g]
  {
    StrideSizes(s);
    var a, b, c, d := Stride(s, 0), Stride(s, 1), Stride(s, 2), Stride(s, 3);
    assert i < GroupSize(|s|, g);
    FourPartIndex(a, b, c, d, i);
    match g {
      case 0 => assert a[i] == s[4 * i];
      case 1 => assert b[i] == s[1 + 4 * i];
      case 2 => assert c[i] == s[2 + 4 * i];
      case 3 => assert d[i] == s[3 + 4 * i];
    }
  }

  lemma {:induction false} SizeIsRows(n: nat, g: nat, i: nat)
    requires g < 4
    ensures i < GroupSize(n, g) <==> 4 * i + g < n
  {
  }

  lemma {:induction false} RowAndColumn(i: nat, g: nat)
    requires g < 4
    ensures (4 * i + g) % 4 == g && (4 * i + g) / 4 == i
  {
  }

  lemma {:induction false} UngroupElement<T>(b: seq<T>, g: nat, i: nat)
    requires g < 4 && 4 * i + g < |b|
    ensures GroupStart(|b|, g) + i < |b|
    ensures Ungroup(b)[4 * i + g] == b[GroupStart(|b|, g) + i]
  {
    RowAndColumn(i, g);
    assert GroupedAt(|b|, 4 * i + g) == GroupStart(|b|, g) + i;
  }

  lemma {:induction false} UngroupInvertsGroup<T>(s: seq<T>)
    ensures Ungroup(Group(s)) == s
  {
    StrideSizes(s);
    hide Group, Ungroup, Stride, GroupSize, GroupStart;
    var u := Ungroup(Group(s));
    forall k | 0 <= k < |s| ensures u[k] == s[k] {
      var g, i := k % 4, k / 4;
      GroupElement(s, g, i);
      UngroupElement(Group(s), g, i);
    }
  }

  // Where the bytes go: by position within the four, then in their old order. An order on the
  // positions leaves only one way to lay them out.
  lemma {:induction false} GroupsByPosition<T>(s: seq<T>, j: nat, k: nat)
    requires j < |s| && k < |s|
    ensures |Group(s)| == |s| && Group(s)[GroupedAt(|s|, k)] == s[k]
    ensures GroupedAt(|s|, j) < GroupedAt(|s|, k) <==> j % 4 < k % 4 || (j % 4 == k % 4 && j < k)
  {
    hide Group, GroupStart, GroupSize;
    GroupElement(s, k % 4, k / 4);
    InGroup(|s|, j);
    InGroup(|s|, k);
    if j % 4 < k % 4 {
      GroupsFollow(|s|, j % 4, k % 4);
    } else if k % 4 < j % 4 {
      GroupsFollow(|s|, k % 4, j % 4);
    }
  }

  lemma {:induction false} InGroup(n: nat, k: nat)
    requires k < n
    ensures GroupStart(n, k % 4) <= GroupedAt(n, k) < GroupStart(n, k % 4) + GroupSize(n, k % 4)
  {
    SizeIsRows(n, k % 4, k / 4);
  }

  lemma {:induction false} GroupsFollow(n: nat, g: nat, h: nat)
    requires g < h < 4
    ensures GroupStart(n, g) + GroupSize(n, g) <= GroupStart(n, h)
  {
  }

  // The group a grouped position falls in, and its place there.
  function GroupOf(n: nat, p: nat): (r: (nat, nat))
    requires p < n
    ensures r.0 < 4 && 4 * r.1 + r.0 < n && GroupStart(n, r.0) + r.1 == p
  {
    var q, m := n / 4, n % 4;
    assert n == 4 * q + m;
    if p < GroupStart(n, 1) then (0, p)
    else if p < GroupStart(n, 2) then (1, p - GroupStart(n, 1))
    else if p < GroupStart(n, 3) then (2, p - GroupStart(n, 2))
    else (3, p - GroupStart(n, 3))
  }

  lemma {:induction false} GroupInvertsUngroup<T>(b: seq<T>)
    ensures Group(Ungroup(b)) == b
  {
    StrideSizes(Ungroup(b));
    hide Group, Ungroup, Stride, GroupOf, GroupStart;
    forall p | 0 <= p < |b| ensures Group(Ungroup(b))[p] == b[p] {
      var at := GroupOf(|b|, p);
      RegroupedElement(b, at.0, at.1);
    }
  }

  lemma {:induction false} RegroupedElement<T>(b: seq<T>, g: nat, i: nat)
    requires g < 4 && 4 * i + g < |b|
    ensures GroupStart(|b|, g) + i < |b| == |Group(Ungroup(b))|
    ensures Group(Ungroup(b))[GroupStart(|b|, g) + i] == b[GroupStart(|b|, g) + i]
  {
    hide Group, Ungroup, GroupSize, GroupStart;
    GroupElement(Ungroup(b), g, i);
    UngroupElement(b, g, i);
  }

  lemma {:induction false} StrideStep<T>(s: seq<T>, g: nat)
    ensures g < |s| ==> multiset(Stride(s, g)) == multiset{s[g]} + multiset(Stride(s, g + 4))
    ensures g >= |s| ==> multiset(Stride(s, g)) == multiset{}
  {
    if g < |s| {
      var rest := Stride(s, g + 4);
      assert Stride(s, g) == [s[g]] + rest;
    }
  }

  ghost function FourStrides<T>(s: seq<T>, g: nat): multiset<T> {
    multiset(Stride(s, g)) + multiset(Stride(s, g + 1)) + multiset(Stride(s, g + 2)) + multiset(Stride(s, g + 3))
  }

  lemma {:induction false} FourStridesStep<T>(s: seq<T>, g: nat)
    ensures g < |s| ==> FourStrides(s, g) == multiset{s[g]} + FourStrides(s, g + 1)
    ensures g >= |s| ==> FourStrides(s, g) == multiset{}
  {
    StrideStep(s, g);
    if g >= |s| {
      StrideStep(s, g + 1);
      StrideStep(s, g + 2);
      StrideStep(s, g + 3);
    }
  }

  lemma {:induction false} MultisetCons<T>(s: seq<T>, g: nat)
    requires g < |s|
    ensures multiset(s[g..]) == multiset{s[g]} + multiset(s[g + 1..])
  {
    assert s[g..] == [s[g]] + s[g + 1..];
  }

  // Four consecutive strides hold each element of the suffix exactly once.
  lemma {:induction false} StridesPartition<T>(s: seq<T>, g: nat)
    requires g <= |s|
    ensures multiset(s[g..]) == FourStrides(s, g)
    decreases |s| - g
  {
    FourStridesStep(s, g);
    if g < |s| {
      StridesPartition(s, g + 1);
      MultisetCons(s, g);
    }
  }

  lemma {:induction false} GroupKeepsElements<T>(s: seq<T>)
    ensures multiset(Group(s)) == multiset(s)
  {
    StridesPartition(s, 0);
    assert s[0..] == s;
    var a, b, c, d := Stride(s, 0), Stride(s, 1), Stride(s, 2), Stride(s, 3);
    assert multiset(a + b + c + d) == multiset(a) + multiset(b) + multiset(c) + multiset(d);
  }

  lemma {:induction false} GroupingPermutes<T>(s: seq<T>)
    ensures multiset(Group(s)) == multiset(s)
    ensures multiset(Ungroup(s)) == multiset(s)
  {
    GroupKeepsElements(s);
    GroupKeepsElements(Ungroup(s));
    GroupInvertsUngroup(s);
  }

  // client.py `_ungroup4`: slice out the four groups, then deal them back one by one.
  method Ungroup4(grouped: seq<Byte>) returns (result: seq<Byte>)
    ensures result == Ungroup(grouped)
  {
    var n := |grouped|;
    var groups := SplitGroups(grouped);
    var out := new Byte[n];
    var pos := 0;
    for i := 0 to |groups[0]|
      invariant pos == Min(4 * i, n)
      invariant out[..pos] == Ungroup(grouped)[..pos]
    {
      for g := 0 to 4
        invariant pos == Min(4 * i + g, n)
        invariant out[..pos] == Ungroup(grouped)[..pos]
      {
        SizeIsRows(n, g, i);
        if i < |groups[g]| {
          UngroupElement(grouped, g, i);
          out[pos] := groups[g][i];
          pos := pos + 1;
          assert out[..pos] == out[..pos - 1] + [groups[g][i]];
        }
      }
    }
    SizeIsRows(n, 0, |groups[0]|);
    assert pos == n;
    result := out[..];
    assert result == out[..pos];
  }

  method SplitGroups(grouped: seq<Byte>) returns (groups: seq<seq<Byte>>)
    ensures |groups| == 4
    ensures forall g :: 0 <= g < 4 ==> |groups[g]| == GroupSize(|grouped|, g)
    ensures forall g, i :: 0 <= g < 4 && 0 <= i < |groups[g]| ==>
      groups[g][i] == grouped[GroupStart(|grouped|, g) + i]
  {
    var n := |grouped|;
    var full, rem := n / 4, n % 4;
    var sizes := seq(4, g requires 0 <= g < 4 => full + if g < rem then 1 else 0);
    var offset := 0;
    groups := [];
    for g := 0 to 4
      invariant |groups| == g && offset == GroupStart(n, g)
      invariant forall h :: 0 <= h < g ==> |groups[h]| == GroupSize(n, h)
      invariant forall h, i :: 0 <= h < g && 0 <= i < |groups[h]| ==> groups[h][i] == grouped[GroupStart(n, h) + i]
    {
      assert sizes[g] == GroupSize(n, g);
      assert offset + sizes[g] == GroupStart(n, g + 1) <= n;
      groups := groups + [grouped[offset..offset + sizes[g]]];
      offset := offset + sizes[g];
    }
  }
}
