/** Bytes, hashes, u32 arithmetic and the sums and joins every other module counts with. */
module Basics {

  type Byte = n: int | 0 <= n < 256

  // A hash is the number its 64 hex digits spell: equality, and the order the index
  // sorts by, are those of the digit strings.
  type Hash = int

  const U32: nat := 0x1_0000_0000

  datatype Option<+T> = None | Some(value: T)

  datatype Result<+T, +E> = Ok(value: T) | Err(error: E)

  // u32 arithmetic as a release build performs it: it wraps.
  function Wrap(n: int): nat {
    n % U32
  }

  function Add32(a: int, b: int): nat {
    Wrap(a + b)
  }

  function Sub32(a: int, b: int): nat {
    Wrap(a - b)
  }

  // A wrapped running total still yields every step it was advanced by.
  lemma {:induction false} WrappedDifference(total: nat, step: nat)
    requires step < U32
    ensures Sub32(Wrap(total + step), Wrap(total)) == step
    ensures Add32(Wrap(total), step) == Wrap(total + step)
  {
    var q, r := total / U32, total % U32;
    assert total == q * U32 + r;
    if r + step < U32 {
      assert (total + step) % U32 == r + step;
    } else {
      assert total + step == (q + 1) * U32 + (r + step - U32);
      assert (total + step) % U32 == r + step - U32;
    }
  }

  function Max(a: int, b: int): int {
    if a < b then b else a
  }

  function Min(a: int, b: int): int {
    if a < b then a else b
  }

  // ---- sums ----

  function Sum(s: seq<nat>): nat {
    if s == [] then 0 else Sum(s[..|s| - 1]) + s[|s| - 1]
  }

  lemma {:induction false} SumSnoc(s: seq<nat>, n: nat)
    ensures Sum(s + [n]) == Sum(s) + n
  {
    assert (s + [n])[..|s|] == s;
  }

  lemma {:induction false} SumConcat(a: seq<nat>, b: seq<nat>)
    ensures Sum(a + b) == Sum(a) + Sum(b)
  {
    if b == [] {
      assert a + b == a;
    } else {
      var last := |b| - 1;
      assert (a + b)[..|a + b| - 1] == a + b[..last];
      SumConcat(a, b[..last]);
    }
  }

  lemma {:induction false} SumCons(n: nat, s: seq<nat>)
    ensures Sum([n] + s) == n + Sum(s)
  {
    SumConcat([n], s);
    assert Sum([n]) == n by { SumSnoc([], n); assert [] + [n] == [n]; }
  }

  lemma {:induction false} SumStep(s: seq<nat>, i: nat)
    requires i < |s|
    ensures Sum(s[..i + 1]) == Sum(s[..i]) + s[i]
  {
    assert s[..i + 1] == s[..i] + [s[i]];
    SumSnoc(s[..i], s[i]);
  }

  lemma {:induction false} SumSplit(s: seq<nat>, i: nat)
    requires i <= |s|
    ensures Sum(s) == Sum(s[..i]) + Sum(s[i..])
  {
    assert s == s[..i] + s[i..];
    SumConcat(s[..i], s[i..]);
  }

  lemma {:induction false} SumSlice(s: seq<nat>, i: nat, j: nat)
    requires i <= j <= |s|
    ensures Sum(s[..j]) == Sum(s[..i]) + Sum(s[i..j])
  {
    assert s[..j] == s[..i] + s[i..j];
    SumConcat(s[..i], s[i..j]);
  }

  // ---- joins ----

  function Join<T>(parts: seq<seq<T>>): seq<T> {
    if parts == [] then [] else Join(parts[..|parts| - 1]) + parts[|parts| - 1]
  }

  function Lens<T>(parts: seq<seq<T>>): (r: seq<nat>)
    ensures |r| == |parts| && forall i :: 0 <= i < |parts| ==> r[i] == |parts[i]|
  {
    seq(|parts|, i requires 0 <= i < |parts| => |parts[i]|)
  }

  lemma {:induction false} JoinSnoc<T>(parts: seq<seq<T>>, p: seq<T>)
    ensures Join(parts + [p]) == Join(parts) + p
  {
    assert (parts + [p])[..|parts|] == parts;
  }

  lemma {:induction false} JoinConcat<T>(a: seq<seq<T>>, b: seq<seq<T>>)
    ensures Join(a + b) == Join(a) + Join(b)
  {
    if b == [] {
      assert a + b == a;
    } else {
      var last := |b| - 1;
      assert a + b == (a + b[..last]) + [b[last]];
      JoinSnoc(a + b[..last], b[last]);
      JoinConcat(a, b[..last]);
      ConcatAssociates(Join(a), Join(b[..last]), b[last]);
    }
  }

  lemma {:induction false} JoinLength<T>(parts: seq<seq<T>>)
    ensures |Join(parts)| == Sum(Lens(parts))
  {
    if parts != [] {
      var last := |parts| - 1;
      JoinLength(parts[..last]);
      assert Lens(parts)[..last] == Lens(parts[..last]);
    }
  }

  // The bytes of parts i..j are the slice between the two running totals.
  lemma {:induction false} JoinSlice<T>(parts: seq<seq<T>>, i: nat, j: nat)
    requires i <= j <= |parts|
    ensures Sum(Lens(parts)[..i]) <= Sum(Lens(parts)[..j]) <= |Join(parts)|
    ensures Join(parts)[Sum(Lens(parts)[..i])..Sum(Lens(parts)[..j])] == Join(parts[i..j])
  {
    var a, b, c := parts[..i], parts[i..j], parts[j..];
    assert parts[..j] == a + b && parts == parts[..j] + c;
    JoinConcat(parts[..j], c);
    JoinConcat(a, b);
    JoinLength(a);
    JoinLength(parts[..j]);
    assert Lens(a) == Lens(parts)[..i] && Lens(parts[..j]) == Lens(parts)[..j];
    SliceOfThree(Join(a), Join(b), Join(c));
  }

  lemma {:induction false} PrefixGrows<T>(s: seq<T>, c: nat, d: nat)
    requires c <= d <= |s|
    ensures s[..d] == s[..c] + s[c..d]
  {
  }

  lemma {:induction false} ConcatAssociates<T>(a: seq<T>, b: seq<T>, c: seq<T>)
    ensures a + (b + c) == (a + b) + c
  {
  }

  lemma {:induction false} SliceOfThree<T>(a: seq<T>, b: seq<T>, c: seq<T>)
    ensures ((a + b) + c)[|a|..|a + b|] == b
  {
  }

  lemma {:induction false} SliceOfFour<T>(a: seq<T>, b: seq<T>, c: seq<T>, d: seq<T>)
    ensures (((a + b) + c) + d)[|a|..|a + b|] == b
  {
  }

  ghost function Pick<T>(s: set<T>): (e: T)
    requires s != {}
    ensures e in s
  {
    var e :| e in s;
    e
  }

  // The next element of a set listed in no particular order.
  method Choose<T>(s: set<T>) returns (e: T)
    requires s != {}
    ensures e in s
  {
    e :| e in s;
  }

  // A Rust or Python slice s[lo..hi] that tolerates bounds past the end.
  function Clip<T>(s: seq<T>, lo: nat, hi: nat): seq<T> {
    var h := Min(hi, |s|);
    if lo < h then s[lo..h] else []
  }

  lemma {:induction false} ClipInside<T>(s: seq<T>, lo: nat, hi: nat)
    requires lo < hi <= |s|
    ensures Clip(s, lo, hi) == s[lo..hi]
  {
  }

  lemma {:induction false} ClipWhole<T>(s: seq<T>)
    ensures Clip(s, 0, |s|) == s
  {
  }
}
