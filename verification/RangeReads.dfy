/**
 Range requests on a reconstruction (`reconstruction_terms` in
 crates/server/src/routes/reconstruction.rs) and the client's final slice: a bounded form
 of section 14.1.2 of RFC 9110.
 */
module RangeReads {
  import opened Basics
  import opened XetCore

  function TermLens(terms: seq<Term>): (r: seq<nat>)
    ensures |r| == |terms| && forall i :: 0 <= i < |terms| ==> r[i] == terms[i].unpacked
  {
    seq(|terms|, i requires 0 <= i < |terms| => terms[i].unpacked)
  }

  // First byte of term i; for i == |terms| the size of the file.
  function StartOf(terms: seq<Term>, i: nat): nat
    requires i <= |terms|
  {
    Sum(TermLens(terms)[..i])
  }

  function TotalSize(terms: seq<Term>): nat {
    StartOf(terms, |terms|)
  }

  lemma {:induction false} StartStep(terms: seq<Term>, i: nat)
    requires i < |terms|
    ensures StartOf(terms, i + 1) == StartOf(terms, i) + terms[i].unpacked
  {
    SumStep(TermLens(terms), i);
  }

  lemma {:induction false} StartsAscend(terms: seq<Term>, i: nat, j: nat)
    requires i <= j <= |terms|
    ensures StartOf(terms, i) <= StartOf(terms, j)
  {
    SumSlice(TermLens(terms), i, j);
  }

  // The term holds a byte between a and b, or is empty and lies strictly between them.
  predicate Overlaps(terms: seq<Term>, i: nat, a: nat, b: nat)
    requires i < |terms|
  {
    StartOf(terms, i) <= b && StartOf(terms, i + 1) > a
  }

  // Terms lo..hi are the ones that overlap.
  predicate KeptBounds(terms: seq<Term>, a: nat, b: nat, lo: nat, hi: nat) {
    && lo <= hi <= |terms|
    && forall i :: 0 <= i < |terms| ==> (Overlaps(terms, i, a, b) <==> lo <= i < hi)
  }

  // How many leading terms end at or before byte a.
  function Lo(terms: seq<Term>, a: nat, i: nat): (lo: nat)
    requires i <= |terms|
    requires i == 0 || StartOf(terms, i) <= a
    ensures i <= lo <= |terms|
    ensures lo == 0 || StartOf(terms, lo) <= a
    ensures lo < |terms| ==> StartOf(terms, lo + 1) > a
    decreases |terms| - i
  {
    if i < |terms| && StartOf(terms, i + 1) <= a then Lo(terms, a, i + 1) else i
  }

  // How many leading terms start at or before byte b.
  function Hi(terms: seq<Term>, b: nat, i: nat): (hi: nat)
    requires i <= |terms|
    requires i == 0 || StartOf(terms, i - 1) <= b
    ensures i <= hi <= |terms|
    ensures hi == 0 || StartOf(terms, hi - 1) <= b
    ensures hi < |terms| ==> StartOf(terms, hi) > b
    decreases |terms| - i
  {
    if i < |terms| && StartOf(terms, i) <= b then Hi(terms, b, i + 1) else i
  }

  // Term boundaries ascend, so all terms before lo end by a, and all from hi on start after b.
  lemma {:induction false} OverlapsInBounds(terms: seq<Term>, a: nat, b: nat, i: nat)
    requires a <= b && i < |terms|
    ensures Overlaps(terms, i, a, b) <==> Lo(terms, a, 0) <= i < Hi(terms, b, 0)
    ensures StartOf(terms, i) <= b && StartOf(terms, i + 1) > a <==> Lo(terms, a, 0) <= i < Hi(terms, b, 0)
  {
    hide StartOf;
    var lo, hi := Lo(terms, a, 0), Hi(terms, b, 0);
    if i < lo {
      StartsAscend(terms, i + 1, lo);
    } else {
      StartsAscend(terms, lo + 1, i + 1);
    }
    if i < hi {
      StartsAscend(terms, i, hi - 1);
    } else {
      StartsAscend(terms, hi, i);
    }
  }

  lemma {:induction false} BoundsAreKept(terms: seq<Term>, a: nat, b: nat)
    requires a <= b && a < TotalSize(terms)
    ensures KeptBounds(terms, a, b, Lo(terms, a, 0), Hi(terms, b, 0))
    ensures Lo(terms, a, 0) < Hi(terms, b, 0) && StartOf(terms, Lo(terms, a, 0)) <= a
  {
    assert StartOf(terms, 0) == 0;
    hide StartOf;
    var lo, hi := Lo(terms, a, 0), Hi(terms, b, 0);
    if hi <= lo {
      StartsAscend(terms, hi, lo);
    }
    forall i | 0 <= i < |terms| ensures Overlaps(terms, i, a, b) <==> lo <= i < hi {
      OverlapsInBounds(terms, a, b, i);
    }
  }

  /** The trimmed answer: the offset into the first kept term, and the kept terms. */
  function Trim(terms: seq<Term>, a: nat, b: nat): (nat, seq<Term>)
    requires a <= b && a < TotalSize(terms)
  {
    BoundsAreKept(terms, a, b);
    (a - StartOf(terms, Lo(terms, a, 0)), terms[Lo(terms, a, 0)..Hi(terms, b, 0)])
  }

  datatype RangeError = PastEnd

  // The loop over terms, as the server runs it.
  method TrimTerms(terms: seq<Term>, rangeStart: nat, rangeEnd: nat) returns (r: Result<(nat, seq<Term>), RangeError>)
    requires rangeStart <= rangeEnd
    ensures r.Err? <==> rangeStart >= TotalSize(terms)
    ensures r.Ok? ==> r.value == Trim(terms, rangeStart, Min(rangeEnd, TotalSize(terms) - 1))
  {
    hide StartOf, Lo, Hi, Trim, Trimmed;
    StartsAtZero(terms);
    var total := 0;
    for i := 0 to |terms|
      invariant total == StartOf(terms, i)
    {
      StartStep(terms, i);
      total := total + terms[i].unpacked;
    }
    if rangeStart >= total { return Err(PastEnd); }
    var end := Min(rangeEnd, total - 1);
    TrimStarts(terms, rangeStart, end);
    var byteOffset, offset: nat, kept: seq<Term> := 0, 0, [];
    for i := 0 to |terms|
      invariant byteOffset == StartOf(terms, i)
      invariant Trimmed(terms, rangeStart, end, i, offset, kept)
    {
      hide *;
      StartStep(terms, i);
      TrimTurn(terms, rangeStart, end, i, offset, kept);
      var termEnd := byteOffset + terms[i].unpacked;
      if byteOffset <= end && termEnd > rangeStart {
        if kept == [] {
          offset := if rangeStart > byteOffset then rangeStart - byteOffset else 0;
        }
        kept := kept + [terms[i]];
      }
      byteOffset := termEnd;
    }
    TrimEnds(terms, rangeStart, end, offset, kept);
    r := Ok((offset, kept));
  }

  // After i terms: the kept part of lo..hi so far, with its offset.
  ghost predicate Trimmed(terms: seq<Term>, a: nat, b: nat, i: nat, offset: nat, kept: seq<Term>)
    requires a <= b && i <= |terms|
  {
    var lo, hi := Lo(terms, a, 0), Hi(terms, b, 0);
    && lo < hi <= |terms| && StartOf(terms, lo) <= a
    && kept == (if i <= lo then [] else terms[lo..Min(i, hi)])
    && (lo < i ==> offset == a - StartOf(terms, lo))
  }

  lemma {:induction false} StartsAtZero(terms: seq<Term>)
    ensures StartOf(terms, 0) == 0 && StartOf(terms, |terms|) == TotalSize(terms)
  {
  }

  lemma {:induction false} TrimStarts(terms: seq<Term>, a: nat, b: nat)
    requires a <= b && a < TotalSize(terms)
    ensures Trimmed(terms, a, b, 0, 0, [])
  {
    BoundsAreKept(terms, a, b);
    hide StartOf, Lo, Hi, KeptBounds;
  }

  lemma {:induction false} TrimEnds(terms: seq<Term>, a: nat, b: nat, offset: nat, kept: seq<Term>)
    requires a <= b && a < TotalSize(terms) && Trimmed(terms, a, b, |terms|, offset, kept)
    ensures (offset, kept) == Trim(terms, a, b)
  {
    hide StartOf, Lo, Hi, KeptBounds;
  }

  lemma {:induction false} TrimTurn(terms: seq<Term>, a: nat, b: nat, i: nat, offset: nat, kept: seq<Term>)
    requires a <= b && i < |terms| && Trimmed(terms, a, b, i, offset, kept)
    ensures !(StartOf(terms, i) <= b && StartOf(terms, i + 1) > a) ==> Trimmed(terms, a, b, i + 1, offset, kept)
    ensures StartOf(terms, i) <= b && StartOf(terms, i + 1) > a ==>
      var next := if kept != [] then offset else if a > StartOf(terms, i) then a - StartOf(terms, i) else 0;
      Trimmed(terms, a, b, i + 1, next, kept + [terms[i]])
  {
    hide StartOf, Lo, Hi, Overlaps;
    OverlapsInBounds(terms, a, b, i);
    var lo, hi := Lo(terms, a, 0), Hi(terms, b, 0);
    if lo <= i < hi {
      SliceGrows(terms, lo, i);
      StartsAscend(terms, lo, i);
    }
  }

  lemma {:induction false} SliceGrows(terms: seq<Term>, lo: nat, i: nat)
    requires lo <= i < |terms|
    ensures terms[lo..i] + [terms[i]] == terms[lo..i + 1]
  {
  }

  // ---- exactness ----

  // What each term unpacks to, at the lengths the terms declare.
  ghost predicate Unpacks(terms: seq<Term>, parts: seq<seq<Byte>>) {
    |parts| == |terms| && forall i :: 0 <= i < |terms| ==> |parts[i]| == terms[i].unpacked
  }

  lemma {:induction false} PartsMatchStarts(terms: seq<Term>, parts: seq<seq<Byte>>)
    requires Unpacks(terms, parts)
    ensures Lens(parts) == TermLens(terms) && |Join(parts)| == TotalSize(terms)
  {
    assert Lens(parts) == TermLens(terms);
    JoinLength(parts);
    assert TermLens(terms)[..|terms|] == TermLens(terms);
  }

  // The parts of the kept terms.
  function KeptParts(terms: seq<Term>, parts: seq<seq<Byte>>, a: nat, b: nat): seq<seq<Byte>>
    requires |parts| == |terms| && a <= b && a < TotalSize(terms)
  {
    BoundsAreKept(terms, a, b);
    parts[Lo(terms, a, 0)..Hi(terms, b, 0)]
  }

  // The kept parts are a slice of the file that reaches from before a to past end.
  lemma {:induction false} KeptIsSlice(terms: seq<Term>, parts: seq<seq<Byte>>, a: nat, end: nat) returns (s: nat, t: nat)
    requires Unpacks(terms, parts) && a <= end < TotalSize(terms)
    ensures s <= a && end < t <= TotalSize(terms) == |Join(parts)|
    ensures Join(KeptParts(terms, parts, a, end)) == Join(parts)[s..t]
    ensures Trim(terms, a, end).0 == a - s
  {
    PartsMatchStarts(terms, parts);
    BoundsAreKept(terms, a, end);
    var lo, hi := Lo(terms, a, 0), Hi(terms, end, 0);
    s, t := StartOf(terms, lo), StartOf(terms, hi);
    StartsAscend(terms, hi, |terms|);
    JoinSlice(parts, lo, hi);
  }

  lemma {:induction false} RangeEnds(a: nat, b: nat, size: nat)
    requires a <= b && a < size
    ensures a <= Min(b, size - 1) < size
  {
  }

  lemma {:induction false} EndInSlice(b: nat, size: nat, t: nat)
    requires 0 < size && Min(b, size - 1) < t <= size
    ensures Min(b + 1, t) == Min(b, size - 1) + 1
  {
  }

  // Slicing the joined kept parts at the returned offset, as the client does, gives exactly
  // the requested bytes, however far past the end of the file the request reaches.
  lemma {:induction false} RangeIsExact(terms: seq<Term>, parts: seq<seq<Byte>>, a: nat, b: nat)
    requires Unpacks(terms, parts) && a <= b && a < TotalSize(terms)
    ensures |Join(parts)| == TotalSize(terms)
    ensures var end := Min(b, TotalSize(terms) - 1);
      var offset := Trim(terms, a, end).0;
      Clip(Join(KeptParts(terms, parts, a, end)), offset, offset + (b - a + 1)) == Join(parts)[a..end + 1]
  {
    hide TotalSize, Trim, KeptParts, Join, Unpacks, StartOf, Lo, Hi, Lens, Clip, Min;
    var end := Min(b, TotalSize(terms) - 1);
    RangeEnds(a, b, TotalSize(terms));
    var s, t := KeptIsSlice(terms, parts, a, end);
    EndInSlice(b, TotalSize(terms), t);
    assert Trim(terms, a, end).0 + (b - a + 1) == b + 1 - s;
    SliceOfSlice(Join(parts), s, t, a, b + 1);
  }

  lemma {:induction false} SliceOfSlice<T>(all: seq<T>, s: nat, t: nat, a: nat, past: nat)
    requires s <= a < t <= |all| && a < past
    ensures Clip(all[s..t], a - s, past - s) == all[a..Min(past, t)]
  {
    var end := Min(past, t);
    var part := all[s..t];
    assert Min(past - s, |part|) == end - s;
    forall k | 0 <= k < end - a ensures part[a - s..end - s][k] == all[a..end][k] {
      assert part[a - s + k] == all[a + k];
    }
  }

  predicate HoldsByte(terms: seq<Term>, i: nat, p: nat)
    requires i < |terms|
  {
    StartOf(terms, i) <= p < StartOf(terms, i + 1)
  }

  // The offset lands inside the first kept term, every kept term of non-zero length holds a
  // requested byte, and no dropped term does: the answer cannot be made smaller.
  lemma {:induction false} TrimIsMinimal(terms: seq<Term>, a: nat, b: nat, i: nat)
    requires a <= b < TotalSize(terms) && i < |terms|
    ensures var lo, hi := Lo(terms, a, 0), Hi(terms, b, 0);
      && lo < hi <= |terms|
      && Trim(terms, a, b).0 < terms[lo].unpacked
      && (lo <= i < hi && terms[i].unpacked > 0 ==> exists p :: a <= p <= b && HoldsByte(terms, i, p))
      && (!(lo <= i < hi) ==> forall p :: a <= p <= b ==> !HoldsByte(terms, i, p))
  {
    BoundsAreKept(terms, a, b);
    OverlapsInBounds(terms, a, b, i);
    OverlapsIfHolds(terms, a, b, i);
    OffsetInFirst(terms, a, b);
    hide StartOf, Lo, Hi, KeptBounds, Trim, HoldsByte, Overlaps;
  }

  lemma {:induction false} OverlapsIfHolds(terms: seq<Term>, a: nat, b: nat, i: nat)
    requires a <= b && i < |terms|
    ensures Overlaps(terms, i, a, b) && terms[i].unpacked > 0 ==> exists p :: a <= p <= b && HoldsByte(terms, i, p)
    ensures !Overlaps(terms, i, a, b) ==> forall p :: a <= p <= b ==> !HoldsByte(terms, i, p)
  {
    StartStep(terms, i);
    hide StartOf;
    if Overlaps(terms, i, a, b) && terms[i].unpacked > 0 {
      assert HoldsByte(terms, i, Max(a, StartOf(terms, i)));
    }
  }

  lemma {:induction false} OffsetInFirst(terms: seq<Term>, a: nat, b: nat)
    requires a <= b && a < TotalSize(terms)
    ensures Lo(terms, a, 0) < |terms| && Trim(terms, a, b).0 < terms[Lo(terms, a, 0)].unpacked
  {
    BoundsAreKept(terms, a, b);
    StartStep(terms, Lo(terms, a, 0));
    hide StartOf, Hi, KeptBounds;
  }
}
