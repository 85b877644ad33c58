/**
 Chunk frames: the byte layout of a xorb (docs/SPECIFICATION.md section 4.2), the walk that
 reads it back, and the theorems that the walk and the printer undo each other.
 */
module Frames {
  import opened Basics
  import opened XetCore
  import ByteGrouping

  const HEADER: nat := 8
  const U24: nat := 0x100_0000

  /** One chunk frame: the header fields, the compressed payload and the bytes it unpacks to. */
  datatype Frame = Frame(version: Byte, scheme: Byte, payload: seq<Byte>, raw: seq<Byte>)

  datatype WalkError =
    | UnknownScheme(chunk: nat)
    | DecompressFailed(chunk: nat)
    | LengthMismatch(chunk: nat, actual: nat, claimed: nat)

  // ---- header bytes ----

  function PrintU24(n: nat): seq<Byte>
    requires n < U24
  {
    [n % 256, n / 256 % 256, n / 65536]
  }

  function ReadU24(b: seq<Byte>): (n: nat)
    requires |b| == 3
    ensures n < U24
  {
    (b[0] as int) + 256 * (b[1] as int) + 65536 * (b[2] as int)
  }

  lemma {:induction false} U24RoundTrip(n: nat)
    requires n < U24
    ensures ReadU24(PrintU24(n)) == n
  {
    assert n == n % 256 + 256 * (n / 256);
    assert n / 256 == n / 256 % 256 + 256 * (n / 256 / 256);
    assert n / 256 / 256 == n / 65536;
  }

  lemma {:induction false} U24Surjective(b: seq<Byte>)
    requires |b| == 3
    ensures PrintU24(ReadU24(b)) == b
  {
    var n := ReadU24(b);
    assert n % 256 == b[0];
    assert n / 256 == (b[1] as int) + 256 * (b[2] as int);
    assert n / 256 % 256 == b[1];
    assert n / 65536 == b[2];
  }

  function PrintHeader(h: Header): (r: seq<Byte>)
    requires h.compressed < U24 && h.uncompressed < U24
    ensures |r| == HEADER
  {
    [h.version] + PrintU24(h.compressed) + [h.scheme] + PrintU24(h.uncompressed)
  }

  function ReadHeader(b: seq<Byte>): (h: Header)
    requires |b| == HEADER
    ensures h.compressed < U24 && h.uncompressed < U24
  {
    Header(b[0], ReadU24(b[1..4]), b[4], ReadU24(b[5..8]))
  }

  lemma {:induction false} HeaderRoundTrip(h: Header)
    requires h.compressed < U24 && h.uncompressed < U24
    ensures ReadHeader(PrintHeader(h)) == h
  {
    var b := PrintHeader(h);
    assert b[1..4] == PrintU24(h.compressed);
    assert b[5..8] == PrintU24(h.uncompressed);
    U24RoundTrip(h.compressed);
    U24RoundTrip(h.uncompressed);
  }

  lemma {:induction false} HeaderSurjective(b: seq<Byte>)
    requires |b| == HEADER
    ensures PrintHeader(ReadHeader(b)) == b
  {
    U24Surjective(b[1..4]);
    U24Surjective(b[5..8]);
    assert b == [b[0]] + b[1..4] + [b[4]] + b[5..8];
  }

  // ---- payloads ----

  predicate KnownScheme(scheme: Byte) {
    scheme <= 2
  }

  // 0 stores the bytes, 1 is LZ4, 2 is byte grouping followed by LZ4.
  function Decompress(x: Xet, scheme: Byte, payload: seq<Byte>): Option<seq<Byte>>
    requires KnownScheme(scheme)
  {
    if scheme == 0 then Some(payload)
    else match x.lz4(payload)
      case None => None
      case Some(raw) => if scheme == 2 then Some(ByteGrouping.Ungroup(raw)) else Some(raw)
  }

  // ---- frames ----

  function HeaderOf(f: Frame): Header {
    Header(f.version, |f.payload|, f.scheme, |f.raw|)
  }

  ghost predicate WellFormed(x: Xet, f: Frame) {
    && |f.payload| < U24 && |f.raw| < U24
    && x.acceptsHeader(HeaderOf(f))
    && KnownScheme(f.scheme)
    && Decompress(x, f.scheme, f.payload) == Some(f.raw)
  }

  ghost predicate AllWellFormed(x: Xet, fs: seq<Frame>) {
    forall i :: 0 <= i < |fs| ==> WellFormed(x, fs[i])
  }

  function Print(f: Frame): (r: seq<Byte>)
    requires |f.payload| < U24 && |f.raw| < U24
    ensures |r| == HEADER + |f.payload|
  {
    PrintHeader(HeaderOf(f)) + f.payload
  }

  function PrintAll(x: Xet, fs: seq<Frame>): seq<Byte>
    requires AllWellFormed(x, fs)
  {
    if fs == [] then [] else Print(fs[0]) + PrintAll(x, fs[1..])
  }

  function FrameLens(fs: seq<Frame>): (r: seq<nat>)
    ensures |r| == |fs| && forall i :: 0 <= i < |fs| ==> r[i] == HEADER + |fs[i].payload|
  {
    seq(|fs|, i requires 0 <= i < |fs| => HEADER + |fs[i].payload|)
  }

  function Raws(fs: seq<Frame>): (r: seq<seq<Byte>>)
    ensures |r| == |fs| && forall i :: 0 <= i < |fs| ==> r[i] == fs[i].raw
  {
    seq(|fs|, i requires 0 <= i < |fs| => fs[i].raw)
  }

  lemma {:induction false} PrintAllHead(x: Xet, fs: seq<Frame>, tail: seq<Byte>)
    requires AllWellFormed(x, fs) && fs != []
    ensures WellFormed(x, fs[0]) && AllWellFormed(x, fs[1..])
    ensures PrintAll(x, fs) + tail == Print(fs[0]) + (PrintAll(x, fs[1..]) + tail)
  {
  }

  lemma {:induction false} PrintAllConcat(x: Xet, a: seq<Frame>, b: seq<Frame>)
    requires AllWellFormed(x, a) && AllWellFormed(x, b)
    ensures AllWellFormed(x, a + b) && PrintAll(x, a + b) == PrintAll(x, a) + PrintAll(x, b)
  {
    if a == [] {
      assert a + b == b;
    } else {
      hide WellFormed, Print;
      var all := a + b;
      assert all[0] == a[0] && all[1..] == a[1..] + b;
      PrintAllConcat(x, a[1..], b);
      ConcatAssociates(Print(a[0]), PrintAll(x, a[1..]), PrintAll(x, b));
    }
  }

  lemma {:induction false} PrintAllLength(x: Xet, fs: seq<Frame>)
    requires AllWellFormed(x, fs)
    ensures |PrintAll(x, fs)| == Sum(FrameLens(fs))
  {
    if fs != [] {
      PrintAllLength(x, fs[1..]);
      assert FrameLens(fs) == [HEADER + |fs[0].payload|] + FrameLens(fs[1..]);
      SumCons(HEADER + |fs[0].payload|, FrameLens(fs[1..]));
    }
  }

  // ---- reading ----

  /** What stands at the head of a byte string: no complete frame, a broken chunk, or a frame. */
  datatype Head = NoFrame | Broken(error: WalkError) | Got(frame: Frame)

  // One turn of the walk; `chunk` only labels errors.
  function ReadFrame(x: Xet, b: seq<Byte>, chunk: nat): (r: Head)
    ensures r.Got? ==> HEADER + |r.frame.payload| <= |b| && |r.frame.raw| < U24
  {
    if HEADER > |b| then NoFrame
    else
      var h := ReadHeader(b[..HEADER]);
      if !x.acceptsHeader(h) || HEADER + h.compressed > |b| then NoFrame
      else if !KnownScheme(h.scheme) then Broken(UnknownScheme(chunk))
      else
        var payload := b[HEADER..HEADER + h.compressed];
        match Decompress(x, h.scheme, payload)
        case None => Broken(DecompressFailed(chunk))
        case Some(raw) =>
          if |raw| != h.uncompressed then Broken(LengthMismatch(chunk, |raw|, h.uncompressed))
          else Got(Frame(h.version, h.scheme, payload, raw))
  }

  // The frames at the head of `b`, up to the first position that is not a complete frame.
  function Walk(x: Xet, b: seq<Byte>, chunk: nat): Result<seq<Frame>, WalkError>
    decreases |b|
  {
    match ReadFrame(x, b, chunk)
    case NoFrame => Ok([])
    case Broken(e) => Err(e)
    case Got(f) =>
      match Walk(x, b[HEADER + |f.payload|..], chunk + 1)
      case Err(e) => Err(e)
      case Ok(rest) => Ok([f] + rest)
  }

  lemma {:induction false} ReadPrinted(x: Xet, f: Frame, rest: seq<Byte>, chunk: nat)
    requires WellFormed(x, f)
    ensures ReadFrame(x, Print(f) + rest, chunk) == Got(f)
    ensures (Print(f) + rest)[HEADER + |f.payload|..] == rest
  {
    var b := Print(f) + rest;
    assert b[..HEADER] == PrintHeader(HeaderOf(f));
    HeaderRoundTrip(HeaderOf(f));
    assert b[HEADER..HEADER + |f.payload|] == f.payload;
  }

  lemma {:induction false} GotIsPrinted(x: Xet, b: seq<Byte>, chunk: nat)
    requires ReadFrame(x, b, chunk).Got?
    ensures var f := ReadFrame(x, b, chunk).frame;
      WellFormed(x, f) && b == Print(f) + b[HEADER + |f.payload|..]
  {
    var f := ReadFrame(x, b, chunk).frame;
    HeaderSurjective(b[..HEADER]);
    assert b[..HEADER] == PrintHeader(HeaderOf(f));
    assert b == b[..HEADER] + b[HEADER..HEADER + |f.payload|] + b[HEADER + |f.payload|..];
  }

  // Whether bytes start with a complete frame does not depend on the label.
  ghost predicate OpaqueTail(x: Xet, tail: seq<Byte>) {
    ReadFrame(x, tail, 0).NoFrame?
  }

  // Printing any frames, then any tail that is not itself a complete frame, walks back
  // to exactly those frames.
  lemma {:induction false} WalkPrinted(x: Xet, fs: seq<Frame>, tail: seq<Byte>, chunk: nat)
    requires AllWellFormed(x, fs) && OpaqueTail(x, tail)
    ensures Walk(x, PrintAll(x, fs) + tail, chunk) == Ok(fs)
  {
    if fs == [] {
      assert PrintAll(x, fs) + tail == tail;
    } else {
      var rest := PrintAll(x, fs[1..]) + tail;
      assert PrintAll(x, fs) + tail == Print(fs[0]) + rest;
      ReadPrinted(x, fs[0], rest, chunk);
      WalkPrinted(x, fs[1..], tail, chunk + 1);
      assert [fs[0]] + fs[1..] == fs;
    }
  }

  // Conversely, whatever walks is printed frames followed by such a tail.
  lemma {:induction false} WalkedIsPrinted(x: Xet, b: seq<Byte>, chunk: nat) returns (tail: seq<Byte>)
    requires Walk(x, b, chunk).Ok?
    ensures AllWellFormed(x, Walk(x, b, chunk).value) && OpaqueTail(x, tail)
    ensures b == PrintAll(x, Walk(x, b, chunk).value) + tail
    decreases |b|
  {
    match ReadFrame(x, b, chunk) {
      case NoFrame =>
        tail := b;
      case Got(f) =>
        GotIsPrinted(x, b, chunk);
        var rest := b[HEADER + |f.payload|..];
        tail := WalkedIsPrinted(x, rest, chunk + 1);
        var fs := Walk(x, rest, chunk + 1).value;
        assert ([f] + fs)[1..] == fs;
        assert b == Print(f) + (PrintAll(x, fs) + tail) == (Print(f) + PrintAll(x, fs)) + tail;
    }
  }

  lemma {:induction false} PrefixLength(x: Xet, fs: seq<Frame>, i: nat)
    requires AllWellFormed(x, fs) && i <= |fs|
    ensures |PrintAll(x, fs[..i])| == Sum(FrameLens(fs)[..i])
  {
    PrintAllLength(x, fs[..i]);
    assert FrameLens(fs[..i]) == FrameLens(fs)[..i];
  }

  lemma {:induction false} SplitPrinted(x: Xet, fs: seq<Frame>, i: nat)
    requires AllWellFormed(x, fs) && i <= |fs|
    ensures PrintAll(x, fs) == PrintAll(x, fs[..i]) + PrintAll(x, fs[i..])
  {
    assert fs == fs[..i] + fs[i..];
    PrintAllConcat(x, fs[..i], fs[i..]);
  }

  lemma {:induction false} SliceIsPrinted(x: Xet, fs: seq<Frame>, tail: seq<Byte>, i: nat, j: nat)
    requires AllWellFormed(x, fs) && i <= j <= |fs|
    ensures Sum(FrameLens(fs)[..i]) <= Sum(FrameLens(fs)[..j]) <= |PrintAll(x, fs) + tail|
    ensures (PrintAll(x, fs) + tail)[Sum(FrameLens(fs)[..i])..Sum(FrameLens(fs)[..j])] == PrintAll(x, fs[i..j])
  {
    PrefixLength(x, fs, i);
    PrefixLength(x, fs, j);
    SplitPrinted(x, fs, j);
    var front := fs[..j];
    SplitPrinted(x, front, i);
    assert front[..i] == fs[..i] && front[i..] == fs[i..j];
    SliceOfFour(PrintAll(x, fs[..i]), PrintAll(x, fs[i..j]), PrintAll(x, fs[j..]), tail);
  }

  // The frames i..j of a xorb are the bytes between two frame boundaries, and those
  // bytes alone walk to exactly those frames.
  lemma {:induction false} WalkSlice(x: Xet, fs: seq<Frame>, tail: seq<Byte>, i: nat, j: nat)
    requires AllWellFormed(x, fs) && i <= j <= |fs|
    ensures var lo, hi, body := Sum(FrameLens(fs)[..i]), Sum(FrameLens(fs)[..j]), PrintAll(x, fs) + tail;
      lo <= hi <= |body| && Walk(x, body[lo..hi], 0) == Ok(fs[i..j])
  {
    SliceIsPrinted(x, fs, tail, i, j);
    var b := fs[i..j];
    WalkPrinted(x, b, [], 0);
    assert PrintAll(x, b) + [] == PrintAll(x, b);
  }
}
