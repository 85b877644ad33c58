/**
 The two client decoders of a fetched byte range: the Python client's frame loop and the
 wasm client's slice over library-decoded boundaries. On printed frames both return
 exactly the bytes of the requested chunks.
 */
module Decoding {
  import opened Basics
  import opened XetCore
  import opened Frames

  datatype DecodeError = UnsupportedVersion | TruncatedPayload | UnknownType | DecompressionFailed

  // The payload at the head of `data`, where decoding stands.
  function HeadPayload(data: seq<Byte>): (r: Result<(Byte, seq<Byte>), DecodeError>)
    requires HEADER <= |data|
    ensures r.Ok? ==> HEADER + |r.value.1| <= |data|
  {
    if data[0] != 0 then Err(UnsupportedVersion)
    else
      var size := ReadU24(data[1..4]);
      var payload := Clip(data, HEADER, HEADER + size);
      if |payload| < size then Err(TruncatedPayload) else Ok((data[4], payload))
  }

  function DecodePayload(x: Xet, scheme: Byte, payload: seq<Byte>): Result<seq<Byte>, DecodeError> {
    if !KnownScheme(scheme) then Err(UnknownType)
    else match Decompress(x, scheme, payload)
      case None => Err(DecompressionFailed)
      case Some(raw) => Ok(raw)
  }

  function Less(n: nat): nat {
    if n == 0 then 0 else n - 1
  }

  // The chunks start..end of `data`, one after the other.
  function Decode(x: Xet, data: seq<Byte>, start: nat, end: nat): Result<seq<seq<Byte>>, DecodeError>
    decreases |data|
  {
    if HEADER > |data| || end == 0 then Ok([])
    else match HeadPayload(data)
      case Err(e) => Err(e)
      case Ok((scheme, payload)) =>
        var rest := data[HEADER + |payload|..];
        if start > 0 then Decode(x, rest, start - 1, end - 1)
        else match DecodePayload(x, scheme, payload)
          case Err(e) => Err(e)
          case Ok(raw) =>
            match Decode(x, rest, 0, end - 1)
            case Err(e) => Err(e)
            case Ok(more) => Ok([raw] + more)
  }

  function Append(out: seq<seq<Byte>>, rest: Result<seq<seq<Byte>>, DecodeError>): Result<seq<seq<Byte>>, DecodeError> {
    match rest
    case Err(e) => Err(e)
    case Ok(more) => Ok(out + more)
  }

  function Remaining(n: nat, done: nat): nat {
    if done < n then n - done else 0
  }

  // What is left to decode at a position, `idx` chunks in.
  function DecodeFrom(x: Xet, data: seq<Byte>, pos: nat, start: nat, end: nat, idx: nat): Result<seq<seq<Byte>>, DecodeError>
    requires pos <= |data|
  {
    Decode(x, data[pos..], Remaining(start, idx), Remaining(end, idx))
  }

  lemma {:induction false} DecodeTurn(x: Xet, data: seq<Byte>, pos: nat, start: nat, end: nat, idx: nat, out: seq<seq<Byte>>)
    requires pos + HEADER <= |data| && idx < end
    ensures match HeadPayload(data[pos..])
      case Err(e) => DecodeFrom(x, data, pos, start, end, idx) == Err(e)
      case Ok((scheme, payload)) =>
        var next := DecodeFrom(x, data, pos + HEADER + |payload|, start, end, idx + 1);
        if idx < start then DecodeFrom(x, data, pos, start, end, idx) == next
        else match DecodePayload(x, scheme, payload)
          case Err(e) => DecodeFrom(x, data, pos, start, end, idx) == Err(e)
          case Ok(raw) => Append(out, DecodeFrom(x, data, pos, start, end, idx)) == Append(out + [raw], next)
  {
    var here := data[pos..];
    if HeadPayload(here).Ok? {
      var (scheme, payload) := HeadPayload(here).value;
      assert here[HEADER + |payload|..] == data[pos + HEADER + |payload|..];
      var next := DecodeFrom(x, data, pos + HEADER + |payload|, start, end, idx + 1);
      if idx >= start && DecodePayload(x, scheme, payload).Ok? && next.Ok? {
        var raw := DecodePayload(x, scheme, payload).value;
        assert out + ([raw] + next.value) == (out + [raw]) + next.value;
      }
    }
  }

  lemma {:induction false} DecodeEnds(x: Xet, data: seq<Byte>, pos: nat, start: nat, end: nat, idx: nat, out: seq<seq<Byte>>)
    requires pos <= |data|
    ensures pos + HEADER > |data| || idx >= end ==> Append(out, DecodeFrom(x, data, pos, start, end, idx)) == Ok(out)
    ensures Append([], DecodeFrom(x, data, 0, start, end, 0)) == Decode(x, data, start, end)
  {
    assert out + [] == out && data[0..] == data;
    if Decode(x, data, start, end).Ok? {
      assert [] + Decode(x, data, start, end).value == Decode(x, data, start, end).value;
    }
  }

  // client.py `decode_chunks`
  method DecodeChunks(x: Xet, data: seq<Byte>, start: nat, end: nat) returns (r: Result<seq<Byte>, DecodeError>)
    ensures match Decode(x, data, start, end)
      case Ok(parts) => r == Ok(Join(parts))
      case Err(e) => r == Err(e)
  {
    hide Decode, DecodeFrom, HeadPayload, DecodePayload;
    var out: seq<seq<Byte>>, pos, idx := [], 0, 0;
    DecodeEnds(x, data, 0, start, end, 0, []);
    while pos + HEADER <= |data| && idx < end
      invariant pos <= |data| && idx <= end
      invariant Decode(x, data, start, end) == Append(out, DecodeFrom(x, data, pos, start, end, idx))
      decreases |data| - pos
    {
      DecodeTurn(x, data, pos, start, end, idx, out);
      var head := HeadPayload(data[pos..]);
      if head.Err? { return Err(head.error); }
      var (scheme, payload) := head.value;
      pos := pos + HEADER + |payload|;
      if idx >= start {
        var raw := DecodePayload(x, scheme, payload);
        if raw.Err? { return Err(raw.error); }
        out := out + [raw.value];
      }
      idx := idx + 1;
    }
    DecodeEnds(x, data, pos, start, end, idx, out);
    r := Ok(Join(out));
  }

  lemma {:induction false} HeadOfPrinted(f: Frame, rest: seq<Byte>)
    requires |f.payload| < U24 && |f.raw| < U24 && f.version == 0
    ensures HeadPayload(Print(f) + rest) == Ok((f.scheme, f.payload))
    ensures (Print(f) + rest)[HEADER + |f.payload|..] == rest
  {
    var data := Print(f) + rest;
    assert data[1..4] == PrintU24(|f.payload|);
    U24RoundTrip(|f.payload|);
    assert data[HEADER..HEADER + |f.payload|] == f.payload;
  }

  lemma {:induction false} DecodeStep(x: Xet, f: Frame, rest: seq<Byte>, start: nat, end: nat)
    requires WellFormed(x, f) && f.version == 0 && end > 0
    ensures Decode(x, Print(f) + rest, start, end) ==
      if start > 0 then Decode(x, rest, start - 1, end - 1) else Append([f.raw], Decode(x, rest, 0, end - 1))
  {
    HeadOfPrinted(f, rest);
  }

  lemma {:induction false} DecodeNothing(x: Xet, data: seq<Byte>, raws: seq<seq<Byte>>)
    ensures Decode(x, data, 0, 0) == Ok(raws[0..0])
  {
  }

  // Decoding start..end of any printed frames gives exactly those chunks' bytes,
  // whatever follows the frames.
  lemma {:induction false} DecodePrinted(x: Xet, fs: seq<Frame>, tail: seq<Byte>, start: nat, end: nat)
    requires AllWellFormed(x, fs) && OnlyVersionZero(x)
    requires start <= end <= |fs|
    ensures Decode(x, PrintAll(x, fs) + tail, start, end) == Ok(Raws(fs)[start..end])
  {
    hide WellFormed, AllWellFormed, Decode, Print, PrintAll, Append, Raws;
    if end == 0 {
      DecodeNothing(x, PrintAll(x, fs) + tail, Raws(fs));
    } else {
      PrintAllHead(x, fs, tail);
      var f, rest := fs[0], PrintAll(x, fs[1..]) + tail;
      VersionIsZero(x, f);
      DecodeStep(x, f, rest, start, end);
      DecodePrinted(x, fs[1..], tail, Less(start), end - 1);
      RawsTail(fs, start, end);
    }
  }

  lemma {:induction false} VersionIsZero(x: Xet, f: Frame)
    requires WellFormed(x, f) && OnlyVersionZero(x)
    ensures f.version == 0
  {
    assert x.acceptsHeader(HeaderOf(f));
  }

  lemma {:induction false} RawsTail(fs: seq<Frame>, start: nat, end: nat)
    requires start <= end <= |fs| && end > 0
    ensures start > 0 ==> Raws(fs)[start..end] == Raws(fs[1..])[start - 1..end - 1]
    ensures start == 0 ==> Append([fs[0].raw], Ok(Raws(fs[1..])[0..end - 1])) == Ok(Raws(fs)[start..end])
  {
    if start == 0 {
      assert [fs[0].raw] + Raws(fs[1..])[0..end - 1] == Raws(fs)[0..end];
    }
  }

  // ---- crates/wasm/src/lib.rs `decode_chunks_impl` ----

  datatype WasmError = DecodingChunks | OutOfBounds

  function DecodeImpl(x: Xet, data: seq<Byte>, start: nat, end: nat): Result<seq<Byte>, WasmError> {
    match x.deserializeChunks(data)
    case None => Err(DecodingChunks)
    case Some((bytes, boundaries)) =>
      if start > end || end >= |boundaries| then Err(OutOfBounds)
      else Ok(Clip(bytes, boundaries[start], boundaries[end]))
  }

  // What the library decoder promises on frames that unpack to what its u32 boundaries can
  // count: all bytes, and cumulative boundaries starting with 0.
  ghost predicate DecodesFrames(x: Xet) {
    forall fs: seq<Frame> | AllWellFormed(x, fs) && Sum(Lens(Raws(fs))) < U32 ::
      x.deserializeChunks(PrintAll(x, fs)) ==
        Some((Join(Raws(fs)), seq(|fs| + 1, i requires 0 <= i <= |fs| => Sum(Lens(Raws(fs))[..i]))))
  }

  // Both clients decode a fetched slice to the same bytes, and refuse only bad ranges.
  lemma {:induction false} ClientsAgree(x: Xet, fs: seq<Frame>, start: nat, end: nat)
    requires AllWellFormed(x, fs) && OnlyVersionZero(x) && DecodesFrames(x)
    requires Sum(Lens(Raws(fs))) < U32
    ensures DecodeImpl(x, PrintAll(x, fs), start, end).Ok? <==> start <= end <= |fs|
    ensures !(start <= end <= |fs|) ==> DecodeImpl(x, PrintAll(x, fs), start, end) == Err(OutOfBounds)
    ensures start <= end <= |fs| ==>
      && Decode(x, PrintAll(x, fs), start, end).Ok?
      && DecodeImpl(x, PrintAll(x, fs), start, end) == Ok(Join(Decode(x, PrintAll(x, fs), start, end).value))
  {
    hide AllWellFormed, OnlyVersionZero, Decode, PrintAll, Raws, DecodesFrames, DecodeImpl;
    DecodeImplIs(x, fs, start, end);
    if start <= end <= |fs| {
      DecodePrinted(x, fs, [], start, end);
      assert PrintAll(x, fs) + [] == PrintAll(x, fs);
      JoinSlice(Raws(fs), start, end);
    }
  }

  lemma {:induction false} DecodeImplIs(x: Xet, fs: seq<Frame>, start: nat, end: nat)
    requires AllWellFormed(x, fs) && DecodesFrames(x) && Sum(Lens(Raws(fs))) < U32
    ensures !(start <= end <= |fs|) ==> DecodeImpl(x, PrintAll(x, fs), start, end) == Err(OutOfBounds)
    ensures start <= end <= |fs| ==>
      DecodeImpl(x, PrintAll(x, fs), start, end) == Ok(Clip(Join(Raws(fs)), Sum(Lens(Raws(fs))[..start]), Sum(Lens(Raws(fs))[..end])))
  {
    hide AllWellFormed, PrintAll, Raws, Join, Sum, Clip;
  }

  // What the library cannot decode is refused as such.
  lemma {:induction false} UndecodableIsRefused(x: Xet, data: seq<Byte>, start: nat, end: nat)
    requires x.deserializeChunks(data).None?
    ensures DecodeImpl(x, data, start, end) == Err(DecodingChunks)
  {
  }
}
