/**
 The text of a Range header: what the client writes (python/src/openxet_fsspec/client.py) and
 what `parse_range_header` makes of it (crates/server/src/routes/reconstruction.rs).
 */
module RangeHeaders {
  import opened Basics

  const U64: nat := 0x1_0000_0000_0000_0000

  /** A request's Range header: absent, not of the form bytes=<u64>-<u64>, or a span. */
  datatype RangeHeader = Absent | Malformed | Span(start: nat, end: nat)

  // ---- decimal numbers ----

  predicate IsDigit(c: char) {
    '0' <= c <= '9'
  }

  function DigitChar(d: nat): (c: char)
    requires d < 10
    ensures IsDigit(c)
  {
    ('0' as int + d) as char
  }

  function Decimal(n: nat): string {
    if n < 10 then [DigitChar(n)] else Decimal(n / 10) + [DigitChar(n % 10)]
  }

  // The value of a digit string; no digits count as zero.
  function Value(s: string): Option<nat> {
    if s == [] then Some(0)
    else if !IsDigit(s[|s| - 1]) then None
    else match Value(s[..|s| - 1])
      case None => None
      case Some(n) => Some(10 * n + (s[|s| - 1] as int - '0' as int))
  }

  // u64::from_str: an optional plus sign, at least one digit, and no overflow.
  function ParseU64(s: string): Option<nat> {
    var digits := if |s| > 1 && s[0] == '+' then s[1..] else s;
    if digits == [] then None
    else match Value(digits)
      case None => None
      case Some(n) => if n < U64 then Some(n) else None
  }

  lemma {:induction false} DecimalDigits(n: nat)
    ensures Decimal(n) != [] && forall i :: 0 <= i < |Decimal(n)| ==> IsDigit(Decimal(n)[i])
    ensures Value(Decimal(n)) == Some(n)
  {
    if n < 10 {
      assert Decimal(n)[..0] == [];
    } else {
      DecimalDigits(n / 10);
      assert Decimal(n)[..|Decimal(n)| - 1] == Decimal(n / 10);
    }
  }

  lemma {:induction false} DecimalParses(n: nat)
    ensures ParseU64(Decimal(n)) == if n < U64 then Some(n) else None
  {
    DecimalDigits(n);
    assert IsDigit(Decimal(n)[0]);
  }

  // ---- the header ----

  // str::split_once
  function SplitOnce(s: string, c: char): Option<(string, string)> {
    if s == [] then None
    else if s[0] == c then Some(([], s[1..]))
    else match SplitOnce(s[1..], c)
      case None => None
      case Some((a, b)) => Some(([s[0]] + a, b))
  }

  lemma {:induction false} SplitsAtFirst(a: string, c: char, b: string)
    requires forall i :: 0 <= i < |a| ==> a[i] != c
    ensures SplitOnce(a + [c] + b, c) == Some((a, b))
  {
    var s := a + [c] + b;
    if a == [] {
      assert s[1..] == b;
    } else {
      SplitsAtFirst(a[1..], c, b);
      assert s[1..] == a[1..] + [c] + b;
      assert [a[0]] + a[1..] == a;
    }
  }

  const PREFIX: string := "bytes="

  // A span whose start lies past its end is refused later, as not satisfiable.
  function ParseRangeHeader(header: Option<string>): RangeHeader {
    match header
    case None => Absent
    case Some(text) =>
      if !(PREFIX <= text) then Malformed
      else match SplitOnce(text[|PREFIX|..], '-')
        case None => Malformed
        case Some((first, last)) =>
          if ParseU64(first).None? || ParseU64(last).None? then Malformed
          else Span(ParseU64(first).value, ParseU64(last).value)
  }

  // The header of `download`: an open end leaves the second number out.
  function ClientHeader(start: Option<nat>, end: Option<nat>): Option<string> {
    if start.None? then None
    else Some(PREFIX + Decimal(start.value) + "-" + if end.None? then [] else Decimal(end.value))
  }

  // How the client's text comes apart again.
  lemma {:induction false} ClientTextSplits(first: string, last: string)
    requires forall i :: 0 <= i < |first| ==> IsDigit(first[i])
    ensures ParseRangeHeader(Some(PREFIX + first + "-" + last)) ==
      if ParseU64(first).None? || ParseU64(last).None? then Malformed
      else Span(ParseU64(first).value, ParseU64(last).value)
  {
    hide ParseU64, SplitOnce;
    SplitsAtFirst(first, '-', last);
    var text := PREFIX + first + "-" + last;
    assert text == PREFIX + (first + ['-'] + last);
    assert text[|PREFIX|..] == first + ['-'] + last;
  }

  // The server reads back what the client wrote when both numbers are given and fit a u64, and
  // refuses it otherwise.
  lemma {:induction false} ClientHeaderParses(start: Option<nat>, end: Option<nat>)
    ensures ParseRangeHeader(ClientHeader(start, end)) ==
      if start.None? then Absent
      else if end.Some? && start.value < U64 && end.value < U64 then Span(start.value, end.value)
      else Malformed
  {
    hide Decimal, ParseU64, SplitOnce;
    if start.Some? {
      DecimalDigits(start.value);
      DecimalParses(start.value);
      NoNumber();
      if end.Some? {
        DecimalParses(end.value);
      }
      hide ParseRangeHeader;
      ClientTextSplits(Decimal(start.value), if end.None? then [] else Decimal(end.value));
    } else {
      assert ClientHeader(start, end) == None;
    }
  }

  // Any text at all: a span exactly if it is "bytes=", a number, a dash and another number, where
  // the first dash is the one that counts.
  lemma {:induction false} ParsesIff(text: string, a: nat, b: nat)
    ensures ParseRangeHeader(Some(text)) == Span(a, b) <==>
      exists first: string, last: string :: Written(text, first, last) && ParseU64(first) == Some(a) && ParseU64(last) == Some(b)
    ensures ParseRangeHeader(Some(text)) != Absent && ParseRangeHeader(None) == Absent
  {
    hide ParseU64, SplitOnce;
    if |text| >= 6 && text[..6] == "bytes=" {
      SplitIs(text[6..]);
      forall first, last | Written(text, first, last) ensures SplitOnce(text[6..], '-') == Some((first, last)) {
        SplitsAtFirst(first, '-', last);
        assert text[6..] == first + ['-'] + last;
      }
      if SplitOnce(text[6..], '-').Some? {
        var (first, last) := SplitOnce(text[6..], '-').value;
        assert Written(text, first, last);
      }
    }
  }

  ghost predicate Written(text: string, first: string, last: string) {
    text == "bytes=" + first + "-" + last && forall i :: 0 <= i < |first| ==> first[i] != '-'
  }

  lemma {:induction false} SplitIs(s: string)
    ensures var r := SplitOnce(s, '-');
      && (r.Some? ==> s == r.value.0 + ['-'] + r.value.1 && forall i :: 0 <= i < |r.value.0| ==> r.value.0[i] != '-')
      && (r.None? ==> forall i :: 0 <= i < |s| ==> s[i] != '-')
  {
    if s != [] && s[0] != '-' {
      SplitIs(s[1..]);
    }
  }

  // A number is an optional plus sign and at least one digit, and below 2^64.
  lemma {:induction false} NumberIff(s: string)
    ensures ParseU64(s).Some? <==>
      var digits := if |s| > 1 && s[0] == '+' then s[1..] else s;
      |digits| > 0 && (forall i :: 0 <= i < |digits| ==> '0' <= digits[i] <= '9')
      && Value(digits).Some? && Value(digits).value <= 18446744073709551615
    ensures ParseU64(s).Some? ==> ParseU64(s) == Value(if |s| > 1 && s[0] == '+' then s[1..] else s)
  {
    var digits := if |s| > 1 && s[0] == '+' then s[1..] else s;
    DigitsHaveValue(digits);
    hide Value;
  }

  lemma {:induction false} DigitsHaveValue(s: string)
    ensures Value(s).Some? <==> forall i :: 0 <= i < |s| ==> '0' <= s[i] <= '9'
  {
    if s != [] {
      DigitsHaveValue(s[..|s| - 1]);
    }
  }

  // Leading zeros and a plus sign change nothing.
  lemma {:induction false} SameNumber(n: nat, zeros: nat)
    requires n <= 18446744073709551615
    ensures ParseU64(seq(zeros, _ => '0') + Decimal(n)) == Some(n)
    ensures ParseU64(['+'] + seq(zeros, _ => '0') + Decimal(n)) == Some(n)
  {
    DecimalDigits(n);
    var zs := seq(zeros, _ => '0');
    ZerosInFront(zs, Decimal(n));
    assert (['+'] + zs + Decimal(n))[1..] == zs + Decimal(n);
    assert (zs + Decimal(n))[0] != '+' by {
      assert zeros == 0 ==> zs + Decimal(n) == Decimal(n);
    }
    hide Value, Decimal;
  }

  lemma {:induction false} ZerosInFront(zs: string, s: string)
    requires forall i :: 0 <= i < |zs| ==> zs[i] == '0'
    ensures Value(zs + s) == Value(s)
  {
    if s == [] {
      assert zs + s == zs;
      if zs != [] {
        ZerosInFront(zs[..|zs| - 1], []);
        assert zs[..|zs| - 1] + [] == zs[..|zs| - 1];
      }
    } else {
      ZerosInFront(zs, s[..|s| - 1]);
      assert (zs + s)[..|zs + s| - 1] == zs + s[..|s| - 1];
    }
  }

  lemma {:induction false} NoNumber()
    ensures ParseU64([]).None?
  {
  }
}
