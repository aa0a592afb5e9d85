/**
  The Range header (section 2.1 of RFC 7233): parsing against a known object
  size, and the length and Content-Range that GET and HEAD announce.
 */
module HttpRange {
  import opened Wrappers

  const MAX_INT64 := 0x7FFF_FFFF_FFFF_FFFF

  /** providers.ByteRange; a negative end means "to the end of the object". */
  datatype ByteRange = ByteRange(start: int, end: int)

  // ---------------------------------------------------------------- decimal integers

  predicate IsDigit(c: char) { '0' <= c <= '9' }

  function DigitValue(c: char): nat
    requires IsDigit(c)
  {
    (c - '0') as nat
  }

  function Digits(s: string): Option<nat> {
    if s == [] then Some(0)
    else
      var before := Digits(s[..|s| - 1]);
      if before.None? || !IsDigit(s[|s| - 1]) then None
      else Some(before.value * 10 + DigitValue(s[|s| - 1]))
  }

  /** strconv.ParseInt(s, 10, 64). */
  function ParseInt(s: string): Option<int> {
    var negative := s != [] && s[0] == '-';
    var body := if s != [] && s[0] in {'-', '+'} then s[1..] else s;
    if body == [] then None
    else
      match Digits(body)
      case None => None
      case Some(v) =>
        if negative then (if v <= MAX_INT64 + 1 then Some(0 - v as int) else None)
        else if v <= MAX_INT64 then Some(v) else None
  }

  /** fmt's %d for a non-negative number. */
  function Decimal(n: nat): (s: string)
    ensures s != [] && IsDigit(s[0])
  {
    if n < 10 then ['0' + n as char] else Decimal(n / 10) + ['0' + (n % 10) as char]
  }

  lemma {:induction false} DecimalDigits(n: nat)
    ensures Digits(Decimal(n)) == Some(n) && forall i :: 0 <= i < |Decimal(n)| ==> IsDigit(Decimal(n)[i])
  {
    var s := Decimal(n);
    if n < 10 {
      assert s[..0] == [];
    } else {
      DecimalDigits(n / 10);
      assert s[..|s| - 1] == Decimal(n / 10);
    }
  }

  // ---------------------------------------------------------------- the header

  const UNIT := "bytes="

  /** strings.IndexByte(s, c), or |s| when absent. */
  function IndexOf(s: string, c: char): (i: nat)
    ensures i <= |s| && (i < |s| ==> s[i] == c) && forall j :: 0 <= j < i ==> s[j] != c
  {
    if s == [] || s[0] == c then 0 else 1 + IndexOf(s[1..], c)
  }

  function ParseSuffix(endStr: string, size: nat): Option<ByteRange> {
    match ParseInt(endStr)
    case None => None
    case Some(n) =>
      var suffix := if n > size then size else n;
      if suffix <= 0 then None else Some(ByteRange(size - suffix, size - 1))
  }

  function ParseSpan(startStr: string, endStr: string, size: nat): Option<ByteRange> {
    var start := ParseInt(startStr);
    var last := if endStr == "" then Some(-1) else ParseInt(endStr);
    if start.None? || last.None? then None
    else
      var end := if last.value >= size then size - 1 else last.value;
      if start.value < 0 || start.value >= size || (end >= 0 && start.value > end) then None
      else Some(ByteRange(start.value, end))
  }

  function ParseHTTPRange(h: string, size: nat): Option<ByteRange> {
    if !(UNIT <= h) then None
    else
      var spec := h[|UNIT|..];
      var dash := IndexOf(spec, '-');
      if ',' in spec || dash == |spec| then None
      else if dash == 0 then ParseSuffix(spec[1..], size)
      else ParseSpan(spec[..dash], spec[dash + 1..], size)
  }

  // ---------------------------------------------------------------- what a range means

  /** Last position of the range in a representation of n bytes. */
  function Last(r: ByteRange, n: nat): int { if r.end < 0 || r.end >= n then n - 1 else r.end }

  /** A range that lies inside a representation of n bytes. */
  predicate Satisfiable(r: ByteRange, n: nat) { 0 <= r.start <= Last(r, n) && r.end < n }

  /** Every accepted header names a non-empty range inside the object. */
  lemma AcceptedIsSatisfiable(h: string, size: nat)
    requires ParseHTTPRange(h, size).Some?
    ensures Satisfiable(ParseHTTPRange(h, size).value, size)
  {}

  lemma SplitAtDash(first: string, rest: string)
    requires '-' !in first
    ensures IndexOf(first + "-" + rest, '-') == |first|
  {
    var s := first + "-" + rest;
    assert s[|first|] == '-' && forall i :: 0 <= i < |first| ==> s[i] == first[i] && first[i] in first;
  }

  lemma ParsesSpec(first: string, rest: string, size: nat)
    requires '-' !in first && first != "" && ',' !in first && ',' !in rest
    ensures ParseHTTPRange(UNIT + (first + "-" + rest), size) == ParseSpan(first, rest, size)
  {
    SplitAtDash(first, rest);
    var spec := first + "-" + rest;
    assert (UNIT + spec)[|UNIT|..] == spec;
    assert spec[..|first|] == first && spec[|first| + 1..] == rest;
  }

  /** A position in the RFC's sense, one or more digits, of value v. */
  ghost predicate Position(s: string, v: nat) { s != "" && Digits(s) == Some(v) && v <= MAX_INT64 }

  lemma ParsesPosition(s: string, v: nat)
    requires Position(s, v)
    ensures ParseInt(s) == Some(v) && '-' !in s && ',' !in s
  {
    DigitsAreDigits(s);
    assert s[0] in s;
  }

  /** A position beyond 64 bits is refused, wherever it stands. */
  lemma HugePositionRejected(s: string, v: nat, other: string, size: nat)
    requires s != "" && Digits(s) == Some(v) && v > MAX_INT64 && ',' !in other
    ensures ParseHTTPRange(UNIT + (s + "-" + other), size) == None
    ensures ParseHTTPRange(UNIT + ("-" + s), size) == None
    ensures '-' !in other && other != "" ==> ParseHTTPRange(UNIT + (other + "-" + s), size) == None
  {
    HugeIsNoNumber(s, v);
    ParsesSpec(s, other, size);
    if '-' !in other && other != "" { ParsesSpec(other, s, size); }
    ParsesSuffixSpec(s, size);
  }

  lemma HugeIsNoNumber(s: string, v: nat)
    requires s != "" && Digits(s) == Some(v) && v > MAX_INT64
    ensures ParseInt(s) == None && '-' !in s && ',' !in s
  {
    DigitsAreDigits(s);
    assert s[0] in s;
  }

  lemma ParsesSuffixSpec(length: string, size: nat)
    requires ',' !in length
    ensures ParseHTTPRange(UNIT + ("-" + length), size) == ParseSuffix(length, size)
  {
    SplitAtDash("", length);
    var spec := "-" + length;
    assert "" + "-" + length == spec;
    assert (UNIT + spec)[|UNIT|..] == spec && spec[1..] == length;
  }

  /** "bytes=first-last": exactly the satisfiable ranges, with the last position capped at the object's. */
  lemma ParsesSpan(first: string, a: nat, last: string, b: nat, size: nat)
    requires Position(first, a) && Position(last, b)
    ensures ParseHTTPRange(UNIT + (first + "-" + last), size)
         == if a < size && a <= b then Some(ByteRange(a, if b < size then b else size - 1)) else None
  {
    ParsesPosition(first, a);
    ParsesPosition(last, b);
    ParsesSpec(first, last, size);
  }

  /** "bytes=first-": from first to the end. */
  lemma ParsesOpenSpan(first: string, a: nat, size: nat)
    requires Position(first, a)
    ensures ParseHTTPRange(UNIT + (first + "-" + ""), size) == if a < size then Some(ByteRange(a, -1)) else None
  {
    ParsesPosition(first, a);
    ParsesSpec(first, "", size);
  }

  /** "bytes=-n": the last n bytes, the whole object when n exceeds its size. */
  lemma ParsesSuffix(length: string, n: nat, size: nat)
    requires Position(length, n)
    ensures ParseHTTPRange(UNIT + ("-" + length), size)
         == if n == 0 || size == 0 then None else Some(ByteRange(if n > size then 0 else size - n, size - 1))
  {
    ParsesPosition(length, n);
    ParsesSuffixSpec(length, size);
  }

  // ---------------------------------------------------------------- the RFC's grammar

  predicate AllDigits(s: string) { forall c :: c in s ==> IsDigit(c) }

  /** first-byte-pos "-" [ last-byte-pos ], or "-" suffix-length: every number is one or more digits. */
  ghost predicate InGrammar(spec: string) {
    exists first, last :: spec == first + "-" + last && AllDigits(first) && AllDigits(last) && first + last != ""
  }

  predicate OneDash(s: string) {
    exists i :: 0 <= i < |s| && s[i] == '-' && forall j :: 0 <= j < |s| && j != i ==> s[j] != '-'
  }

  lemma {:induction false} DigitsAreDigits(s: string)
    ensures Digits(s).Some? ==> AllDigits(s)
  {
    if s != "" && Digits(s).Some? {
      DigitsAreDigits(s[..|s| - 1]);
      assert s == s[..|s| - 1] + [s[|s| - 1]];
    }
  }

  /** A number strconv accepts is digits exactly when it has no sign. */
  lemma ParsedIsDigitsIff(s: string)
    requires ParseInt(s).Some?
    ensures s != "" && (AllDigits(s) <==> '+' !in s && '-' !in s)
  {
    var body := if s[0] in {'-', '+'} then s[1..] else s;
    DigitsAreDigits(body);
    assert s[0] in s;
  }

  lemma GrammarIsUnsigned(spec: string)
    requires InGrammar(spec)
    ensures '+' !in spec && OneDash(spec)
  {
    var first, last :| spec == first + "-" + last && AllDigits(first) && AllDigits(last) && first + last != "";
    assert spec[|first|] == '-';
    forall j | 0 <= j < |spec| && j != |first|
      ensures spec[j] != '-'
    {
      if j < |first| {
        assert spec[j] == first[j] && first[j] in first;
      } else {
        assert spec[j] == last[j - |first| - 1] && last[j - |first| - 1] in last;
      }
    }
  }

  /** An accepted spec falls apart at its first dash into numbers strconv accepts, one of which may be missing. */
  lemma AcceptedParts(h: string, size: nat)
    requires ParseHTTPRange(h, size).Some?
    ensures UNIT <= h
    ensures var spec := h[|UNIT|..];
            var dash := IndexOf(spec, '-');
            && dash < |spec| && (dash > 0 ==> ParseInt(spec[..dash]).Some?)
            && (spec[dash + 1..] != "" ==> ParseInt(spec[dash + 1..]).Some?) && |spec| > 1
  {
    var spec := h[|UNIT|..];
    var dash := IndexOf(spec, '-');
    if dash == 0 { assert spec[..0] == ""; }
  }

  lemma PartIsDigits(s: string)
    requires (s != "" ==> ParseInt(s).Some?) && '+' !in s && '-' !in s
    ensures AllDigits(s)
  {
    if s != "" { ParsedIsDigitsIff(s); }
  }

  lemma NoFurtherDash(spec: string, dash: nat)
    requires OneDash(spec) && dash < |spec| && spec[dash] == '-'
    ensures '-' !in spec[..dash] && '-' !in spec[dash + 1..]
  {
    var i :| 0 <= i < |spec| && spec[i] == '-' && forall j :: 0 <= j < |spec| && j != i ==> spec[j] != '-';
    assert i == dash;
  }

  lemma UnsignedIsGrammar(spec: string, dash: nat)
    requires dash < |spec| && spec[dash] == '-' && |spec| > 1 && '+' !in spec && OneDash(spec)
    requires AllDigits(spec[..dash]) && AllDigits(spec[dash + 1..])
    ensures InGrammar(spec)
  {
    var first, last := spec[..dash], spec[dash + 1..];
    assert spec == first + "-" + last;
    assert |first + last| > 0;
  }

  /**
    The parser accepts more than the RFC's grammar: numbers may carry a sign.  An
    accepted header is in the grammar exactly when it has no plus sign and no second dash.
   */
  lemma AcceptedInGrammarIff(h: string, size: nat)
    requires ParseHTTPRange(h, size).Some?
    ensures UNIT <= h && (InGrammar(h[|UNIT|..]) <==> '+' !in h[|UNIT|..] && OneDash(h[|UNIT|..]))
  {
    AcceptedParts(h, size);
    var spec := h[|UNIT|..];
    if InGrammar(spec) { GrammarIsUnsigned(spec); }
    if '+' !in spec && OneDash(spec) {
      var dash := IndexOf(spec, '-');
      NoFurtherDash(spec, dash);
      PartIsDigits(spec[..dash]);
      PartIsDigits(spec[dash + 1..]);
      UnsignedIsGrammar(spec, dash);
    }
  }

  /** A negative last position reads as "to the end". */
  lemma NegativeLastIsOpen(first: string, last: string, start: nat, end: int, size: nat)
    requires '-' !in first && first != "" && ',' !in first && ',' !in last && last != ""
    requires ParseInt(first) == Some(start) && ParseInt(last) == Some(end) && start < size && end < 0
    ensures ParseHTTPRange(UNIT + (first + "-" + last), size) == Some(ByteRange(start, end))
    ensures Last(ByteRange(start, end), size) == size - 1
  {
    ParsesSpec(first, last, size);
  }

  /** "bytes=5--3" is accepted for ten bytes as the bytes from 5, and is not in the grammar. */
  lemma DoubleDashAccepted()
    ensures ParseHTTPRange(UNIT + ("5" + "-" + "-3"), 10) == Some(ByteRange(5, -3))
    ensures Last(ByteRange(5, -3), 10) == 9 && !InGrammar("5" + "-" + "-3")
  {
    assert "5"[..0] == "" && Digits("5") == Some(5);
    assert "-3"[1..] == "3" && "3"[..0] == "" && Digits("3") == Some(3);
    NegativeLastIsOpen("5", "-3", 5, -3, 10);
    var spec := "5" + "-" + "-3";
    assert spec[1] == '-' && spec[2] == '-';
    if InGrammar(spec) { GrammarIsUnsigned(spec); }
  }

  /** "bytes=+5-7" is accepted for ten bytes as 5 to 7, and is not in the grammar. */
  lemma PlusSignAccepted()
    ensures ParseHTTPRange(UNIT + ("+5" + "-" + "7"), 10) == Some(ByteRange(5, 7))
    ensures !InGrammar("+5" + "-" + "7")
  {
    assert "+5"[1..] == "5" && "5"[..0] == "" && Digits("5") == Some(5);
    assert "7"[..0] == "" && Digits("7") == Some(7);
    ParsesSpec("+5", "7", 10);
    var spec := "+5" + "-" + "7";
    assert spec[0] == '+';
    if InGrammar(spec) { GrammarIsUnsigned(spec); }
  }

  // ---------------------------------------------------------------- what is announced

  /** The Content-Length of a ranged GET or HEAD. */
  function AnnouncedLength(r: ByteRange, size: nat): int {
    (if r.end < 0 then size - 1 else r.end) - r.start + 1
  }

  /** fmt.Sprintf("bytes %d-%d/%d"). */
  function FormatContentRange(r: ByteRange, total: nat): string
    requires 0 <= r.start && (r.end >= 0 || total > 0)
  {
    "bytes " + Decimal(r.start) + "-" + Decimal(if r.end < 0 then total - 1 else r.end) + "/" + Decimal(total)
  }

  /** The middle of a Content-Range, between "bytes " and the slash. */
  function SpanText(r: ByteRange, total: nat): string
    requires 0 <= r.start && (r.end >= 0 || total > 0)
  {
    Decimal(r.start) + "-" + Decimal(if r.end < 0 then total - 1 else r.end)
  }

  /** The Content-Range is "bytes ", the span, a slash and the total. */
  lemma ContentRangeParts(r: ByteRange, total: nat)
    requires 0 <= r.start && (r.end >= 0 || total > 0)
    ensures FormatContentRange(r, total) == "bytes " + SpanText(r, total) + ("/" + Decimal(total))
  {
    var end := Decimal(if r.end < 0 then total - 1 else r.end);
    Regroup("bytes ", Decimal(r.start), "-", end, "/", Decimal(total));
  }

  lemma Regroup(a: string, b: string, c: string, d: string, e: string, f: string)
    ensures a + b + c + d + e + f == a + (b + c + d) + (e + f)
  {}

  /** The span of an accepted range's Content-Range asks, as a Range, for exactly the announced bytes. */
  lemma ContentRangeRoundTrip(r: ByteRange, size: nat)
    requires Satisfiable(r, size) && size <= MAX_INT64
    ensures FormatContentRange(r, size) == "bytes " + SpanText(r, size) + ("/" + Decimal(size))
    ensures ParseHTTPRange(UNIT + SpanText(r, size), size) == Some(ByteRange(r.start, Last(r, size)))
    ensures Last(r, size) - r.start + 1 == AnnouncedLength(r, size)
  {
    ContentRangeParts(r, size);
    DecimalDigits(r.start);
    DecimalDigits(Last(r, size));
    ParsesSpan(Decimal(r.start), r.start, Decimal(Last(r, size)), Last(r, size), size);
  }
}
