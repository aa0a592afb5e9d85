/**
  Erasure coding: framing and striping of an object, and the decoder that
  rebuilds it from the shards that survive.  The Reed-Solomon code is a
  parameter with its law stated.  As in the encoder, an empty byte string
  stands for a missing shard.
 */
module ErasureCoding {
  import opened Wrappers

  type Byte = b: int | 0 <= b < 256
  type Bytes = seq<Byte>

  /** k data shards, m parity shards, `size` bytes per shard. */
  datatype Profile = Profile(k: nat, m: nat, size: nat) {
    predicate Valid() { k > 0 && m > 0 && size > 0 }

    function Total(): nat { k + m }

    function StripeLength(): nat { k * size }
  }

  datatype Shard = Shard(stripe: nat, index: nat, bytes: Bytes)

  /** `parity` computes the parity shards of k data shards; `rebuild` recovers the data shards of a gapped stripe. */
  datatype Codec = Codec(parity: seq<Bytes> -> seq<Bytes>, rebuild: seq<Bytes> -> Option<seq<Bytes>>)

  /** The stripe with the given data shards, parity included. */
  function FullStripe(c: Codec, data: seq<Bytes>): seq<Bytes> { data + c.parity(data) }

  function Present(stripe: seq<Bytes>): nat {
    if stripe == [] then 0
    else Present(stripe[..|stripe| - 1]) + (if stripe[|stripe| - 1] != [] then 1 else 0)
  }

  /** A stripe some of whose shards may be missing, the others intact. */
  ghost predicate Survives(stripe: seq<Bytes>, full: seq<Bytes>) {
    |stripe| == |full| && forall i :: 0 <= i < |full| && stripe[i] != [] ==> stripe[i] == full[i]
  }

  ghost predicate Uniform(shards: seq<Bytes>, n: nat, size: nat) {
    |shards| == n && forall i :: 0 <= i < n ==> |shards[i]| == size
  }

  /** The Reed-Solomon law: any k of the k + m shards determine the data shards. */
  ghost predicate Lawful(c: Codec, p: Profile) {
    && (forall data :: Uniform(data, p.k, p.size) ==> Uniform(c.parity(data), p.m, p.size))
    && (forall data, stripe ::
          Uniform(data, p.k, p.size) && Survives(stripe, FullStripe(c, data)) && Present(stripe) >= p.k ==>
            c.rebuild(stripe) == Some(data))
  }

  // ---------------------------------------------------------------- the law is satisfiable

  /** Byte j of every shard, added up; a missing shard counts for nothing. */
  function Column(shards: seq<Bytes>, j: nat): nat {
    if shards == [] then 0
    else
      var last := shards[|shards| - 1];
      Column(shards[..|shards| - 1], j) + (if j < |last| then last[j] else 0)
  }

  function FirstGap(shards: seq<Bytes>): (i: nat)
    ensures i <= |shards| && (i < |shards| ==> shards[i] == []) && forall l :: 0 <= l < i ==> shards[l] != []
  {
    if shards == [] || shards[0] == [] then 0 else 1 + FirstGap(shards[1..])
  }

  /** One parity shard, the column sums modulo 256. */
  function ParityCode(k: nat, size: nat): Codec {
    Codec(data => [seq(size, j requires j >= 0 => Column(data, j) % 256)],
          stripe =>
            if |stripe| != k + 1 then None
            else
              var data, gap := stripe[..k], FirstGap(stripe[..k]);
              if gap == k then Some(data)
              else
                var parity := stripe[k];
                Some(data[gap := seq(size, j requires j >= 0 =>
                                     ((if j < |parity| then parity[j] else 0) - Column(data, j)) % 256)]))
  }

  lemma {:induction false} ColumnWithout(data: seq<Bytes>, stripe: seq<Bytes>, i: nat, j: nat)
    requires i < |data| == |stripe| && stripe[i] == [] && j < |data[i]|
    requires forall l :: 0 <= l < |data| && l != i ==> stripe[l] == data[l]
    ensures Column(data, j) == Column(stripe, j) + data[i][j]
  {
    var n := |data| - 1;
    if i < n {
      ColumnWithout(data[..n], stripe[..n], i, j);
    } else {
      assert data[..n] == stripe[..n];
    }
  }

  lemma {:induction false} OneGap(stripe: seq<Bytes>, i: nat, l: nat)
    requires i < l < |stripe| && stripe[i] == [] && stripe[l] == []
    ensures Present(stripe) <= |stripe| - 2
  {
    var n := |stripe| - 1;
    if l < n {
      OneGap(stripe[..n], i, l);
    } else {
      AGap(stripe[..n], i);
    }
  }

  lemma {:induction false} AGap(stripe: seq<Bytes>, i: nat)
    requires i < |stripe| && stripe[i] == []
    ensures Present(stripe) <= |stripe| - 1
  {
    var n := |stripe| - 1;
    if i < n { AGap(stripe[..n], i); } else { PresentBound(stripe[..n]); }
  }

  lemma Recovers(d: Byte, total: nat, rest: nat)
    requires total == rest + d
    ensures (total % 256 - rest) % 256 == d
  {}

  lemma ParityRebuilds(p: Profile, data: seq<Bytes>, stripe: seq<Bytes>)
    requires p.Valid() && p.m == 1 && Uniform(data, p.k, p.size)
    requires Survives(stripe, FullStripe(ParityCode(p.k, p.size), data)) && Present(stripe) >= p.k
    ensures ParityCode(p.k, p.size).rebuild(stripe) == Some(data)
  {
    var full, gap := FullStripe(ParityCode(p.k, p.size), data), FirstGap(stripe[..p.k]);
    assert |full| == p.k + 1 && forall i :: 0 <= i < p.k ==> full[i] == data[i];
    if gap == p.k {
      assert stripe[..p.k] == data;
    } else {
      assert stripe[gap] == [];
      forall l | 0 <= l <= p.k && l != gap
        ensures stripe[l] == full[l]
      {
        if stripe[l] == [] {
          if l < gap { OneGap(stripe, l, gap); } else { OneGap(stripe, gap, l); }
        }
      }
      forall j | 0 <= j < p.size
        ensures (stripe[p.k][j] - Column(stripe[..p.k], j)) % 256 == data[gap][j]
      {
        ColumnWithout(data, stripe[..p.k], gap, j);
        Recovers(data[gap][j], Column(data, j), Column(stripe[..p.k], j));
      }
      var rebuilt := ParityCode(p.k, p.size).rebuild(stripe).value;
      assert rebuilt[gap] == data[gap];
      assert rebuilt == data;
    }
  }

  /** With one parity shard, whatever the number of data shards, column sums are a code. */
  lemma ParityIsLawful(p: Profile)
    requires p.Valid() && p.m == 1
    ensures Lawful(ParityCode(p.k, p.size), p)
  {
    forall data, stripe |
      && Uniform(data, p.k, p.size) && Survives(stripe, FullStripe(ParityCode(p.k, p.size), data))
      && Present(stripe) >= p.k
      ensures ParityCode(p.k, p.size).rebuild(stripe) == Some(data)
    {
      ParityRebuilds(p, data, stripe);
    }
  }

  // ---------------------------------------------------------------- framing

  const HEADER := 8
  const U64 := 0x1_0000_0000_0000_0000

  /** Big-endian in n bytes. */
  function Word(v: nat, n: nat): Bytes {
    if n == 0 then [] else Word(v / 256, n - 1) + [v % 256]
  }

  function Unword(b: Bytes): nat {
    if b == [] then 0 else Unword(b[..|b| - 1]) * 256 + b[|b| - 1]
  }

  function Pow256(n: nat): nat { if n == 0 then 1 else 256 * Pow256(n - 1) }

  lemma {:induction false} WordRoundTrip(v: nat, n: nat)
    requires v < Pow256(n)
    ensures |Word(v, n)| == n && Unword(Word(v, n)) == v
  {
    if n > 0 {
      WordRoundTrip(v / 256, n - 1);
      var b := Word(v, n);
      assert b[..|b| - 1] == Word(v / 256, n - 1);
    }
  }

  lemma HeaderRoundTrip(v: nat)
    requires v < U64
    ensures |Word(v, HEADER)| == HEADER && Unword(Word(v, HEADER)) == v
  {
    assert Pow256(2) == 0x1_0000 && Pow256(4) == 0x1_0000_0000 && Pow256(6) == 0x1_0000_0000_0000;
    WordRoundTrip(v, HEADER);
  }

  function Zeros(n: nat): Bytes { seq(n, i => 0) }

  function StripeCount(p: Profile, length: nat): nat
    requires p.Valid()
  {
    StripeLengthPositive(p);
    if length == 0 then 1 else (length + p.StripeLength() - 1) / p.StripeLength()
  }

  lemma StripeLengthPositive(p: Profile)
    requires p.Valid()
    ensures p.StripeLength() > 0
  {
    assert p.k * p.size >= p.size;
  }

  /** The length header, the body, and zeros up to a whole number of stripes. */
  function Framed(p: Profile, body: Bytes): Bytes
    requires p.Valid()
  {
    var framed := Word(|body|, HEADER) + body;
    var n := StripeCount(p, |framed|) * p.StripeLength();
    framed + Zeros(if n >= |framed| then n - |framed| else 0)
  }

  lemma FramedShape(p: Profile, body: Bytes)
    requires p.Valid() && |body| < U64
    ensures |Framed(p, body)| == StripeCount(p, HEADER + |body|) * p.StripeLength()
    ensures |Framed(p, body)| >= HEADER + |body| && Framed(p, body)[..HEADER] == Word(|body|, HEADER)
    ensures Framed(p, body)[HEADER..HEADER + |body|] == body
  {
    HeaderRoundTrip(|body|);
    StripeLengthPositive(p);
    CeilingCovers(HEADER + |body|, p.StripeLength());
  }

  lemma CeilingCovers(len: nat, stripe: nat)
    requires len > 0 && stripe > 0
    ensures (len + stripe - 1) / stripe * stripe >= len
  {
    var q := (len + stripe - 1) / stripe;
    assert q * stripe + (len + stripe - 1) % stripe == len + stripe - 1;
  }

  /** How a decode ends; a slice whose end lies before its start is a panic. */
  datatype Decoding = Decoded(bytes: Bytes) | Rejected | Panicked

  /** What Decode does with the concatenated data shards: read the length, wrap at 64 bits, trim. */
  function Unframe(framed: Bytes): Decoding {
    if |framed| < HEADER then Rejected
    else
      var end := (HEADER + Unword(framed[..HEADER])) % U64;
      if end > |framed| then Rejected else if end < HEADER then Panicked else Decoded(framed[HEADER..end])
  }

  /** The decoder panics exactly on a declared length within eight of 2^64. */
  lemma PanicsIff(framed: Bytes)
    ensures Unframe(framed) == Panicked <==> |framed| >= HEADER && Unword(framed[..HEADER]) >= U64 - HEADER
  {
    if |framed| >= HEADER { UnwordBound(framed[..HEADER]); }
  }

  lemma {:induction false} UnwordBound(b: Bytes)
    ensures Unword(b) < Pow256(|b|)
  {
    if b != [] { UnwordBound(b[..|b| - 1]); }
  }

  lemma UnframeFramed(p: Profile, body: Bytes)
    requires p.Valid() && |body| < U64 - HEADER
    ensures Unframe(Framed(p, body)) == Decoded(body)
  {
    FramedShape(p, body);
    HeaderRoundTrip(|body|);
    UnframeShape(Framed(p, body), |body|);
  }

  lemma UnframeShape(framed: Bytes, n: nat)
    requires HEADER + n <= |framed| && HEADER + n < U64 && Unword(framed[..HEADER]) == n
    ensures Unframe(framed) == Decoded(framed[HEADER..HEADER + n])
  {
    assert (HEADER + n) % U64 == HEADER + n;
  }

  // ---------------------------------------------------------------- striping

  /** A buffer of n * size bytes as n consecutive slices. */
  function Cut(b: Bytes, n: nat, size: nat): (parts: seq<Bytes>)
    requires |b| == n * size
    ensures Uniform(parts, n, size)
  {
    if n == 0 then []
    else
      assert |b| - size == (n - 1) * size;
      Cut(b[..|b| - size], n - 1, size) + [b[|b| - size..]]
  }

  function Flatten(parts: seq<Bytes>): Bytes {
    if parts == [] then [] else Flatten(parts[..|parts| - 1]) + parts[|parts| - 1]
  }

  lemma FlattenSnoc(parts: seq<Bytes>, last: Bytes)
    ensures Flatten(parts + [last]) == Flatten(parts) + last
  {
    assert (parts + [last])[..|parts|] == parts;
  }

  lemma {:induction false} FlattenCut(b: Bytes, n: nat, size: nat)
    requires |b| == n * size
    ensures Flatten(Cut(b, n, size)) == b
  {
    if n > 0 {
      assert |b| - size == (n - 1) * size;
      var rest, last := b[..|b| - size], b[|b| - size..];
      FlattenCut(rest, n - 1, size);
      FlattenSnoc(Cut(rest, n - 1, size), last);
      assert rest + last == b;
    }
  }

  /** The object's stripes, before parity. */
  function StripesOf(p: Profile, body: Bytes): (stripes: seq<Bytes>)
    requires p.Valid() && |body| < U64
    ensures Uniform(stripes, StripeCount(p, HEADER + |body|), p.StripeLength())
  {
    FramedShape(p, body);
    Cut(Framed(p, body), StripeCount(p, HEADER + |body|), p.StripeLength())
  }

  /** The k + m shards Encode writes for one stripe. */
  function ShardsOfStripe(c: Codec, p: Profile, stripe: Bytes): seq<Bytes>
    requires |stripe| == p.StripeLength()
  {
    FullStripe(c, Cut(stripe, p.k, p.size))
  }

  function Labelled(stripe: nat, shards: seq<Bytes>): seq<Shard> {
    seq(|shards|, i requires 0 <= i < |shards| => Shard(stripe, i, shards[i]))
  }

  /** The shards of the first s stripes, stripe-major. */
  function Encoded(c: Codec, p: Profile, body: Bytes, s: nat): seq<Shard>
    requires p.Valid() && |body| < U64 && s <= |StripesOf(p, body)|
  {
    if s == 0 then []
    else Encoded(c, p, body, s - 1) + Labelled(s - 1, ShardsOfStripe(c, p, StripesOf(p, body)[s - 1]))
  }

  function Encode(c: Codec, p: Profile, body: Bytes): seq<Shard>
    requires p.Valid() && |body| < U64
  {
    Encoded(c, p, body, |StripesOf(p, body)|)
  }

  /** The shard written for (stripe s, index i). */
  function Written(c: Codec, p: Profile, body: Bytes, s: nat, i: nat): Bytes
    requires p.Valid() && |body| < U64 && s < |StripesOf(p, body)|
  {
    var shards := ShardsOfStripe(c, p, StripesOf(p, body)[s]);
    if i < |shards| then shards[i] else []
  }

  /** Encode writes exactly one shard per stripe and index, all of the shard size. */
  lemma {:induction false} EncodedShape(c: Codec, p: Profile, body: Bytes, n: nat)
    requires p.Valid() && |body| < U64 && Lawful(c, p) && n <= |StripesOf(p, body)|
    ensures forall sh :: sh in Encoded(c, p, body, n) <==>
      sh.stripe < n && sh.index < p.Total() && sh.bytes == Written(c, p, body, sh.stripe, sh.index)
  {
    if n > 0 {
      EncodedShape(c, p, body, n - 1);
      var stripe := StripesOf(p, body)[n - 1];
      assert Uniform(Cut(stripe, p.k, p.size), p.k, p.size);
      var shards := ShardsOfStripe(c, p, stripe);
      assert |shards| == p.Total();
      var last := Labelled(n - 1, shards);
      forall sh: Shard | sh.stripe == n - 1 && sh.index < p.Total() && sh.bytes == Written(c, p, body, n - 1, sh.index)
        ensures sh in last
      {
        assert last[sh.index] == sh;
      }
    }
  }

  // ---------------------------------------------------------------- the layout, byte by byte

  lemma DivDiv(v: nat, p: nat)
    requires p > 0
    ensures v / 256 / p == v / (256 * p)
  {
    var q, r := v / 256 / p, v / 256 % p;
    assert v / 256 == q * p + r;
    assert v == (q * p + r) * 256 + v % 256 == q * (256 * p) + (r * 256 + v % 256);
    QuotientUnique(v, 256 * p, q, r * 256 + v % 256);
  }

  lemma QuotientUnique(v: nat, d: nat, q: nat, r: nat)
    requires d > 0 && v == q * d + r && r < d
    ensures v / d == q
  {
    var e := v / d - q;
    assert e * d == (v / d) * d - q * d;
    MultipleApart(e, d);
  }

  lemma MultipleApart(e: int, d: nat)
    ensures e >= 1 ==> e * d >= d
    ensures e <= -1 ==> e * d <= 0 - d
  {}

  lemma {:induction false} Pow256Positive(n: nat)
    ensures Pow256(n) > 0
  {
    if n > 0 { Pow256Positive(n - 1); }
  }

  lemma {:induction false} WordAt(v: nat, n: nat, j: nat)
    requires j < n
    ensures |Word(v, n)| == n && Pow256(n - 1 - j) > 0 && Word(v, n)[j] == v / Pow256(n - 1 - j) % 256
  {
    Pow256Positive(n - 1 - j);
    WordLength(v / 256, n - 1);
    if j < n - 1 {
      WordAt(v / 256, n - 1, j);
      DivDiv(v, Pow256(n - 2 - j));
    }
  }

  lemma {:induction false} WordLength(v: nat, n: nat)
    ensures |Word(v, n)| == n
  {
    if n > 0 { WordLength(v / 256, n - 1); }
  }

  /** An object is framed as its length, the most significant byte first, its bytes, and zeros. */
  lemma FramedAt(p: Profile, body: Bytes, j: nat)
    requires p.Valid() && |body| < U64 && j < |Framed(p, body)|
    ensures Pow256(if j < 8 then 7 - j else 0) > 0
    ensures Framed(p, body)[j]
         == if j < 8 then |body| / Pow256(7 - j) % 256 else if j < 8 + |body| then body[j - 8] else 0
  {
    WordLength(|body|, HEADER);
    if j < 8 { WordAt(|body|, HEADER, j); }
  }

  lemma {:induction false} CutAt(b: Bytes, n: nat, size: nat, i: nat, at: nat)
    requires |b| == n * size && i < n && at == i * size
    ensures at + size <= |b| && Cut(b, n, size)[i] == b[at..at + size]
  {
    assert |b| - size == (n - 1) * size;
    var rest := b[..|b| - size];
    if i < n - 1 {
      CutAt(rest, n - 1, size, i, at);
      assert rest[at..at + size] == b[at..at + size];
    }
  }

  lemma SliceOfSlice(f: Bytes, a: nat, len: nat, b: nat, size: nat)
    requires a + len <= |f| && b + size <= len
    ensures f[a..a + len][b..b + size] == f[a + b..a + b + size]
  {
    var x, y := f[a..a + len][b..b + size], f[a + b..a + b + size];
    assert |x| == |y| && forall k :: 0 <= k < size ==> x[k] == f[a + b + k] == y[k];
  }

  lemma StripeIs(p: Profile, body: Bytes, s: nat, from: nat, len: nat)
    requires p.Valid() && |body| < U64 && s < |StripesOf(p, body)| && len == p.StripeLength() && from == s * len
    ensures from + len <= |Framed(p, body)| && StripesOf(p, body)[s] == Framed(p, body)[from..from + len]
  {
    FramedShape(p, body);
    CutAt(Framed(p, body), StripeCount(p, HEADER + |body|), len, s, from);
  }

  /** Data shard i of stripe s is the slice of the framed object that starts at s stripes and i shards. */
  lemma DataShardIs(c: Codec, p: Profile, body: Bytes, s: nat, i: nat, at: nat)
    requires p.Valid() && |body| < U64 && s < |StripesOf(p, body)| && i < p.k
    requires at == s * p.StripeLength() + i * p.size
    ensures at + p.size <= |Framed(p, body)| && Written(c, p, body, s, i) == Framed(p, body)[at..at + p.size]
  {
    var from, len, within := s * p.StripeLength(), p.StripeLength(), i * p.size;
    StripeIs(p, body, s, from, len);
    CutAt(StripesOf(p, body)[s], p.k, p.size, i, within);
    SliceOfSlice(Framed(p, body), from, len, within, p.size);
  }

  /** Parity shard i of stripe s is the (i - k)-th that the code computes from the stripe's data shards. */
  lemma ParityShardIs(c: Codec, p: Profile, body: Bytes, s: nat, i: nat, data: seq<Bytes>)
    requires p.Valid() && |body| < U64 && Lawful(c, p) && s < |StripesOf(p, body)| && p.k <= i < p.k + p.m
    requires |data| == p.k && forall l :: 0 <= l < p.k ==> data[l] == Written(c, p, body, s, l)
    ensures |c.parity(data)| == p.m && Written(c, p, body, s, i) == c.parity(data)[i - p.k]
  {
    var cut := Cut(StripesOf(p, body)[s], p.k, p.size);
    assert Uniform(cut, p.k, p.size);
    assert forall l :: 0 <= l < p.k ==> Written(c, p, body, s, l) == cut[l];
    assert data == cut;
  }

  // ---------------------------------------------------------------- decoding

  /** The bytes the decoder ends up holding for (stripe s, index i): the last non-empty shard so labelled. */
  function Held(shards: seq<Shard>, s: nat, i: nat): Bytes {
    if shards == [] then []
    else
      var last := shards[|shards| - 1];
      if last.stripe == s && last.index == i && last.bytes != [] then last.bytes
      else Held(shards[..|shards| - 1], s, i)
  }

  function HeldStripe(p: Profile, shards: seq<Shard>, s: nat): seq<Bytes> {
    seq(p.Total(), i requires 0 <= i => Held(shards, s, i))
  }

  function StripeSet(shards: seq<Shard>): set<nat> { set sh | sh in shards :: sh.stripe }

  predicate Admissible(p: Profile, shards: seq<Shard>) {
    forall sh :: sh in shards ==> sh.index < p.Total() && |sh.bytes| in {0, p.size}
  }

  /** The data shards of one stripe, rebuilt when shards are missing. */
  function DataOf(c: Codec, p: Profile, stripe: seq<Bytes>): Option<seq<Bytes>>
    requires |stripe| == p.Total()
  {
    if Present(stripe) < p.k then None
    else if Present(stripe) < p.Total() then c.rebuild(stripe)
    else Some(stripe[..p.k])
  }

  function Joined(c: Codec, p: Profile, shards: seq<Shard>, n: nat): Option<Bytes> {
    if n == 0 then Some([])
    else
      var before := Joined(c, p, shards, n - 1);
      var data := DataOf(c, p, HeldStripe(p, shards, n - 1));
      if before.Some? && n - 1 in StripeSet(shards) && data.Some? then Some(before.value + Flatten(data.value))
      else None
  }

  function Attempt(c: Codec, p: Profile, shards: seq<Shard>): Decoding {
    if shards == [] || !Admissible(p, shards) then Rejected
    else
      match Joined(c, p, shards, |StripeSet(shards)|)
      case None => Rejected
      case Some(framed) => Unframe(framed)
  }

  /** The bytes, when there are any. */
  function Decode(c: Codec, p: Profile, shards: seq<Shard>): Option<Bytes> {
    match Attempt(c, p, shards)
    case Decoded(bytes) => Some(bytes)
    case _ => None
  }

  /** Shards that are each missing or as written, at least k present in every stripe. */
  ghost predicate Survivors(c: Codec, p: Profile, body: Bytes, shards: seq<Shard>)
    requires p.Valid() && |body| < U64
  {
    && (forall sh :: sh in shards ==>
          && sh.stripe < |StripesOf(p, body)| && sh.index < p.Total()
          && (sh.bytes == [] || sh.bytes == Written(c, p, body, sh.stripe, sh.index)))
    && (forall s :: 0 <= s < |StripesOf(p, body)| ==> Present(HeldStripe(p, shards, s)) >= p.k)
  }

  lemma {:induction false} HeldIsSupplied(shards: seq<Shard>, s: nat, i: nat)
    ensures Held(shards, s, i) == [] || Shard(s, i, Held(shards, s, i)) in shards
  {
    if shards != [] {
      HeldIsSupplied(shards[..|shards| - 1], s, i);
    }
  }

  lemma {:induction false} PresentBound(stripe: seq<Bytes>)
    ensures Present(stripe) <= |stripe|
    ensures Present(stripe) == |stripe| ==> forall i :: 0 <= i < |stripe| ==> stripe[i] != []
    ensures Present(stripe) > 0 ==> exists i :: 0 <= i < |stripe| && stripe[i] != []
  {
    if stripe != [] {
      PresentBound(stripe[..|stripe| - 1]);
    }
  }

  /** Each surviving stripe yields exactly its data shards. */
  lemma StripeRecovered(c: Codec, p: Profile, body: Bytes, shards: seq<Shard>, s: nat)
    requires p.Valid() && |body| < U64 && Lawful(c, p) && Survivors(c, p, body, shards)
    requires s < |StripesOf(p, body)|
    ensures s in StripeSet(shards)
    ensures DataOf(c, p, HeldStripe(p, shards, s)) == Some(Cut(StripesOf(p, body)[s], p.k, p.size))
  {
    var data := Cut(StripesOf(p, body)[s], p.k, p.size);
    var full := FullStripe(c, data);
    var held := HeldStripe(p, shards, s);
    assert Uniform(data, p.k, p.size) && |full| == p.Total();
    forall i | 0 <= i < p.Total() && held[i] != []
      ensures held[i] == full[i] && Shard(s, i, held[i]) in shards
    {
      HeldIsSupplied(shards, s, i);
    }
    assert Survives(held, full);
    PresentBound(held);
    if Present(held) == p.Total() {
      assert held == full;
      assert held[..p.k] == data;
    }
  }

  lemma {:induction false} JoinedIsFramed(c: Codec, p: Profile, body: Bytes, shards: seq<Shard>, n: nat)
    requires p.Valid() && |body| < U64 && Lawful(c, p) && Survivors(c, p, body, shards)
    requires n <= |StripesOf(p, body)|
    ensures Joined(c, p, shards, n) == Some(Flatten(StripesOf(p, body)[..n]))
  {
    if n > 0 {
      var stripes := StripesOf(p, body);
      JoinedIsFramed(c, p, body, shards, n - 1);
      StripeRecovered(c, p, body, shards, n - 1);
      FlattenCut(stripes[n - 1], p.k, p.size);
      assert stripes[..n][..n - 1] == stripes[..n - 1];
    }
  }

  lemma {:induction false} InitialSegment(t: set<nat>, n: nat)
    requires forall i: nat :: i in t <==> i < n
    ensures |t| == n
  {
    if n > 0 {
      InitialSegment(t - {n - 1}, n - 1);
    }
  }

  /** Any k intact shards per stripe decode to exactly the encoded object. */
  lemma DecodeInvertsEncode(c: Codec, p: Profile, body: Bytes, shards: seq<Shard>)
    requires p.Valid() && |body| < U64 - HEADER && Lawful(c, p) && Survivors(c, p, body, shards)
    ensures Decode(c, p, shards) == Some(body)
  {
    var n := |StripesOf(p, body)|;
    forall s: nat | s < n
      ensures s in StripeSet(shards)
    {
      StripeRecovered(c, p, body, shards, s);
    }
    InitialSegment(StripeSet(shards), n);
    SomeShard(c, p, body, shards);
    WrittenSize(c, p, body);
    assert Admissible(p, shards);
    JoinedIsFramed(c, p, body, shards, n);
    assert StripesOf(p, body)[..n] == StripesOf(p, body);
    FramedShape(p, body);
    FlattenCut(Framed(p, body), n, p.StripeLength());
    UnframeFramed(p, body);
  }

  lemma SomeShard(c: Codec, p: Profile, body: Bytes, shards: seq<Shard>)
    requires p.Valid() && |body| < U64 && Lawful(c, p) && Survivors(c, p, body, shards)
    ensures shards != []
  {
    FramedShape(p, body);
    assert |StripesOf(p, body)| > 0;
    StripeRecovered(c, p, body, shards, 0);
  }

  lemma WrittenSize(c: Codec, p: Profile, body: Bytes)
    requires p.Valid() && |body| < U64 && Lawful(c, p)
    ensures forall s, i :: 0 <= s < |StripesOf(p, body)| && 0 <= i < p.Total() ==> |Written(c, p, body, s, i)| == p.size
  {
    forall s, i | 0 <= s < |StripesOf(p, body)| && 0 <= i < p.Total()
      ensures |Written(c, p, body, s, i)| == p.size
    {
      assert Uniform(Cut(StripesOf(p, body)[s], p.k, p.size), p.k, p.size);
    }
  }

  // ---------------------------------------------------------------- the loops

  /** The encoder's loop over stripes. */
  method EncodeObject(c: Codec, p: Profile, body: Bytes) returns (out: seq<Shard>)
    requires p.Valid() && |body| < U64
    ensures out == Encode(c, p, body)
  {
    var n := StripeCount(p, HEADER + |body|);
    var stripes := StripesOf(p, body);
    out := [];
    for s := 0 to n
      invariant out == Encoded(c, p, body, s)
    {
      var shards := ShardsOfStripe(c, p, stripes[s]);
      out := out + Labelled(s, shards);
    }
  }

  lemma HeldNext(shards: seq<Shard>, j: nat, s: nat, i: nat)
    requires j < |shards|
    ensures Held(shards[..j + 1], s, i)
         == if shards[j].stripe == s && shards[j].index == i && shards[j].bytes != [] then shards[j].bytes
            else Held(shards[..j], s, i)
  {
    assert shards[..j + 1][..j] == shards[..j];
  }

  /** `stripes` holds, per stripe seen, what the decoder has gathered of it. */
  ghost predicate Grouped(p: Profile, shards: seq<Shard>, stripes: map<nat, seq<Bytes>>) {
    && stripes.Keys == StripeSet(shards)
    && forall s :: s in stripes ==> stripes[s] == HeldStripe(p, shards, s)
  }

  lemma {:induction false} HeldNowhere(shards: seq<Shard>, s: nat, i: nat)
    requires s !in StripeSet(shards)
    ensures Held(shards, s, i) == []
  {
    HeldIsSupplied(shards, s, i);
  }

  /** One shard more: only its own stripe changes. */
  lemma GroupedNext(p: Profile, shards: seq<Shard>, j: nat, stripes: map<nat, seq<Bytes>>, stripe: seq<Bytes>)
    requires j < |shards| && shards[j].index < p.Total() && Grouped(p, shards[..j], stripes)
    requires stripe == if shards[j].stripe in stripes then stripes[shards[j].stripe] else seq(p.Total(), i => [])
    ensures var sh := shards[j];
            var next := if sh.bytes != [] then stripe[sh.index := sh.bytes] else stripe;
            Grouped(p, shards[..j + 1], stripes[sh.stripe := next])
  {
    var sh := shards[j];
    assert shards[..j + 1] == shards[..j] + [sh];
    forall i: nat | i < p.Total()
      ensures stripe[i] == Held(shards[..j], sh.stripe, i)
    {
      if sh.stripe !in stripes { HeldNowhere(shards[..j], sh.stripe, i); }
    }
    var next := if sh.bytes != [] then stripe[sh.index := sh.bytes] else stripe;
    forall i: nat | i < p.Total()
      ensures next[i] == Held(shards[..j + 1], sh.stripe, i)
    {
      HeldNext(shards, j, sh.stripe, i);
    }
    assert next == HeldStripe(p, shards[..j + 1], sh.stripe);
    forall s | s in stripes && s != sh.stripe
      ensures stripes[s] == HeldStripe(p, shards[..j + 1], s)
    {
      forall i: nat | i < p.Total()
        ensures Held(shards[..j + 1], s, i) == Held(shards[..j], s, i)
      {
        HeldNext(shards, j, s, i);
      }
    }
  }

  /** Group the shards by stripe, refusing a bad index or size. */
  method GroupShards(p: Profile, shards: seq<Shard>) returns (r: Option<map<nat, seq<Bytes>>>)
    ensures r.Some? <==> Admissible(p, shards)
    ensures r.Some? ==> Grouped(p, shards, r.value)
  {
    var stripes: map<nat, seq<Bytes>> := map[];
    for j := 0 to |shards|
      invariant Admissible(p, shards[..j])
      invariant Grouped(p, shards[..j], stripes)
    {
      var sh := shards[j];
      if sh.index >= p.Total() || (|sh.bytes| != 0 && |sh.bytes| != p.size) { return None; }
      var stripe := if sh.stripe in stripes then stripes[sh.stripe] else seq(p.Total(), i => []);
      GroupedNext(p, shards, j, stripes, stripe);
      stripes := stripes[sh.stripe := if sh.bytes != [] then stripe[sh.index := sh.bytes] else stripe];
    }
    assert shards[..|shards|] == shards;
    r := Some(stripes);
  }

  /** The decoder: group the shards, rebuild each stripe in turn, trim by the header. */
  method DecodeShards(c: Codec, p: Profile, shards: seq<Shard>) returns (r: Decoding)
    ensures r == Attempt(c, p, shards)
  {
    if shards == [] { return Rejected; }
    var grouped := GroupShards(p, shards);
    if grouped.None? { return Rejected; }
    var stripes := grouped.value;
    var n := |stripes|;
    assert n == |stripes.Keys|;
    var framed: Bytes := [];
    for s := 0 to n
      invariant Joined(c, p, shards, s) == Some(framed)
    {
      var data := if s in stripes then DataOf(c, p, stripes[s]) else None;
      if data.None? { JoinedFails(c, p, shards, s + 1, n); return Rejected; }
      framed := framed + Flatten(data.value);
    }
    r := Unframe(framed);
  }

  lemma {:induction false} JoinedFails(c: Codec, p: Profile, shards: seq<Shard>, s: nat, n: nat)
    requires s <= n && Joined(c, p, shards, s) == None
    ensures Joined(c, p, shards, n) == None
  {
    if s < n { JoinedFails(c, p, shards, s, n - 1); }
  }
}
