/**
  TOTP codes (RFC 6238 over RFC 4226): time steps, dynamic truncation and the
  verification window.  HMAC-SHA-1 and base32 decoding are parameters.
 */
module Totp {
  import opened Wrappers

  type Byte = b: int | 0 <= b < 256

  /** HMAC-SHA-1: key and message to a 20-byte digest. */
  type Digest = d: seq<Byte> | |d| == 20 witness seq(20, i => 0)
  type Mac = (seq<Byte>, seq<Byte>) -> Digest

  const PERIOD := 30
  const DIGITS := 6
  const SKEW := 1

  /** Go's integer division truncates towards zero. */
  function TruncDiv(a: int, b: int): int
    requires b > 0
  {
    if a >= 0 then a / b else -((-a) / b)
  }

  /** totpStep. */
  function StepOf(unix: int): int { TruncDiv(unix, PERIOD) }

  function BigEndian(v: nat, n: nat): seq<Byte> {
    if n == 0 then [] else BigEndian(v / 256, n - 1) + [v % 256]
  }

  /** Dynamic truncation, section 5.3 of RFC 4226: 31 bits at the offset the last nibble selects. */
  function Truncate(sum: Digest): nat {
    var offset := sum[19] as int % 16;
    (sum[offset] as int % 128) * 0x1000000 + sum[offset + 1] as int * 0x10000
      + sum[offset + 2] as int * 0x100 + sum[offset + 3] as int
  }

  predicate IsDigit(c: char) { '0' <= c <= '9' }

  function Digit(d: nat): char
    requires d < 10
  {
    '0' + d as char
  }

  /** v modulo ten to the n, in exactly n decimal digits. */
  function Digits(v: nat, n: nat): string {
    if n == 0 then "" else Digits(v / 10, n - 1) + [Digit(v % 10)]
  }

  function Pow10(n: nat): (p: nat)
    ensures p > 0
  {
    if n == 0 then 1 else 10 * Pow10(n - 1)
  }

  function Value(s: string): int {
    if s == "" then 0 else Value(s[..|s| - 1]) * 10 + (s[|s| - 1] as int - '0' as int)
  }

  /** Codes have a fixed width and carry the truncated value modulo ten to the width. */
  lemma {:induction false} DigitsMean(v: nat, n: nat)
    ensures |Digits(v, n)| == n && (forall i :: 0 <= i < n ==> IsDigit(Digits(v, n)[i]))
    ensures Value(Digits(v, n)) == v % Pow10(n)
  {
    if n > 0 {
      DigitsMean(v / 10, n - 1);
      var s := Digits(v, n);
      assert s[..|s| - 1] == Digits(v / 10, n - 1);
      ModStep(v, Pow10(n - 1));
    }
  }

  lemma ModStep(v: nat, p: nat)
    requires p > 0
    ensures (v / 10) % p * 10 + v % 10 == v % (10 * p)
  {
    var q, m := (v / 10) / p, (v / 10) % p;
    assert v == (q * p + m) * 10 + v % 10;
    assert v == q * (10 * p) + (m * 10 + v % 10);
    ModUnique(v, 10 * p, q, m * 10 + v % 10);
  }

  lemma ModUnique(v: nat, p: nat, q: nat, r: nat)
    requires p > 0 && v == q * p + r && r < p
    ensures v % p == r
  {
    var d := v / p - q;
    assert d * p == (v / p) * p - q * p;
    MulApart(d, p);
  }

  lemma MulApart(d: int, p: nat)
    ensures d >= 1 ==> d * p >= p
    ensures d <= -1 ==> d * p <= 0 - p
  {
  }

  /** The HOTP value of a counter; negative counters wrap as in the conversion to uint64. */
  function Hotp(mac: Mac, key: seq<Byte>, counter: int): string {
    Digits(Truncate(mac(key, BigEndian(counter % 0x1_0000_0000_0000_0000, 8))), DIGITS)
  }

  method HotpCode(mac: Mac, key: seq<Byte>, counter: int) returns (code: string)
    ensures code == Hotp(mac, key, counter)
  {
    var sum := mac(key, BigEndian(counter % 0x1_0000_0000_0000_0000, 8));
    var offset := sum[|sum| - 1] as int % 16;
    var bin := (sum[offset] as int % 128) * 0x1000000 + sum[offset + 1] as int * 0x10000
      + sum[offset + 2] as int * 0x100 + sum[offset + 3] as int;
    var mod: nat := 1;
    for i := 0 to DIGITS
      invariant mod == Pow10(i)
    {
      mod := mod * 10;
    }
    DigitsOfRemainder(bin, DIGITS);
    code := Digits(bin % mod, DIGITS); // Sprintf("%0*d")
  }

  lemma {:induction false} DigitsOfRemainder(v: nat, n: nat)
    ensures Digits(v % Pow10(n), n) == Digits(v, n)
  {
    if n > 0 {
      RemainderDigits(v, Pow10(n - 1));
      DigitsOfRemainder(v / 10, n - 1);
    }
  }

  lemma RemainderDigits(v: nat, p: nat)
    requires p > 0
    ensures v % (10 * p) % 10 == v % 10 && v % (10 * p) / 10 == (v / 10) % p
  {
    ModStep(v, p);
    LastDigit((v / 10) % p, v % 10);
  }

  lemma LastDigit(tens: nat, ones: nat)
    requires ones < 10
    ensures (tens * 10 + ones) % 10 == ones && (tens * 10 + ones) / 10 == tens
  {}

  /** What strings.TrimSpace removes: the characters with Unicode's property White_Space. */
  predicate IsSpace(c: char) {
    || c == ' ' || '\t' <= c <= '\r' || c == 0x85 as char || c == 0xA0 as char || c == 0x1680 as char
    || 0x2000 as char <= c <= 0x200A as char || c == 0x2028 as char || c == 0x2029 as char || c == 0x202F as char
    || c == 0x205F as char || c == 0x3000 as char
  }

  function Trim(s: string): string {
    if s == "" then ""
    else if IsSpace(s[0]) then Trim(s[1..])
    else if IsSpace(s[|s| - 1]) then Trim(s[..|s| - 1])
    else s
  }

  predicate Blank(s: string) { forall i :: 0 <= i < |s| ==> IsSpace(s[i]) }

  /** Trimming takes white space off both ends and nothing else. */
  lemma {:induction false} TrimMeans(s: string) returns (left: string, right: string)
    ensures s == left + Trim(s) + right && Blank(left) && Blank(right)
    ensures Trim(s) != "" ==> !IsSpace(Trim(s)[0]) && !IsSpace(Trim(s)[|Trim(s)| - 1])
  {
    left, right := "", "";
    if s != "" && IsSpace(s[0]) {
      left, right := TrimMeans(s[1..]);
      OneMoreLeft(s, left, Trim(s), right);
      left := [s[0]] + left;
    } else if s != "" && IsSpace(s[|s| - 1]) {
      left, right := TrimMeans(s[..|s| - 1]);
      OneMoreRight(s, left, Trim(s), right);
      right := right + [s[|s| - 1]];
    }
  }

  lemma OneMoreLeft(s: string, left: string, mid: string, right: string)
    requires s != "" && s[1..] == left + mid + right && IsSpace(s[0]) && Blank(left)
    ensures s == [s[0]] + left + mid + right && Blank([s[0]] + left)
  {
    assert s == [s[0]] + s[1..];
  }

  lemma OneMoreRight(s: string, left: string, mid: string, right: string)
    requires s != "" && s[..|s| - 1] == left + mid + right && IsSpace(s[|s| - 1]) && Blank(right)
    ensures s == left + mid + (right + [s[|s| - 1]]) && Blank(right + [s[|s| - 1]])
  {
    assert s == s[..|s| - 1] + [s[|s| - 1]];
  }

  /** strconv.Atoi accepts an optional sign and at least one digit (no overflow at this length). */
  predicate AtoiOk(s: string) {
    var t := if s != "" && (s[0] == '+' || s[0] == '-') then s[1..] else s;
    t != "" && forall c :: c in t ==> IsDigit(c)
  }

  predicate InWindow(step: int, unix: int) { StepOf(unix) - SKEW <= step <= StepOf(unix) + SKEW }

  /** A step is in the window while the clock reads from one period before it begins to one period after it ends. */
  lemma WindowIs(step: int, unix: nat)
    ensures InWindow(step, unix) <==> 30 * (step - 1) <= unix < 30 * (step + 2)
  {}

  /** Before 1970 steps round towards zero: a step's own period, and so its window, ends where it would begin. */
  lemma WindowBefore1970(step: int, unix: int)
    requires unix < 0
    ensures InWindow(step, unix) <==> 30 * (step - 2) < unix <= 30 * (step + 1)
  {}

  function Number(bytes: seq<Byte>): nat {
    if bytes == [] then 0 else Number(bytes[..|bytes| - 1]) * 256 + bytes[|bytes| - 1]
  }

  function Pow256(n: nat): nat { if n == 0 then 1 else 256 * Pow256(n - 1) }

  /** The counter is sent as eight bytes, the most significant first. */
  lemma {:induction false} BigEndianMeans(v: nat, n: nat)
    requires v < Pow256(n)
    ensures |BigEndian(v, n)| == n && Number(BigEndian(v, n)) == v
  {
    if n > 0 {
      BigEndianMeans(v / 256, n - 1);
      var b := BigEndian(v, n);
      assert b[..|b| - 1] == BigEndian(v / 256, n - 1);
    }
  }

  /** Dynamic truncation takes the low 31 bits of four bytes of the digest. */
  lemma TruncateMeans(sum: Digest)
    ensures Truncate(sum) == Number(sum[sum[19] % 16..sum[19] % 16 + 4]) % 0x8000_0000
  {
    var o := sum[19] as int % 16;
    FourBytes(sum[o..o + 4]);
  }

  lemma FourBytes(b: seq<Byte>)
    requires |b| == 4
    ensures Number(b) == b[0] as int * 0x1000000 + b[1] as int * 0x10000 + b[2] as int * 0x100 + b[3] as int
  {
    assert b[..3][..2] == b[..2] && b[..2][..1] == b[..1] && b[..1][..0] == [];
    assert Number(b[..1]) == b[0];
    assert Number(b[..2]) == b[0] as int * 0x100 + b[1] as int;
    assert Number(b[..3]) == b[0] as int * 0x10000 + b[1] as int * 0x100 + b[2] as int;
  }

  /** A code is six digits, the truncated value modulo a million; the counter is sent modulo 2^64. */
  lemma HotpMeans(mac: Mac, key: seq<Byte>, counter: int)
    ensures var code, sum := Hotp(mac, key, counter), mac(key, BigEndian(counter % 0x1_0000_0000_0000_0000, 8));
            && |code| == 6 && (forall i :: 0 <= i < 6 ==> IsDigit(code[i]))
            && Value(code) == Truncate(sum) % 1_000_000
    ensures Number(BigEndian(counter % 0x1_0000_0000_0000_0000, 8)) == counter % 0x1_0000_0000_0000_0000
  {
    assert Pow256(8) == 0x1_0000_0000_0000_0000 by {
      assert Pow256(4) == 0x1_0000_0000;
    }
    BigEndianMeans(counter % 0x1_0000_0000_0000_0000, 8);
    DigitsMean(Truncate(mac(key, BigEndian(counter % 0x1_0000_0000_0000_0000, 8))), 6);
    assert Pow10(6) == 1_000_000 by {
      assert Pow10(3) == 1_000;
    }
  }

  /** Accepted exactly when the trimmed code is the code of a step in the window; the earliest such step is reported. */
  method TotpVerify(mac: Mac, decode: string -> Option<seq<Byte>>, secret: string, input: string, unix: int)
    returns (matched: int, ok: bool)
    ensures ok <==> decode(secret).Some? && exists step ::
                      InWindow(step, unix) && Hotp(mac, decode(secret).value, step) == Trim(input)
    ensures ok ==> InWindow(matched, unix) && Hotp(mac, decode(secret).value, matched) == Trim(input)
    ensures ok ==> forall step :: InWindow(step, unix) && step < matched ==>
                     Hotp(mac, decode(secret).value, step) != Trim(input)
  {
    var code := Trim(input);
    ghost var malformed := |code| != DIGITS || !AtoiOk(code);
    if decode(secret).Some? {
      forall step ensures malformed ==> Hotp(mac, decode(secret).value, step) != code {
        DigitsMean(Truncate(mac(decode(secret).value, BigEndian(step % 0x1_0000_0000_0000_0000, 8))), DIGITS);
      }
    }
    if |code| != DIGITS {
      return 0, false;
    }
    if !AtoiOk(code) {
      return 0, false;
    }
    var key := decode(secret);
    if key.None? {
      return 0, false;
    }
    var current := StepOf(unix);
    var delta := -SKEW;
    while delta <= SKEW
      invariant -SKEW <= delta <= SKEW + 1
      invariant forall step :: current - SKEW <= step < current + delta ==> Hotp(mac, key.value, step) != code
    {
      var step := current + delta;
      var candidate := HotpCode(mac, key.value, step);
      if candidate == code {
        return step, true;
      }
      delta := delta + 1;
    }
    return 0, false;
  }
}
