/** Padding of encrypted messages: lengths, the two header formats, and the way back. */
module Padding {
  import opened Options

  const MIN_PLAINTEXT_LEN := 1
  const MIN_PADDED_LEN := 32
  const LONG_FORMAT := 65536

  type Byte = x: int | 0 <= x < 256

  // ---------------------------------------------------------------- powers of two

  function Pow2(k: nat): (p: nat)
    ensures p >= 1
  {
    if k == 0 then 1 else 2 * Pow2(k - 1)
  }

  /** Math.floor(Math.log2(n)). */
  function Log2(n: nat): nat
    requires n >= 1
  {
    if n < 2 then 0 else 1 + Log2(n / 2)
  }

  /** `1 << e` on signed 32-bit integers, whose shift count is taken modulo 32. */
  function ShiftOne(e: nat): int {
    var s: nat := e % 32;
    var power: int := Pow2(s);
    if s == 31 then 0 - power else power
  }

  lemma {:induction false} Log2Bounds(n: nat)
    requires n >= 1
    ensures Pow2(Log2(n)) <= n < Pow2(Log2(n) + 1)
  {
    if n >= 2 {
      Log2Bounds(n / 2);
    }
  }

  lemma {:induction false} Pow2Monotone(a: nat, b: nat)
    requires a <= b
    ensures Pow2(a) <= Pow2(b)
  {
    if a < b { Pow2Monotone(a, b - 1); }
  }

  lemma {:induction false} Pow2Splits(a: nat, b: nat)
    ensures Pow2(a + b) == Pow2(a) * Pow2(b)
  {
    if b > 0 {
      Pow2Splits(a, b - 1);
      assert Pow2(a) * Pow2(b) == 2 * (Pow2(a) * Pow2(b - 1));
    }
  }

  lemma Log2Unique(n: nat, k: nat)
    requires n >= 1 && Pow2(k) <= n < Pow2(k + 1)
    ensures Log2(n) == k
  {
    Log2Bounds(n);
    var l := Log2(n);
    if l < k { Pow2Monotone(l + 1, k); }
    if k < l { Pow2Monotone(k + 1, l); }
  }

  lemma Pow2Thrice(k: nat)
    requires k >= 3
    ensures Pow2(k) == 8 * Pow2(k - 3)
  {
    assert Pow2(k) == 2 * Pow2(k - 1);
    assert Pow2(k - 1) == 2 * Pow2(k - 2);
  }

  // ---------------------------------------------------------------- rounding up

  function RoundUp(n: nat, m: nat): int
    requires n >= 1 && m >= 1
  {
    m * ((n - 1) / m + 1)
  }

  lemma {:induction false} MulGrows(m: nat, d: nat)
    ensures m * d >= 0 && (d >= 1 ==> m * d >= m)
    decreases d
  {
    if d >= 1 {
      MulGrows(m, d - 1);
      assert m * d == m * (d - 1) + m;
    }
  }

  lemma MulOrder(m: nat, q: int, p: int)
    requires m >= 1
    ensures q < p ==> m * q + m <= m * p
    ensures m * q < m * p ==> q < p
  {
    if q < p {
      MulGrows(m, p - q);
      MulSplits(m, q, p - q);
    } else {
      MulGrows(m, q - p);
      MulSplits(m, p, q - p);
    }
  }

  lemma MulSplits(m: nat, a: int, d: int)
    ensures m * (a + d) == m * a + m * d
  {
  }

  /** Euclidean division is determined by its equation. */
  lemma QuotientIs(a: int, m: nat, q: int, r: int)
    requires m >= 1 && a == m * q + r && 0 <= r < m
    ensures a / m == q && a % m == r
  {
    var d := a / m;
    assert a == m * d + a % m;
    MulOrder(m, d, q);
    MulOrder(m, q, d);
  }

  /** Multiples stay, everything else moves up to the next one. */
  lemma RoundUpValue(n: nat, m: nat)
    requires n >= 1 && m >= 1
    ensures RoundUp(n, m) == if n % m == 0 then n else n - n % m + m
    ensures n <= RoundUp(n, m) < n + m
  {
    var q, r := n / m, n % m;
    assert n == m * q + r;
    if r == 0 {
      assert m * (q - 1) == m * q - m;
      QuotientIs(n - 1, m, q - 1, m - 1);
    } else {
      QuotientIs(n - 1, m, q, r - 1);
      assert m * (q + 1) == m * q + m;
    }
  }

  /** The least multiple that reaches `n`. */
  lemma RoundUpLeast(n: nat, m: nat, q: int)
    requires n >= 1 && m >= 1 && n <= m * q
    ensures RoundUp(n, m) <= m * q
  {
    var d := (n - 1) / m;
    assert n - 1 == m * d + (n - 1) % m;
    MulOrder(m, d, q);
    assert m * (d + 1) == m * d + m;
  }

  lemma RoundUpTwice(n: nat, m: nat)
    requires n >= 1 && m >= 1
    ensures RoundUp(n, m) >= 1 && RoundUp(RoundUp(n, m), m) == RoundUp(n, m)
  {
    RoundUpValue(n, m);
    QuotientIs(RoundUp(n, m), m, (n - 1) / m + 1, 0);
    RoundUpValue(RoundUp(n, m), m);
  }

  // ---------------------------------------------------------------- padded lengths

  /** The chunk for a shift count. */
  function ChunkOfShift(e: nat): (c: int)
    ensures c >= 32
  {
    var nextPower := ShiftOne(e);
    if nextPower <= 256 then MIN_PADDED_LEN else nextPower / 8
  }

  /** It is a power of two, at least 32 and otherwise an eighth of the power the shift was meant to give, or less. */
  lemma ChunkOfShiftShape(e: nat) returns (c: nat)
    ensures ChunkOfShift(e) == Pow2(c) && Pow2(c) >= 32 && 5 <= c && (c == 5 || c + 3 <= e)
  {
    var s := e % 32;
    assert Pow2(5) == 32 && Pow2(8) == 256;
    if s <= 8 {
      Pow2Monotone(s, 8);
      c := 5;
    } else if s == 31 {
      c := 5;
    } else {
      Pow2Monotone(9, s);
      assert Pow2(9) == 512;
      Pow2Thrice(s);
      c := s - 3;
    }
  }

  function Chunk(n: nat): (c: nat)
    requires n >= MIN_PLAINTEXT_LEN
    ensures c >= 32
  {
    if n <= MIN_PADDED_LEN then MIN_PADDED_LEN else ChunkOfShift(Log2(n - 1) + 1)
  }

  function CalcPaddedLen(n: nat): int
    requires n >= MIN_PLAINTEXT_LEN
  {
    if n <= MIN_PADDED_LEN then MIN_PADDED_LEN
    else RoundUp(n, Chunk(n))
  }

  /** The exponents of the power of two below `n` and of its chunk. */
  lemma ChunkShape(n: nat) returns (k: nat, c: nat)
    requires n > MIN_PADDED_LEN
    ensures k == Log2(n - 1) && Pow2(k) < n <= Pow2(k + 1)
    ensures Chunk(n) == Pow2(c) && Pow2(c) >= 32 && 5 <= c <= k && (c == 5 || c + 2 <= k)
    ensures CalcPaddedLen(n) == RoundUp(n, Pow2(c))
  {
    Log2Bounds(n - 1);
    k := Log2(n - 1);
    assert Pow2(5) == 32;
    if k < 5 { Pow2Monotone(k + 1, 5); }
    c := ChunkOfShiftShape(k + 1);
  }

  /** Rounding to a chunk stays within the power of two above. */
  lemma StaysBelowPower(n: nat, k: nat, c: nat)
    requires 1 <= n <= Pow2(k + 1) && c <= k
    ensures RoundUp(n, Pow2(c)) <= Pow2(k + 1)
  {
    Pow2Splits(c, k + 1 - c);
    RoundUpLeast(n, Pow2(c), Pow2(k + 1 - c));
  }

  lemma MultipleOfMultiple(m: nat, p: nat, q: int)
    requires m == 32 * p
    ensures (m * q) % 32 == 0
  {
    var t := p * q;
    assert m * q == 32 * t;
    assert (32 * t) % 32 == 0;
  }

  lemma Pow2By32(c: nat)
    requires c >= 5
    ensures Pow2(c) == 32 * Pow2(c - 5)
  {
    Pow2Thrice(c);
    assert Pow2(c - 3) == 2 * Pow2(c - 4);
  }

  lemma RoundUpMultiple(n: nat, m: nat, p: nat)
    requires n >= 1 && m >= 1 && m == 32 * p
    ensures RoundUp(n, m) % 32 == 0
  {
    MultipleOfMultiple(m, p, (n - 1) / m + 1);
  }

  /** Long enough, a multiple of 32, and wasteful of less than 32 bytes or a quarter of the text. */
  lemma PaddedBounds(n: nat)
    requires n >= 1
    ensures n <= CalcPaddedLen(n) && CalcPaddedLen(n) % 32 == 0
    ensures CalcPaddedLen(n) - n < 32 || 4 * (CalcPaddedLen(n) - n) < n
  {
    if n > MIN_PADDED_LEN {
      var k, c := ChunkShape(n);
      RoundUpValue(n, Pow2(c));
      Pow2By32(c);
      RoundUpMultiple(n, Pow2(c), Pow2(c - 5));
      if c > 5 {
        Pow2Monotone(c + 2, k);
        assert Pow2(c + 2) == 2 * Pow2(c + 1);
      } else {
        assert Pow2(5) == 32;
      }
    }
  }

  lemma PaddedInPower(n: nat) returns (k: nat)
    requires n > MIN_PADDED_LEN
    ensures k == Log2(n - 1) && Pow2(k) < n <= CalcPaddedLen(n) <= Pow2(k + 1)
  {
    var c;
    k, c := ChunkShape(n);
    StaysBelowPower(n, k, c);
    PaddedBounds(n);
  }

  lemma PaddedMonotone(n: nat, m: nat)
    requires 1 <= n <= m
    ensures CalcPaddedLen(n) <= CalcPaddedLen(m)
  {
    PaddedBounds(m);
    if n > MIN_PADDED_LEN {
      var k := PaddedInPower(n);
      var l := PaddedInPower(m);
      if k < l {
        Pow2Monotone(k + 1, l);
      } else if l < k {
        Pow2Monotone(l + 1, k);
      } else {
        var j, c := ChunkShape(m);
        RoundUpLeast(n, Pow2(c), (m - 1) / Pow2(c) + 1);
      }
    }
  }

  /** A padded length is its own padded length. */
  lemma PaddedIdempotent(n: nat)
    requires n >= 1
    ensures CalcPaddedLen(n) >= 1 && CalcPaddedLen(CalcPaddedLen(n)) == CalcPaddedLen(n)
  {
    PaddedBounds(n);
    if n > MIN_PADDED_LEN {
      var k := PaddedInPower(n);
      var p := CalcPaddedLen(n);
      Log2Unique(p - 1, k);
      assert Chunk(p) == Chunk(n);
      RoundUpTwice(n, Chunk(n));
    }
  }

  lemma Log2Below(n: nat, k: nat)
    requires 1 <= n < Pow2(k)
    ensures Log2(n) < k
  {
    Log2Bounds(n);
    if k <= Log2(n) { Pow2Monotone(k, Log2(n)); }
  }

  lemma SmallShift(e: nat)
    requires e <= 8
    ensures ChunkOfShift(e) == 32
  {
    assert Pow2(8) == 256;
    Pow2Monotone(e, 8);
  }

  lemma BigShift(e: nat)
    requires 9 <= e <= 30
    ensures ChunkOfShift(e) == Pow2(e - 3)
  {
    assert Pow2(9) == 512;
    Pow2Monotone(9, e);
    Pow2Thrice(e);
  }

  lemma ShortChunk(n: nat)
    requires 1 <= n <= 256
    ensures Chunk(n) == 32
  {
    if n > MIN_PADDED_LEN {
      assert Pow2(8) == 256;
      Log2Below(n - 1, 8);
      SmallShift(Log2(n - 1) + 1);
    }
  }

  lemma LongChunk(n: nat, k: nat)
    requires 8 <= k <= 29 && Pow2(k) < n <= Pow2(k + 1)
    ensures n > 256 && Chunk(n) == Pow2(k - 2)
  {
    assert Pow2(8) == 256;
    Pow2Monotone(8, k);
    Log2Unique(n - 1, k);
    BigShift(k + 1);
  }

  lemma WrappedShift(e: nat)
    requires 31 <= e <= 40
    ensures ChunkOfShift(e) == 32
  {
    assert Pow2(8) == 256;
    if e > 31 {
      assert e % 32 == e - 32;
      Pow2Monotone(e - 32, 8);
    }
  }

  /** A shift past 31 places wraps around, and lengths above 2^30 are padded as short ones are. */
  lemma WrappedChunk(n: nat, k: nat)
    requires 30 <= k <= 39 && Pow2(k) < n <= Pow2(k + 1)
    ensures n > 32 && Chunk(n) == 32
  {
    assert Pow2(8) == 256;
    Pow2Monotone(8, k);
    Log2Unique(n - 1, k);
    WrappedShift(k + 1);
  }

  /** Padded lengths, range by range: 32 bytes, multiples of 32, and then four to eight chunks for each power of two. */
  lemma PaddedLengthIs(n: nat, k: nat)
    requires n >= 1
    ensures n <= 32 ==> CalcPaddedLen(n) == 32
    ensures 32 < n <= 256 ==> CalcPaddedLen(n) == 32 * ((n - 1) / 32 + 1)
    ensures 8 <= k <= 29 && Pow2(k) < n <= Pow2(k + 1) ==> CalcPaddedLen(n) == Pow2(k - 2) * ((n - 1) / Pow2(k - 2) + 1)
    ensures 30 <= k <= 39 && Pow2(k) < n <= Pow2(k + 1) ==> CalcPaddedLen(n) == 32 * ((n - 1) / 32 + 1)
  {
    if n <= 256 { ShortChunk(n); }
    if 8 <= k <= 29 && Pow2(k) < n <= Pow2(k + 1) { LongChunk(n, k); }
    if 30 <= k <= 39 && Pow2(k) < n <= Pow2(k + 1) { WrappedChunk(n, k); }
  }

  // ---------------------------------------------------------------- padding and back

  function Header(n: nat): nat {
    if n < LONG_FORMAT then 2 else 6
  }

  /** The four low bytes of a number, most significant first. */
  function Bytes4(n: nat): (Byte, Byte, Byte, Byte) {
    (n / 256 / 256 / 256 % 256, n / 256 / 256 % 256, n / 256 % 256, n % 256)
  }

  function HeaderBytes(n: nat): seq<Byte> {
    var b := Bytes4(n);
    if n < LONG_FORMAT then [b.2, b.3] else [0, 0, b.0, b.1, b.2, b.3]
  }

  /** None stands for the exception: too short a plaintext, or no room for it behind the header. */
  function Padded(x: seq<Byte>): Option<seq<Byte>> {
    if |x| < MIN_PLAINTEXT_LEN || Header(|x|) + |x| > CalcPaddedLen(|x|) then None
    else Some(HeaderBytes(|x|) + x + Zeros(CalcPaddedLen(|x|) - Header(|x|) - |x|))
  }

  function Zeros(n: nat): seq<Byte> {
    seq(n, _ => 0)
  }

  /** Four bytes read as a signed 32-bit integer. */
  function Signed(b3: Byte, b2: Byte, b1: Byte, b0: Byte): int {
    (((b3 as int) * 256 + b2 as int) * 256 + b1 as int) * 256 + b0 as int - if b3 >= 128 then 0x1_0000_0000 else 0
  }

  function Unpadded(p: seq<Byte>): Option<seq<Byte>> {
    if |p| < 2 then None
    else if p[0] == 0 && p[1] == 0 then
      if |p| < 6 then None else Taken(p, Signed(p[2], p[3], p[4], p[5]), 6)
    else Taken(p, (p[0] as int) * 256 + p[1] as int, 2)
  }

  function Taken(p: seq<Byte>, len: int, offset: nat): Option<seq<Byte>>
    requires offset <= |p|
  {
    if len < MIN_PLAINTEXT_LEN || len > |p| - offset then None else Some(p[offset..offset + len])
  }

  /** The header takes its room from the padding, so it fails exactly when the last chunk is too full. */
  lemma PadSucceedsExactly(x: seq<Byte>)
    requires |x| >= 1
    ensures Padded(x).Some? <==> 1 <= |x| % Chunk(|x|) <= Chunk(|x|) - Header(|x|)
  {
    if |x| > MIN_PADDED_LEN {
      var k, c := ChunkShape(|x|);
      RoundUpValue(|x|, Pow2(c));
    }
  }

  /** The same, range by range: a short text pads exactly when its last 32 bytes leave room for two. */
  lemma PadsExactly(x: seq<Byte>, k: nat)
    requires |x| >= 1
    ensures |x| <= 256 ==> (Padded(x).Some? <==> 1 <= |x| % 32 <= 30)
    ensures 8 <= k <= 29 && Pow2(k) < |x| <= Pow2(k + 1) ==>
              (Padded(x).Some? <==> 1 <= |x| % Pow2(k - 2) <= Pow2(k - 2) - if |x| < 65536 then 2 else 6)
  {
    PadSucceedsExactly(x);
    if |x| <= 256 { ShortChunk(|x|); }
    if 8 <= k <= 29 && Pow2(k) < |x| <= Pow2(k + 1) { LongChunk(|x|, k); }
  }

  lemma BytesBack(n: nat)
    ensures var b := Bytes4(n);
            && (n < 0x1_0000 ==> (b.2 as int) * 256 + b.3 as int == n)
            && (Signed(b.0, b.1, b.2, b.3) == n <==> n < 0x8000_0000)
            && Signed(b.0, b.1, b.2, b.3) <= n
  {
    var a := n / 256;
    var b := a / 256;
    var c := b / 256;
    assert n == 256 * a + n % 256 && a == 256 * b + a % 256 && b == 256 * c + b % 256 && c == 256 * (c / 256) + c % 256;
  }

  lemma PaddedShape(x: seq<Byte>)
    requires Padded(x).Some?
    ensures var p, n := Padded(x).value, |x|;
            && |p| == CalcPaddedLen(n) && Header(n) + n <= |p|
            && p[..Header(n)] == HeaderBytes(n) && p[Header(n)..Header(n) + n] == x
            && forall i | Header(n) + n <= i < |p| :: p[i] == 0
  {
  }

  /** The bytes of a padded text: its length, most significant byte first and marked by two zeros when long; the text; zeros. */
  lemma PaddedLayout(x: seq<Byte>)
    requires Padded(x).Some?
    ensures var p, n := Padded(x).value, |x|;
            && |p| >= 32 && |p| == CalcPaddedLen(n)
            && (n < 65536 ==> p[0] as int * 256 + p[1] as int == n && n + 2 <= |p| && p[2..n + 2] == x)
            && (n >= 65536 ==>
                  && p[0] == 0 && p[1] == 0 && n + 6 <= |p| && p[6..n + 6] == x
                  && p[2] as int * 16777216 + p[3] as int * 65536 + p[4] as int * 256 + p[5] as int == n % 0x1_0000_0000)
            && forall i | n + (if n < 65536 then 2 else 6) <= i < |p| :: p[i] == 0
  {
    var p, n, h := Padded(x).value, |x|, HeaderBytes(|x|);
    PaddedShape(x);
    PaddedBounds(n);
    LowBytes(n);
    assert forall i | 0 <= i < Header(n) :: p[i] == p[..Header(n)][i] == h[i];
  }

  lemma LowBytes(n: nat)
    ensures var b := Bytes4(n);
            && b.0 as int * 16777216 + b.1 as int * 65536 + b.2 as int * 256 + b.3 as int == n % 0x1_0000_0000
            && (n < 65536 ==> b.2 as int * 256 + b.3 as int == n)
  {
    var a := n / 256;
    var b := a / 256;
    var c := b / 256;
    var d := c / 256;
    assert n == 256 * a + n % 256 && a == 256 * b + a % 256 && b == 256 * c + b % 256 && c == 256 * d + c % 256;
    QuotientIs(n, 0x1_0000_0000, d, n - 0x1_0000_0000 * d);
  }

  /** Exactly the buffers that unpad to a text: a positive length in either format, and at least so many bytes behind it. */
  lemma UnpadsExactly(p: seq<Byte>, x: seq<Byte>)
    ensures var short := |p| >= 2 && (p[0] != 0 || p[1] != 0) && |x| == p[0] as int * 256 + p[1] as int
                         && |x| + 2 <= |p| && x == p[2..|x| + 2];
            var long := |p| >= 6 && p[0] == 0 && p[1] == 0 && p[2] < 128
                        && |x| == p[2] as int * 16777216 + p[3] as int * 65536 + p[4] as int * 256 + p[5] as int
                        && |x| + 6 <= |p| && x == p[6..|x| + 6];
            Unpadded(p) == Some(x) <==> |x| >= 1 && (short || long)
  {
  }

  /** Unpadding gives back every text that pads and whose length is a positive signed 32-bit number. */
  lemma RoundTripExactly(x: seq<Byte>)
    requires Padded(x).Some?
    ensures Unpadded(Padded(x).value) == Some(x) <==> |x| < 0x8000_0000
  {
    var p, n := Padded(x).value, |x|;
    PaddedShape(x);
    BytesBack(n);
    var h := HeaderBytes(n);
    assert forall i | 0 <= i < Header(n) :: p[i] == p[..Header(n)][i] == h[i];
    if n < LONG_FORMAT {
      assert h[0] != 0 || h[1] != 0;
    } else if n >= 0x8000_0000 {
      var len := Signed(p[2], p[3], p[4], p[5]);
      assert len < n;
    }
  }

  /** A text of exactly 32 bytes does not pad. */
  lemma ThirtyTwoBytesFail(x: seq<Byte>)
    requires |x| == 32
    ensures Padded(x).None?
  {
    PadSucceedsExactly(x);
  }

  // ---------------------------------------------------------------- the two operations

  method WriteHeader(result: array<Byte>, n: nat)
    requires result.Length >= Header(n)
    modifies result
    ensures result[..] == HeaderBytes(n) + old(result[Header(n)..])
  {
    var b := Bytes4(n);
    if n < LONG_FORMAT {
      result[0], result[1] := b.2, b.3;
    } else {
      result[0], result[1], result[2], result[3], result[4], result[5] := 0, 0, b.0, b.1, b.2, b.3;
    }
  }

  method CopyAt(result: array<Byte>, offset: nat, source: array<Byte>)
    requires offset + source.Length <= result.Length && result != source
    modifies result
    ensures result[..] == old(result[..offset]) + source[..] + old(result[offset + source.Length..])
  {
    var i := 0;
    while i < source.Length
      invariant 0 <= i <= source.Length
      invariant forall j | 0 <= j < result.Length ::
                  result[j] == if offset <= j < offset + i then source[j - offset] else old(result[j])
    {
      result[offset + i] := source[i];
      i := i + 1;
    }
  }

  /** Fills a zeroed buffer: header first, then the text, which throws when it does not fit. */
  method Pad(plaintext: array<Byte>) returns (ok: bool, result: array<Byte>)
    ensures ok == Padded(plaintext[..]).Some?
    ensures ok ==> Some(result[..]) == Padded(plaintext[..])
  {
    var n := plaintext.Length;
    if n < MIN_PLAINTEXT_LEN {
      return false, new Byte[0];
    }
    PaddedBounds(n);
    var paddedLen := CalcPaddedLen(n);
    result := new Byte[paddedLen](_ => 0);
    WriteHeader(result, n);
    assert result[..] == HeaderBytes(n) + Zeros(paddedLen - Header(n)) && |HeaderBytes(n)| == Header(n);
    ghost var before := result[..];
    if Header(n) + n > paddedLen {
      return false, result;
    }
    CopyAt(result, Header(n), plaintext);
    assert before[..Header(n)] == HeaderBytes(n);
    assert before[Header(n) + n..] == Zeros(paddedLen - Header(n) - n);
    ok := true;
  }

  method Unpad(padded: array<Byte>) returns (text: Option<seq<Byte>>)
    ensures text == Unpadded(padded[..])
  {
    if padded.Length < 2 {
      return None;
    }
    var unpaddedLen, offset;
    if padded[0] == 0 && padded[1] == 0 {
      if padded.Length < 6 {
        return None;
      }
      unpaddedLen, offset := Signed(padded[2], padded[3], padded[4], padded[5]), 6;
    } else {
      unpaddedLen, offset := (padded[0] as int) * 256 + padded[1] as int, 2;
    }
    if unpaddedLen < MIN_PLAINTEXT_LEN || unpaddedLen > padded.Length - offset {
      return None;
    }
    text := Some(padded[offset..offset + unpaddedLen]);
  }
}
