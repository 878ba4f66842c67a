/** Regrouping bytes into 5-bit words and back, with 32-bit accumulators. */
module Words {
  function Pow2(n: nat): (r: nat)
    ensures r > 0
  {
    if n == 0 then 1 else 2 * Pow2(n - 1)
  }

  /** The number written by these digits, most significant first. */
  function Number(base: nat, ds: seq<int>): int {
    if ds == [] then 0 else Number(base, ds[..|ds| - 1]) * base + ds[|ds| - 1]
  }

  predicate Digits(base: nat, ds: seq<int>) {
    forall i | 0 <= i < |ds| :: 0 <= ds[i] < base
  }

  lemma {:induction false} NumberIsNatural(base: nat, ds: seq<int>)
    requires Digits(base, ds)
    ensures Number(base, ds) >= 0
  {
    if ds != [] { NumberIsNatural(base, ds[..|ds| - 1]); }
  }

  lemma AtLeastOnce(k: int, base: nat)
    requires k >= 1
    ensures k * base >= base
  {
    assert k * base == (k - 1) * base + base;
  }

  lemma Distribute(a: int, b: int, c: int)
    ensures (a - b) * c == a * c - b * c && (a + b) * c == a * c + b * c
  {
  }

  lemma SameDigit(base: nat, a: int, b: int, x: int, y: int)
    requires 0 <= x < base && 0 <= y < base && a * base + x == b * base + y
    ensures a == b && x == y
  {
    Distribute(a, b, base);
    Distribute(b, a, base);
    if a > b {
      AtLeastOnce(a - b, base);
    } else if b > a {
      AtLeastOnce(b - a, base);
    }
  }

  /** Digits of a given length are determined by the number they write. */
  lemma {:induction false} DigitsAreUnique(base: nat, a: seq<int>, b: seq<int>)
    requires Digits(base, a) && Digits(base, b) && |a| == |b| && Number(base, a) == Number(base, b)
    ensures a == b
  {
    if a != [] {
      var n := |a| - 1;
      SameDigit(base, Number(base, a[..n]), Number(base, b[..n]), a[n], b[n]);
      DigitsAreUnique(base, a[..n], b[..n]);
      assert a == a[..n] + [a[n]] && b == b[..n] + [b[n]];
    }
  }

  lemma NumberPush(base: nat, ds: seq<int>, d: int)
    ensures Number(base, ds + [d]) == Number(base, ds) * base + d
  {
    assert (ds + [d])[..|ds|] == ds;
  }

  // ---------------------------------------------------------------- 32-bit arithmetic

  const TWO32: int := 0x1_0000_0000

  /** The value of a 32-bit signed integer operation. */
  function Int32(x: int): int {
    (x + 0x8000_0000) % TWO32 - 0x8000_0000
  }

  const TWO24: int := 0x100_0000

  ghost predicate Congruent(acc: int, v: int, modulus: int) {
    exists m: int :: acc == v + m * modulus
  }

  /** Shifting left by a power of two and adding keeps the congruence, whatever is cut off above bit 31. */
  lemma ShiftAndAdd(acc: int, v: int, modulus: int, times: int, shift: int, x: int)
    requires Congruent(acc, v, modulus) && times * modulus == TWO32
    ensures Congruent(Int32(acc * shift) + x, v * shift + x, modulus)
  {
    var m: int :| acc == v + m * modulus;
    var y := acc * shift;
    var q := (y + 0x8000_0000) / TWO32;
    assert Int32(y) == y - q * TWO32;
    assert y == v * shift + (m * shift) * modulus;
    assert q * TWO32 == (q * times) * modulus;
    Distribute(m * shift, q * times, modulus);
    assert Int32(y) + x == v * shift + x + (m * shift - q * times) * modulus;
  }

  lemma MaskKeeps(acc: int, v: int, modulus: int)
    requires modulus > 0 && Congruent(acc, v, modulus)
    ensures Congruent(acc % modulus, v, modulus)
  {
    var m: int :| acc == v + m * modulus;
    Distribute(m, acc / modulus, modulus);
    assert acc % modulus == v + (m - acc / modulus) * modulus;
  }

  lemma DivAdd(v: int, k: int, d: int)
    requires d > 0
    ensures (v + k * d) / d == v / d + k
  {
    var q, r := v / d, v % d;
    assert v + k * d == (q + k) * d + r;
    DivIs(v + k * d, d, q + k, r);
  }

  lemma DivIs(x: int, d: int, q: int, r: int)
    requires d > 0 && 0 <= r < d && x == q * d + r
    ensures x / d == q && x % d == r
  {
    SameDigit(d, x / d, q, x % d, r);
  }

  lemma DivDiv(v: int, a: int, b: int)
    requires a > 0 && b > 0
    ensures a * b > 0 && v / (a * b) == v / a / b
  {
    var q, r := v / a, v % a;
    var p, s := q / b, q % b;
    AtLeastOnce(a, b);
    Distribute(p * b, s, a);
    assert v == p * b * a + s * a + r;
    Associate(p, b, a);
    Distribute(b, s + 1, a);
    Distribute(s, 1, a);
    AtLeastZero(b - s - 1, a);
    AtLeastZero(s, a);
    DivIs(v, a * b, p, s * a + r);
  }

  lemma AtLeastZero(k: int, n: int)
    requires k >= 0 && n >= 0
    ensures k * n >= 0
  {
  }

  lemma Associate(p: int, b: int, a: int)
    ensures p * b * a == p * (a * b)
  {
  }

  /** Low bits of an accumulator are those of the number it wraps. */
  lemma LowBits(acc: int, v: int, modulus: int, d: int, n: int, k: int)
    requires d > 0 && n > 0 && k > 0 && d * n * k == modulus && Congruent(acc, v, modulus)
    ensures acc / d % n == v / d % n
  {
    var m: int :| acc == v + m * modulus;
    assert m * modulus == (m * (n * k)) * d;
    DivAdd(v, m * (n * k), d);
    var q := v / d;
    assert acc / d == q + (m * k) * n;
    ModAdd(q, m * k, n);
  }

  lemma ModAdd(q: int, k: int, n: int)
    requires n > 0
    ensures (q + k * n) % n == q % n
  {
    DivIs(q + k * n, n, q / n + k, q % n);
  }

  lemma {:induction false} Pow2Adds(a: nat, b: nat)
    ensures Pow2(a + b) == Pow2(a) * Pow2(b)
  {
    if a > 0 { Pow2Adds(a - 1, b); }
  }

  lemma Pow2Values()
    ensures Pow2(0) == 1 && Pow2(5) == 32 && Pow2(8) == 256 && Pow2(24) == TWO24 && Pow2(32) == TWO32
  {
    assert Pow2(5) == 32;
    Pow2Adds(5, 3);
    Pow2Adds(8, 8);
    Pow2Adds(16, 8);
    Pow2Adds(24, 8);
  }

  // ---------------------------------------------------------------- one pass of regrouping

  /**
   * Halfway through: `out` holds all of the number `v` but its last `bits` bits, and the accumulator
   * agrees with `v` on its low `width` bits.
   */
  ghost predicate Grouped(v: int, acc: int, width: nat, bits: nat, to: nat, out: seq<int>) {
    Congruent(acc, v, Pow2(width)) && Digits(Pow2(to), out) && Number(Pow2(to), out) == v / Pow2(bits)
  }

  /** The word that the accumulator shows above its last `bits` bits. */
  function Shown(acc: int, bits: nat, to: nat): int {
    acc / Pow2(bits) % Pow2(to)
  }

  lemma PushShown(v: int, acc: int, width: nat, bits: nat, to: nat, out: seq<int>)
    requires Grouped(v, acc, width, bits + to, to, out) && bits + to <= width
    ensures Grouped(v, acc, width, bits, to, out + [Shown(acc, bits, to)])
  {
    hide Pow2, Number;
    var d, n, k := Pow2(bits), Pow2(to), Pow2(width - bits - to);
    Pow2Adds(bits, to);
    Pow2Adds(bits + to, width - bits - to);
    LowBits(acc, v, Pow2(width), d, n, k);
    DivDiv(v, d, n);
    NumberPush(n, out, Shown(acc, bits, to));
  }

  /** A new digit of `from` bits comes in at the bottom. */
  lemma ShiftIn(v: int, acc: int, width: nat, bits: nat, to: nat, out: seq<int>, from: nat, x: int)
    requires Grouped(v, acc, width, bits, to, out) && width <= 32 && 0 <= x < Pow2(from)
    ensures Grouped(v * Pow2(from) + x, Int32(acc * Pow2(from)) + x, width, bits + from, to, out)
  {
    hide Pow2, Number;
    Pow2Values();
    Pow2Adds(32 - width, width);
    ShiftAndAdd(acc, v, Pow2(width), Pow2(32 - width), Pow2(from), x);
    Pow2Adds(from, bits);
    DivIs(v * Pow2(from) + x, Pow2(from), v, x);
    DivDiv(v * Pow2(from) + x, Pow2(from), Pow2(bits));
  }

  lemma NothingGrouped(width: nat, to: nat)
    ensures Grouped(0, 0, width, 0, to, [])
  {
    assert 0 == 0 + 0 * Pow2(width);
  }

  lemma MaskGrouped(v: int, acc: int, width: nat, bits: nat, to: nat, out: seq<int>)
    requires Grouped(v, acc, width, bits, to, out)
    ensures Grouped(v, acc % Pow2(width), width, bits, to, out)
  {
    MaskKeeps(acc, v, Pow2(width));
  }

  // ---------------------------------------------------------------- bytes to words

  /** What regrouping means: the same number, shifted by the padding. */
  ghost predicate Regroups(data: seq<int>, words: seq<int>) {
    && Digits(32, words) && 0 <= 5 * |words| - 8 * |data| < 5
    && Number(32, words) == Number(256, data) * Pow2(5 * |words| - 8 * |data|)
  }

  lemma RegroupsIsUnique(data: seq<int>, a: seq<int>, b: seq<int>)
    requires Regroups(data, a) && Regroups(data, b)
    ensures a == b
  {
    DigitsAreUnique(32, a, b);
  }

  /** The last, padded word. */
  lemma PadLast(v: int, acc: int, width: nat, bits: nat, out: seq<int>)
    requires Grouped(v, acc, width, bits, 5, out) && 0 < bits < 5 <= width <= 32
    ensures var last := Int32(acc * Pow2(5 - bits)) % 32;
            Digits(32, out + [last]) && Number(32, out + [last]) == v * Pow2(5 - bits)
  {
    hide Pow2, Number;
    Pow2Values();
    var p := Pow2(5 - bits);
    Pow2Adds(5 - bits, bits);
    var q, r := v / Pow2(bits), v % Pow2(bits);
    var last := Int32(acc * p) % 32;
    Pow2Adds(32 - width, width);
    ShiftAndAdd(acc, v, Pow2(width), Pow2(32 - width), p, 0);
    Pow2Adds(5, width - 5);
    LowBits(Int32(acc * p), v * p, Pow2(width), 1, 32, Pow2(width - 5));
    PadArithmetic(v, q, r, p, Pow2(bits));
    NumberPush(32, out, last);
  }

  lemma PadArithmetic(v: int, q: int, r: int, p: int, b: int)
    requires b > 0 && p > 0 && p * b == 32 && v == q * b + r && 0 <= r < b
    ensures v * p == q * 32 + v * p % 32
  {
    Distribute(q * b, r, p);
    Associate(q, b, p);
    AtLeastZero(r, p);
    AtLeastZero(b - r - 1, p);
    Distribute(b, r + 1, p);
    Distribute(r, 1, p);
    DivIs(v * p, 32, q, r * p);
  }

  /** `convertBits(data, 8, 5, true)`: the accumulator is never masked and wraps at 32 bits. */
  method ConvertBits(data: seq<int>) returns (words: seq<int>)
    requires Digits(256, data)
    ensures Regroups(data, words)
  {
    hide Grouped, Pow2, Number;
    Pow2Values();
    var acc, bits := 0, 0;
    words := [];
    NothingGrouped(32, 5);
    EmptyNumber(256);
    for i := 0 to |data|
      invariant 0 <= bits < 5 && 5 * |words| + bits == 8 * i
      invariant Grouped(Number(256, data[..i]), acc, 32, bits, 5, words)
    {
      ghost var v := Number(256, data[..i + 1]);
      NumberOfPrefix(256, data, i);
      ShiftIn(Number(256, data[..i]), acc, 32, bits, 5, words, 8, data[i]);
      acc := Int32(acc * 256) + data[i];
      bits := bits + 8;
      while bits >= 5
        invariant 0 <= bits < 13 && 5 * |words| + bits == 8 * (i + 1)
        invariant Grouped(v, acc, 32, bits, 5, words)
      {
        bits := bits - 5;
        PushShown(v, acc, 32, bits, 5, words);
        words := words + [acc / Pow2(bits) % 32];
      }
    }
    assert data[..|data|] == data;
    FinishWords(data, acc, 32, bits, words);
    if bits > 0 {
      words := words + [Int32(acc * Pow2(5 - bits)) % 32];
    }
  }

  lemma FinishWords(data: seq<int>, acc: int, width: nat, bits: nat, words: seq<int>)
    requires 0 <= bits < 5 <= width <= 32 && 5 * |words| + bits == 8 * |data|
    requires Grouped(Number(256, data), acc, width, bits, 5, words)
    ensures bits == 0 ==> Regroups(data, words)
    ensures bits > 0 ==> Regroups(data, words + [Int32(acc * Pow2(5 - bits)) % 32])
  {
    hide Number;
    Pow2Values();
    if bits > 0 { PadLast(Number(256, data), acc, width, bits, words); }
  }

  lemma EmptyNumber(base: nat)
    ensures Number(base, []) == 0
  {
  }

  lemma NumberOfPrefix(base: nat, ds: seq<int>, i: nat)
    requires i < |ds|
    ensures ds[..0] == [] && Number(base, ds[..i + 1]) == Number(base, ds[..i]) * base + ds[i]
  {
    assert ds[..i + 1] == ds[..i] + [ds[i]];
    NumberPush(base, ds[..i], ds[i]);
  }

  /** `toWords`: the accumulator is masked to 24 bits. */
  method ToWords(data: seq<int>) returns (words: seq<int>)
    requires Digits(256, data)
    ensures Regroups(data, words)
  {
    hide Grouped, Pow2, Number;
    Pow2Values();
    var acc, bits := 0, 0;
    words := [];
    NothingGrouped(24, 5);
    EmptyNumber(256);
    for i := 0 to |data|
      invariant 0 <= bits < 5 && 5 * |words| + bits == 8 * i
      invariant Grouped(Number(256, data[..i]), acc, 24, bits, 5, words)
    {
      ghost var v := Number(256, data[..i + 1]);
      NumberOfPrefix(256, data, i);
      ShiftIn(Number(256, data[..i]), acc, 24, bits, 5, words, 8, data[i]);
      MaskGrouped(v, Int32(acc * 256) + data[i], 24, bits + 8, 5, words);
      acc := (Int32(acc * 256) + data[i]) % TWO24;
      bits := bits + 8;
      while bits >= 5
        invariant 0 <= bits < 13 && 5 * |words| + bits == 8 * (i + 1)
        invariant Grouped(v, acc, 24, bits, 5, words)
      {
        bits := bits - 5;
        PushShown(v, acc, 24, bits, 5, words);
        words := words + [acc / Pow2(bits) % 32];
      }
    }
    assert data[..|data|] == data;
    FinishWords(data, acc, 24, bits, words);
    if bits > 0 {
      words := words + [Int32(acc * Pow2(5 - bits)) % 32];
    }
  }

  // ---------------------------------------------------------------- words to bytes

  /** What decoding the payload means: all whole bytes of the number the words write. */
  ghost predicate Unpacks(words: seq<int>, bytes: seq<int>) {
    && Digits(256, bytes) && 0 <= 5 * |words| - 8 * |bytes| < 8
    && Number(256, bytes) == Number(32, words) / Pow2(5 * |words| - 8 * |bytes|)
  }

  /** The loop of `bech32mDecode` over the payload. */
  method FromWords(words: seq<int>) returns (bytes: seq<int>)
    requires Digits(32, words)
    ensures Unpacks(words, bytes)
  {
    hide Grouped, Pow2, Number;
    Pow2Values();
    var acc, bits := 0, 0;
    bytes := [];
    NothingGrouped(32, 8);
    EmptyNumber(32);
    for i := 0 to |words|
      invariant 0 <= bits < 8 && 8 * |bytes| + bits == 5 * i
      invariant Grouped(Number(32, words[..i]), acc, 32, bits, 8, bytes)
    {
      ghost var v := Number(32, words[..i + 1]);
      NumberOfPrefix(32, words, i);
      ShiftIn(Number(32, words[..i]), acc, 32, bits, 8, bytes, 5, words[i]);
      acc := Int32(acc * 32) + words[i];
      bits := bits + 5;
      while bits >= 8
        invariant 0 <= bits < 13 && 8 * |bytes| + bits == 5 * (i + 1)
        invariant Grouped(v, acc, 32, bits, 8, bytes)
      {
        bits := bits - 8;
        PushShown(v, acc, 32, bits, 8, bytes);
        bytes := bytes + [acc / Pow2(bits) % 256];
      }
    }
    assert words[..|words|] == words;
    FinishBytes(words, acc, bits, bytes);
  }

  lemma FinishBytes(words: seq<int>, acc: int, bits: nat, bytes: seq<int>)
    requires 0 <= bits < 8 && 8 * |bytes| + bits == 5 * |words|
    requires Grouped(Number(32, words), acc, 32, bits, 8, bytes)
    ensures Unpacks(words, bytes)
  {
    hide Number;
    Pow2Values();
  }

  /** Unpacking undoes regrouping: the padding never makes up a byte. */
  lemma UnpackingInverts(data: seq<int>, words: seq<int>, bytes: seq<int>)
    requires Digits(256, data) && Regroups(data, words) && Unpacks(words, bytes)
    ensures bytes == data
  {
    hide Pow2, Number;
    assert |bytes| == |data|;
    var p := Pow2(5 * |words| - 8 * |data|);
    DivIs(Number(256, data) * p, p, Number(256, data), 0);
    DigitsAreUnique(256, bytes, data);
  }
}
