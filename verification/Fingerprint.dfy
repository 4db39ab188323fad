/** The 32-bit fingerprint that tells whether two parties hold the same API key. */
module Fingerprint {
  import opened Counting

  const MODULUS: nat := 0x1_0000_0000

  const PRIME: nat := 16_777_619

  /** The inverse of the prime modulo 2^32; it exists because the prime is odd. */
  const INVERSE: nat := 899_433_627

  const BASIS: nat := 2_166_136_261

  const ALPHABET: string :=
    "0123456789" +
    "abcdefghijklmnopqrstuvwxyzABCDEFGHIJKLMNOPQRSTUVWXYZ-_:/.+@=#%~!$^*()[]{}<>?,;|\\\"'` "

  // ---------------------------------------------------------------- exclusive or

  /** The exclusive or of the lowest bits. */
  function Odd(a: nat, b: nat): (r: nat)
    ensures r < 2
  {
    if a % 2 == b % 2 then 0 else 1
  }

  function Xor(a: nat, b: nat): (r: nat) {
    if a == 0 && b == 0 then 0 else Join(Odd(a, b), Xor(a / 2, b / 2))
  }

  /** A lowest bit and the rest. */
  function Join(low: nat, high: nat): (r: nat)
    requires low < 2
    ensures r % 2 == low && r / 2 == high && r == low + 2 * high
  {
    low + 2 * high
  }

  lemma {:induction false} XorBound(a: nat, b: nat, n: nat)
    requires a < Pow2(n) && b < Pow2(n)
    ensures Xor(a, b) < Pow2(n)
  {
    if n > 0 { XorBound(a / 2, b / 2, n - 1); }
  }

  lemma XorParts(a: nat, b: nat)
    ensures Xor(a, b) % 2 == Odd(a, b)
    ensures Xor(a, b) / 2 == if a == 0 && b == 0 then 0 else Xor(a / 2, b / 2)
  {
  }

  lemma CancelStep(a: nat, b: nat, x: nat, half: nat)
    requires x % 2 == Odd(a, b) && x / 2 == half && Xor(half, b / 2) == a / 2
    ensures Xor(x, b) == a
  {
    XorParts(x, b);
  }

  /** XOR with the same value undoes itself. */
  lemma {:induction false} XorCancel(a: nat, b: nat)
    ensures Xor(Xor(a, b), b) == a
    decreases a + b
  {
    if a == 0 && b == 0 {
      assert Xor(0, 0) == 0;
    } else {
      var half := Xor(a / 2, b / 2);
      XorCancel(a / 2, b / 2);
      XorParts(a, b);
      CancelStep(a, b, Xor(a, b), half);
    }
  }

  lemma {:induction false} XorCommutes(a: nat, b: nat)
    ensures Xor(a, b) == Xor(b, a)
  {
    if a != 0 || b != 0 { XorCommutes(a / 2, b / 2); }
  }

  lemma WordSize()
    ensures Pow2(32) == MODULUS
  {
    assert Pow2(8) == 256;
    assert Pow2(16) == 65536 by { assert Pow2(12) == 4096; }
    assert Pow2(24) == 16777216 by { assert Pow2(20) == 1048576; }
    assert Pow2(28) == 268435456;
  }

  // ---------------------------------------------------------------- one step

  type Word = x: nat | x < MODULUS

  function Multiply(x: nat): Word { x * PRIME % MODULUS }

  lemma ModOf(x: nat, q: int, r: nat)
    requires x == MODULUS * q + r && r < MODULUS
    ensures x % MODULUS == r
  {
  }

  /** Multiplication by the prime can be undone. */
  lemma Unmultiply(a: nat)
    requires a < MODULUS
    ensures Multiply(a) * INVERSE % MODULUS == a
  {
    var q, r := a * PRIME / MODULUS, a * PRIME % MODULUS;
    var k := 3_513_497;
    assert PRIME * INVERSE == MODULUS * k + 1;
    assert r * INVERSE == MODULUS * (a * k - q * INVERSE) + a by {
      assert a * PRIME == MODULUS * q + r;
      assert a * (PRIME * INVERSE) == (a * PRIME) * INVERSE;
      assert a * (MODULUS * k + 1) == MODULUS * (a * k) + a;
      assert (MODULUS * q + r) * INVERSE == MODULUS * (q * INVERSE) + r * INVERSE;
    }
    ModOf(r * INVERSE, a * k - q * INVERSE, a);
  }

  /** No two 32-bit values are mixed to the same value. */
  ghost predicate Injective(mix: nat -> Word) {
    forall x: nat, y: nat | x < MODULUS && y < MODULUS && mix(x) == mix(y) :: x == y
  }

  lemma MultiplyInjective()
    ensures Injective(Multiply)
  {
    forall x: nat, y: nat | x < MODULUS && y < MODULUS && Multiply(x) == Multiply(y) ensures x == y {
      Unmultiply(x);
      Unmultiply(y);
    }
  }

  /** XOR, then multiply. */
  function Step(mix: nat -> Word, value: nat, code: nat): Word { mix(Xor(value, code)) }

  /** For a fixed code each step is a bijection on 32-bit values; for a fixed value it is injective in the code. */
  lemma StepInjective(mix: nat -> Word, value: Word, code: Word, value': Word, code': Word)
    requires Injective(mix) && Step(mix, value, code) == Step(mix, value', code')
    ensures code == code' ==> value == value'
    ensures value == value' ==> code == code'
  {
    WordSize();
    XorBound(value, code, 32);
    XorBound(value', code', 32);
    assert Xor(value, code) == Xor(value', code');
    XorCancel(value, code);
    XorCancel(value', code');
    XorCommutes(value, code);
    XorCommutes(value', code');
    XorCancel(code, value);
    XorCancel(code', value');
  }

  // ---------------------------------------------------------------- the fingerprint

  function Find(alphabet: string, c: char): (r: nat)
    ensures r <= |alphabet|
    ensures r < |alphabet| ==> alphabet[r] == c
    ensures r == |alphabet| <==> c !in alphabet
  {
    if alphabet == "" then 0
    else if alphabet[0] == c then 0
    else
      assert c in alphabet ==> c in alphabet[1..];
      1 + Find(alphabet[1..], c)
  }

  function Code(c: char, index: nat): (r: nat)
    ensures r < MODULUS
  {
    var at := Find(ALPHABET, c);
    if at < |ALPHABET| then at else |ALPHABET| + index % 7
  }

  /** The code of each character of a key. */
  function Codes(key: string): nat -> Word {
    (i: nat) => if i < |key| then Code(key[i], i) else 0
  }

  /** The value after the first n codes. */
  function Value(mix: nat -> Word, codes: nat -> Word, n: nat): Word {
    if n == 0 then BASIS else Step(mix, Value(mix, codes, n - 1), codes(n - 1))
  }

  function HexDigit(d: nat): char
    requires d < 16
  {
    "0123456789abcdef"[d]
  }

  function Hex(v: nat, n: nat): (r: string)
    ensures |r| == n
  {
    if n == 0 then "" else Hex(v / 16, n - 1) + [HexDigit(v % 16)]
  }

  function Pow16(n: nat): nat { if n == 0 then 1 else 16 * Pow16(n - 1) }

  lemma {:induction false} HexInjective(v: nat, w: nat, n: nat)
    requires v < Pow16(n) && w < Pow16(n) && Hex(v, n) == Hex(w, n)
    ensures v == w
  {
    if n > 0 {
      var x, y := Hex(v, n), Hex(w, n);
      assert x[n - 1] == HexDigit(v % 16) && y[n - 1] == HexDigit(w % 16);
      assert x[..n - 1] == Hex(v / 16, n - 1) && y[..n - 1] == Hex(w / 16, n - 1);
      HexInjective(v / 16, w / 16, n - 1);
    }
  }

  function Fingerprint(key: string): string {
    if key == "" then "" else Hex(Value(Multiply, Codes(key), |key|), 8)
  }

  /** `api_key_fingerprint`. */
  method ApiKeyFingerprint(key: string) returns (r: string)
    ensures r == Fingerprint(key)
  {
    if key == "" { return ""; }
    var value := Digest(Multiply, Codes(key), |key|);
    r := Hex(value, 8);
  }

  method Digest(mix: nat -> Word, codes: nat -> Word, n: nat) returns (value: Word)
    ensures value == Value(mix, codes, n)
  {
    value := BASIS;
    for i := 0 to n
      invariant value == Value(mix, codes, i)
    {
      var code := codes(i);
      value := mix(Xor(value, code));
    }
  }

  lemma {:induction false} SamePrefix(mix: nat -> Word, a: nat -> Word, b: nat -> Word, n: nat)
    requires forall i: nat :: i < n ==> a(i) == b(i)
    ensures Value(mix, a, n) == Value(mix, b, n)
  {
    if n > 0 { SamePrefix(mix, a, b, n - 1); }
  }

  /** One different code changes the value for good. */
  lemma {:induction false} AfterDifference(mix: nat -> Word, a: nat -> Word, b: nat -> Word, p: nat, n: nat)
    requires Injective(mix) && p < n && a(p) != b(p) && forall i: nat :: i < n && i != p ==> a(i) == b(i)
    ensures Value(mix, a, n) != Value(mix, b, n)
  {
    var k: nat := n - 1;
    if k == p {
      SamePrefix(mix, a, b, p);
      if Value(mix, a, n) == Value(mix, b, n) { StepInjective(mix, Value(mix, a, p), a(p), Value(mix, b, p), b(p)); }
    } else {
      AfterDifference(mix, a, b, p, k);
      if Value(mix, a, n) == Value(mix, b, n) { StepInjective(mix, Value(mix, a, k), a(k), Value(mix, b, k), b(k)); }
    }
  }

  lemma CodesDiffer(c: char, d: char, index: nat)
    requires c != d
    ensures Code(c, index) == Code(d, index) <==> c !in ALPHABET && d !in ALPHABET
  {
  }

  /** Characters outside the alphabet share seven codes, by their position. */
  lemma OutsideCodes(c: char, i: nat, d: char, j: nat)
    requires c !in ALPHABET && d !in ALPHABET
    ensures Code(c, i) == Code(d, j) <==> i % 7 == j % 7
    ensures forall k :: 0 <= k < |ALPHABET| ==> ALPHABET[k] != c && Code(c, i) > k
  {
  }

  lemma {:induction false} XorZero(a: nat)
    ensures Xor(a, 0) == a
  {
    if a != 0 { XorZero(a / 2); }
  }

  /** A known value: the 32-bit FNV-1a hash of a single zero. */
  lemma KnownFingerprint(key: string)
    requires |key| == 1 && key[0] == '0'
    ensures Fingerprint(key) == "050c5d1f"
  {
    var codes := Codes(key);
    ZeroCode(key[0], 0);
    OneStep(Multiply, codes, BASIS);
    KnownProduct(BASIS);
    HexOfKnown(Value(Multiply, codes, 1));
  }

  lemma ZeroCode(c: char, index: nat)
    requires c == '0'
    ensures Code(c, index) == 0
  {
    assert ALPHABET[0] == c;
  }

  lemma OneStep(mix: nat -> Word, codes: nat -> Word, basis: nat)
    requires basis == BASIS && codes(0) == 0
    ensures Value(mix, codes, 1) == mix(basis)
  {
    assert Value(mix, codes, 0) == basis;
    XorZero(basis);
  }

  lemma KnownProduct(x: nat)
    requires x == 2_166_136_261
    ensures Multiply(x) == 84_696_351
  {
    ModOf(x * PRIME, 8461673, 84_696_351);
  }

  lemma HexOfKnown(v: nat)
    requires v == 84_696_351
    ensures Hex(v, 8) == "050c5d1f"
  {
    HexStep(v, 8, 5_293_521, 'f');
    HexStep(5_293_521, 7, 330_845, '1');
    HexStep(330_845, 6, 20_677, 'd');
    HexStep(20_677, 5, 1_292, '5');
    HexStep(1_292, 4, 80, 'c');
    HexStep(80, 3, 5, '0');
    HexStep(5, 2, 0, '5');
    HexStep(0, 1, 0, '0');
    assert Hex(0, 0) == "";
  }

  lemma HexStep(v: nat, n: nat, high: nat, digit: char)
    requires n > 0 && v / 16 == high && HexDigit(v % 16) == digit
    ensures Hex(v, n) == Hex(high, n - 1) + [digit]
  {
  }

  lemma HexWidth()
    ensures Pow16(8) == MODULUS
  {
    assert Pow16(4) == 65536;
    assert Pow16(6) == 16777216;
  }

  /** Same length, and the same everywhere but at p. */
  ghost predicate DifferAt(a: string, b: string, p: nat) {
    |a| == |b| && p < |a| && a[p] != b[p] && forall i :: 0 <= i < |a| && i != p ==> a[i] == b[i]
  }

  /** Keys that differ in one position collide exactly when both characters there are outside the alphabet. */
  lemma OneCharacterChange(a: string, b: string, p: nat)
    requires DifferAt(a, b, p)
    ensures Fingerprint(a) == Fingerprint(b) <==> a[p] !in ALPHABET && b[p] !in ALPHABET
  {
    CodesDiffer(a[p], b[p], p);
    var x, y, n := Codes(a), Codes(b), |a|;
    assert forall i: nat :: i < n && i != p ==> x(i) == y(i);
    if x(p) == y(p) {
      SamePrefix(Multiply, x, y, n);
    } else {
      MultiplyInjective();
      AfterDifference(Multiply, x, y, p, n);
      HexWidth();
      if Fingerprint(a) == Fingerprint(b) { HexInjective(Value(Multiply, x, n), Value(Multiply, y, n), 8); }
    }
  }
}
