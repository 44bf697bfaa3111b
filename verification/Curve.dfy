/** The conversion of an Ed25519 public key to X25519: the birational map of RFC 7748 section 4.1,
    on the encoding of RFC 8032 section 5.1.3. */
module CurveConversion {
  import opened Options

  type Bytes = seq<int>

  const PRIME := 57896044618658097711785492504343953926634992332820282019728792003956564819949

  predicate AreBytes(b: Bytes) {
    forall i | 0 <= i < |b| :: 0 <= b[i] < 256
  }

  function LittleEndian(b: Bytes): int {
    if b == [] then 0 else b[0] + 256 * LittleEndian(b[1..])
  }

  function BigEndian(b: Bytes): int {
    if b == [] then 0 else 256 * BigEndian(b[..|b| - 1]) + b[|b| - 1]
  }

  function Backwards(b: Bytes): (r: Bytes)
    ensures |r| == |b| && forall i | 0 <= i < |b| :: r[i] == b[|b| - 1 - i]
  {
    if b == [] then [] else Backwards(b[1..]) + [b[0]]
  }

  lemma {:induction false} BackwardsIsBigEndian(b: Bytes)
    ensures BigEndian(Backwards(b)) == LittleEndian(b)
  {
    if b != [] {
      BackwardsIsBigEndian(b[1..]);
      assert Backwards(b)[..|b| - 1] == Backwards(b[1..]);
    }
  }

  lemma {:induction false} SameBackwards(b: Bytes, r: Bytes)
    requires |r| == |b| && forall i | 0 <= i < |b| :: r[i] == b[|b| - 1 - i]
    ensures r == Backwards(b)
  {
  }

  function Power256(k: nat): int {
    if k == 0 then 1 else 256 * Power256(k - 1)
  }

  /** `FillBytes` into `k` bytes. */
  function Filled(n: int, k: nat): (b: Bytes)
    requires 0 <= n
    ensures |b| == k && AreBytes(b)
  {
    if k == 0 then [] else Filled(n / 256, k - 1) + [n % 256]
  }

  lemma {:induction false} FilledValue(n: int, k: nat)
    requires 0 <= n < Power256(k)
    ensures BigEndian(Filled(n, k)) == n
  {
    if k > 0 {
      FilledValue(n / 256, k - 1);
      assert Filled(n, k)[..k - 1] == Filled(n / 256, k - 1);
    }
  }

  lemma {:induction false} LittleEndianIsUnique(a: Bytes, b: Bytes)
    requires |a| == |b| && AreBytes(a) && AreBytes(b) && LittleEndian(a) == LittleEndian(b)
    ensures a == b
  {
    if a != [] {
      assert a[0] == LittleEndian(a) % 256 && b[0] == LittleEndian(b) % 256;
      LittleEndianIsUnique(a[1..], b[1..]);
      assert a == [a[0]] + a[1..] && b == [b[0]] + b[1..];
    }
  }

  function Times(k: int, p: int): int {
    k * p
  }

  /** `a` and `b` leave the same remainder modulo `p`. */
  ghost predicate Congruent(a: int, b: int, p: int) {
    exists k :: a - b == Times(k, p)
  }

  lemma CongruentBy(a: int, b: int, p: int, k: int)
    requires a - b == k * p
    ensures Congruent(a, b, p)
  {
    assert a - b == Times(k, p);
  }

  lemma CongruentProducts(a: int, b: int, c: int, p: int)
    requires Congruent(a, b, p)
    ensures Congruent(a * c, b * c, p)
  {
    var k :| a - b == Times(k, p);
    assert a * c - b * c == (a - b) * c == k * p * c == k * c * p;
    CongruentBy(a * c, b * c, p, k * c);
  }

  lemma CongruentSums(a: int, b: int, c: int, d: int, p: int)
    requires Congruent(a, b, p) && Congruent(c, d, p)
    ensures Congruent(a + c, b + d, p) && Congruent(a - c, b - d, p)
  {
    var k :| a - b == Times(k, p);
    var m :| c - d == Times(m, p);
    assert k * p + m * p == (k + m) * p && k * p - m * p == (k - m) * p;
    CongruentBy(a + c, b + d, p, k + m);
    CongruentBy(a - c, b - d, p, k - m);
  }

  lemma CongruentChain(a: int, b: int, c: int, p: int)
    requires Congruent(a, b, p) && (Congruent(b, c, p) || Congruent(c, b, p))
    ensures Congruent(a, c, p) && Congruent(c, a, p)
  {
    if Congruent(c, b, p) {
      CongruentTurned(c, b, p);
    }
    var k :| a - b == Times(k, p);
    var m :| b - c == Times(m, p);
    assert k * p + m * p == (k + m) * p;
    CongruentBy(a, c, p, k + m);
    CongruentTurned(a, c, p);
  }

  lemma CongruentTurned(a: int, b: int, p: int)
    requires Congruent(a, b, p)
    ensures Congruent(b, a, p)
  {
    var k :| a - b == Times(k, p);
    assert -(k * p) == (-k) * p;
    CongruentBy(b, a, p, -k);
  }

  lemma RemainderIsCongruent(a: int, p: int)
    requires p > 0
    ensures Congruent(a % p, a, p)
  {
    assert a % p - a == -(a / p) * p;
    CongruentBy(a % p, a, p, -(a / p));
  }

  lemma SmallCongruent(a: int, b: int, p: int)
    requires 0 <= a < p && 0 <= b < p && Congruent(a, b, p)
    ensures a == b
  {
    var k :| a - b == Times(k, p);
    assert k >= 1 ==> k * p >= p;
    assert k <= -1 ==> k * p <= -p;
  }

  lemma InverseCarries(x: int, d: int, e: int, p: int)
    requires Congruent(d, e, p) && IsInverse(x, e, p)
    ensures IsInverse(x, d, p)
  {
    CongruentProducts(d, e, x, p);
    assert d * x == x * d && e * x == x * e;
    CongruentChain(x * d, x * e, 1, p);
  }

  /** The map u = (1 + y) / (1 - y) modulo `p`. */
  ghost predicate IsImage(y: int, u: int, p: int) {
    0 <= u < p && Congruent(u * (1 - y), 1 + y, p)
  }

  ghost predicate HasImage(y: int, p: int) {
    exists u :: IsImage(y, u, p)
  }

  ghost predicate IsInverse(x: int, d: int, p: int) {
    Congruent(x * d, 1, p)
  }

  /** 2 has the inverse `h`, so u + 1 and 1 - y are invertible: their product is 2. */
  lemma InverseFromImage(y: int, u: int, h: int, p: int)
    requires IsImage(y, u, p) && 2 * h == p + 1
    ensures IsInverse((1 - y) * h, u + 1, p) && IsInverse((u + 1) * h, 1 - y, p)
  {
    hide Congruent;
    CongruentBy(1 - y, 1 - y, p, 0);
    CongruentSums(u * (1 - y), 1 + y, 1 - y, 1 - y, p);
    assert u * (1 - y) + (1 - y) == (u + 1) * (1 - y);
    CongruentBy(2 * h, 1, p, 1);
    HalvedFactors(u + 1, 1 - y, h, p);
  }

  lemma HalvedFactors(a: int, b: int, h: int, p: int)
    requires Congruent(a * b, 2, p) && Congruent(2 * h, 1, p)
    ensures IsInverse(b * h, a, p) && IsInverse(a * h, b, p)
  {
    hide Congruent;
    CongruentProducts(a * b, 2, h, p);
    CongruentChain(a * b * h, 2 * h, 1, p);
    assert b * h * a == a * b * h == a * h * b;
  }

  /** Multiplying by an invertible number loses nothing. */
  lemma Cancels(a: int, b: int, d: int, x: int, p: int)
    requires Congruent(a * d, b * d, p) && IsInverse(x, d, p)
    ensures Congruent(a, b, p)
  {
    CongruentProducts(a * d, b * d, x, p);
    CongruentProducts(x * d, 1, a, p);
    CongruentProducts(x * d, 1, b, p);
    assert a * d * x == x * d * a && b * d * x == x * d * b;
    CongruentTurned(x * d * a, a, p);
    CongruentChain(a, x * d * a, x * d * b, p);
    CongruentChain(a, x * d * b, b, p);
  }

  /** Modulo an odd number a key has at most one image. */
  lemma ImageIsUnique(y: int, u: int, v: int, p: int)
    requires p % 2 == 1 && IsImage(y, u, p) && IsImage(y, v, p)
    ensures u == v
  {
    hide Congruent;
    var h := (p + 1) / 2;
    InverseFromImage(y, u, h, p);
    CongruentChain(u * (1 - y), 1 + y, v * (1 - y), p);
    Cancels(u, v, 1 - y, (u + 1) * h, p);
    SmallCongruent(u, v, p);
  }

  /** Modulo an odd number different keys have different images. */
  lemma ImageIsInjective(y: int, z: int, u: int, p: int)
    requires p % 2 == 1 && 0 <= y < p && 0 <= z < p && IsImage(y, u, p) && IsImage(z, u, p)
    ensures y == z
  {
    hide Congruent;
    var h := (p + 1) / 2;
    Solved(y, u, p);
    Solved(z, u, p);
    CongruentChain(y * (u + 1), u - 1, z * (u + 1), p);
    InverseFromImage(y, u, h, p);
    Cancels(y, z, u + 1, (1 - y) * h, p);
    SmallCongruent(y, z, p);
  }

  /** The map, solved for y (u + 1) = u - 1. */
  lemma Solved(y: int, u: int, p: int)
    requires IsImage(y, u, p)
    ensures Congruent(y * (u + 1), u - 1, p)
  {
    hide Congruent;
    CongruentTurned(u * (1 - y), 1 + y, p);
    CongruentBy(u - 1 - u * (1 - y), u - 1 - u * (1 - y), p, 0);
    CongruentSums(1 + y, u * (1 - y), u - 1 - u * (1 - y), u - 1 - u * (1 - y), p);
    assert 1 + y + (u - 1 - u * (1 - y)) == y * (u + 1);
    assert u * (1 - y) + (u - 1 - u * (1 - y)) == u - 1;
  }

  /** Multiplying 1 + y by an inverse of 1 - y computes the image. */
  lemma ProductIsImage(y: int, d: int, x: int, p: int)
    requires p > 0 && Congruent(d, 1 - y, p) && IsInverse(x, d, p)
    ensures IsImage(y, ((1 + y) * x) % p, p)
  {
    hide Congruent, IsInverse;
    Quotient(1 + y, 1 - y, d, x, p);
  }

  lemma Quotient(n: int, e: int, d: int, x: int, p: int)
    requires p > 0 && Congruent(d, e, p) && IsInverse(x, d, p)
    ensures 0 <= (n * x) % p < p && Congruent(((n * x) % p) * e, n, p)
  {
    hide Congruent;
    InverseTurned(x, d, e, p);
    var w := n * x;
    RemainderIsCongruent(w, p);
    CongruentProducts(w % p, w, e, p);
    CongruentProducts(x * e, 1, n, p);
    Regrouped(n, x, e);
    CongruentChain((w % p) * e, w * e, n, p);
  }

  lemma Regrouped(n: int, x: int, e: int)
    ensures n * x * e == x * e * n
  {
  }

  lemma InverseTurned(x: int, d: int, e: int, p: int)
    requires Congruent(d, e, p) && IsInverse(x, d, p)
    ensures IsInverse(x, e, p)
  {
    CongruentTurned(d, e, p);
    InverseCarries(x, e, d, p);
  }

  predicate Divides(d: int, n: int)
    requires d > 0
  {
    n % d == 0
  }

  ghost predicate IsPrime(p: int) {
    p > 1 && forall d | 1 < d < p :: !Divides(d, p)
  }

  /** The extended Euclidean algorithm. */
  lemma {:induction false} Bezout(a: int, b: int) returns (g: int, x: int, y: int)
    requires 0 <= a && 0 < b
    ensures 0 < g <= b && Divides(g, a) && Divides(g, b) && a * x + b * y == g
    decreases b
  {
    if a % b == 0 {
      g, x, y := b, 0, 1;
    } else {
      var q, r := a / b, a % b;
      var x', y';
      g, x', y' := Bezout(b, r);
      x, y := y', x' - q * y';
      assert a == q * b + r;
      assert a * x + b * y == (q * b + r) * y' + b * (x' - q * y') == b * x' + r * y';
      DividesSum(g, q, b, r);
    }
  }

  lemma DividesSum(g: int, q: int, b: int, r: int)
    requires g > 0 && Divides(g, b) && Divides(g, r)
    ensures Divides(g, q * b + r)
  {
    var m, n := b / g, r / g;
    assert b == m * g && r == n * g;
    assert q * b + r == (q * m + n) * g;
    MultipleDivides(q * m + n, g);
  }

  lemma MultipleDivides(k: int, g: int)
    requires g > 0
    ensures Divides(g, k * g)
  {
    var q, r := (k * g) / g, (k * g) % g;
    assert (k - q) * g == r;
    assert k - q >= 1 ==> (k - q) * g >= g;
    assert k - q <= -1 ==> (k - q) * g <= -g;
  }

  /** For an odd prime modulus the only key without an image is y = 1. */
  lemma OnlyOneHasNoImage(y: int, p: int)
    requires IsPrime(p) && p > 2 && 0 <= y < p
    ensures HasImage(y, p) <==> y != 1
  {
    if y == 1 {
      forall u
        ensures !IsImage(1, u, p)
      {
        if IsImage(1, u, p) {
          assert u * (1 - 1) == 0;
          SmallCongruent(0, 2, p);
          assert false;
        }
      }
    } else {
      hide Congruent;
      var d := if y == 0 then 1 else 1 - y + p;
      var g, x, k := Bezout(p, d);
      assert g == 1;
      CongruentBy(k * d, 1, p, -x) by { assert p * x + d * k == 1; }
      CongruentBy(d, 1 - y, p, if y == 0 then 0 else 1);
      ProductIsImage(y, d, k, p);
    }
  }

  /** The encoded y coordinate: the sign bit is cleared. */
  function Coordinate(public: Bytes): int
    requires |public| == 32
  {
    LittleEndian(public[31 := public[31] % 128])
  }

  method Reverse(a: array<int>)
    modifies a
    ensures a[..] == Backwards(old(a[..]))
  {
    var left, right := 0, a.Length - 1;
    while left < right
      invariant 0 <= left && right == a.Length - 1 - left && left <= right + 1
      invariant forall k | 0 <= k < left || right < k < a.Length :: a[k] == old(a[a.Length - 1 - k])
      invariant forall k | left <= k <= right :: a[k] == old(a[k])
    {
      a[left], a[right] := a[right], a[left];
      left, right := left + 1, right - 1;
    }
    SameBackwards(old(a[..]), a[..]);
  }

  method ModInverse(d: int, p: int) returns (x: Option<int>)
    requires p > 1
    ensures x.Some? ==> 0 <= x.value < p && IsInverse(x.value, d, p)
    ensures x.None? ==> forall z :: !IsInverse(z, d, p)
  {
    if exists z | 0 <= z < p :: Times(z, d) % p == 1 {
      var z :| 0 <= z < p && Times(z, d) % p == 1;
      CongruentBy(z * d, 1, p, (z * d) / p);
      return Some(z);
    }
    forall z
      ensures !IsInverse(z, d, p)
    {
      if IsInverse(z, d, p) {
        ReducedInverse(z, d, p);
        assert false;
      }
    }
    return None;
  }

  lemma ReducedInverse(z: int, d: int, p: int)
    requires p > 1 && IsInverse(z, d, p)
    ensures Times(z % p, d) % p == 1
  {
    var r := (z % p) * d;
    RemainderIsCongruent(z, p);
    CongruentProducts(z % p, z, d, p);
    CongruentChain(r, z * d, 1, p);
    RemainderIsCongruent(r, p);
    CongruentChain(r % p, r, 1, p);
    SmallCongruent(r % p, 1, p);
  }

  /** Which keys have an image, if the modulus is prime. */
  lemma ConvertsAllButOne(y: int, p: int)
    requires 0 <= y && p > 2
    ensures IsPrime(p) ==> (y < p && HasImage(y, p) <==> y < p && y != 1)
  {
    if IsPrime(p) && y < p {
      OnlyOneHasNoImage(y, p);
    }
  }

  /** `ed25519PublicToX25519`: fails exactly on malformed keys and on keys without an image, and
      otherwise returns the encoding of the image. */
  method PublicToX25519(public: Bytes) returns (converted: Option<Bytes>)
    requires AreBytes(public)
    ensures converted.Some? <==>
              |public| == 32 && Coordinate(public) < PRIME && HasImage(Coordinate(public), PRIME)
    ensures IsPrime(PRIME) ==>
              (converted.Some? <==> |public| == 32 && Coordinate(public) < PRIME && Coordinate(public) != 1)
    ensures converted.Some? ==>
              && |converted.value| == 32 && AreBytes(converted.value)
              && IsImage(Coordinate(public), LittleEndian(converted.value), PRIME)
  {
    if |public| != 32 {
      return None;
    }
    var work := new int[32](i requires 0 <= i < 32 => public[i]);
    work[31] := work[31] % 128;
    assert work[..] == public[31 := public[31] % 128];
    BackwardsIsBigEndian(work[..]);
    NotNegative(work[..]);
    ConvertsAllButOne(Coordinate(public), PRIME);
    Reverse(work);
    var y := BigEndian(work[..]);
    if y >= PRIME {
      return None;
    }
    var denominator := (1 - y) % PRIME;
    RemainderIsCongruent(1 - y, PRIME);
    var inverse := ModInverse(denominator, PRIME);
    if inverse.None? {
      NoInverseNoImage(y, denominator, (PRIME + 1) / 2, PRIME);
      return None;
    }
    var u := ((1 + y) * inverse.value) % PRIME;
    ProductIsImage(y, denominator, inverse.value, PRIME);
    var filled := Filled(u, 32);
    PrimeFits();
    FilledValue(u, 32);
    var bytes := new int[32](i requires 0 <= i < 32 => filled[i]);
    assert bytes[..] == filled;
    Reverse(bytes);
    ReversedValue(filled);
    return Some(bytes[..]);
  }

  lemma PrimeFits()
    ensures PRIME < Power256(32)
  {
    assert Power256(8) == 0x1_0000_0000_0000_0000;
    assert Power256(16) == 0x1_0000_0000_0000_0000_0000_0000_0000_0000;
    assert Power256(24) == 0x1_0000_0000_0000_0000_0000_0000_0000_0000_0000_0000_0000_0000;
  }

  lemma ReversedValue(b: Bytes)
    requires AreBytes(b)
    ensures LittleEndian(Backwards(b)) == BigEndian(b) && AreBytes(Backwards(b))
  {
    hide Backwards, LittleEndian, BigEndian;
    BackwardsIsBigEndian(Backwards(b));
    SameBackwards(Backwards(b), b);
  }

  lemma NoInverseNoImage(y: int, d: int, h: int, p: int)
    requires Congruent(d, 1 - y, p) && 2 * h == p + 1 && forall z :: !IsInverse(z, d, p)
    ensures !HasImage(y, p)
  {
    forall u
      ensures !IsImage(y, u, p)
    {
      if IsImage(y, u, p) {
        InverseFromImage(y, u, h, p);
        InverseCarries((u + 1) * h, d, 1 - y, p);
        assert false;
      }
    }
  }

  /** Two keys are converted to the same bytes exactly if they differ at most in the sign bit. */
  lemma OnlyTheSignIsIgnored(a: Bytes, b: Bytes, x: Bytes, p: int)
    requires |a| == |b| == 32 && AreBytes(a) && AreBytes(b) && p % 2 == 1
    requires Coordinate(a) < p && Coordinate(b) < p && IsImage(Coordinate(a), LittleEndian(x), p)
    ensures IsImage(Coordinate(b), LittleEndian(x), p) <==>
            a[..31] == b[..31] && a[31] % 128 == b[31] % 128
  {
    hide Congruent, LittleEndian;
    var c, d := a[31 := a[31] % 128], b[31 := b[31] % 128];
    NotNegative(c);
    NotNegative(d);
    if a[..31] == b[..31] && a[31] % 128 == b[31] % 128 {
      assert c == a[..31] + [a[31] % 128] && d == b[..31] + [b[31] % 128];
    }
    if IsImage(Coordinate(b), LittleEndian(x), p) {
      ImageIsInjective(Coordinate(a), Coordinate(b), LittleEndian(x), p);
      LittleEndianIsUnique(c, d);
      assert a[..31] == c[..31] && b[..31] == d[..31];
      assert c[31] == d[31];
    }
  }

  lemma {:induction false} NotNegative(b: Bytes)
    requires AreBytes(b)
    ensures LittleEndian(b) >= 0
  {
    if b != [] {
      NotNegative(b[1..]);
    }
  }
}
