/** Bit sequences, least significant bit first, and the numbers they stand for. */
module Bits {

  function Pow2(n: nat): (p: nat)
    ensures p > 0
  {
    if n == 0 then 1 else 2 * Pow2(n - 1)
  }

  lemma {:induction false} PowOrder(a: nat, b: nat)
    ensures a <= b ==> Pow2(a) <= Pow2(b)
  {
    if a < b { PowOrder(a, b - 1); }
  }

  /** The `len` low bits of `n`. */
  function Low(n: nat, len: nat): (b: seq<bool>)
    ensures |b| == len
  {
    if len == 0 then [] else [n % 2 == 1] + Low(n / 2, len - 1)
  }

  function Value(b: seq<bool>): nat {
    if b == [] then 0 else (if b[0] then 1 else 0) + 2 * Value(b[1..])
  }

  /** Bits needed to write `n`: none for zero. */
  function Met(n: nat): nat { if n == 0 then 0 else 1 + Met(n / 2) }

  function Zeros(n: nat): (b: seq<bool>)
    ensures |b| == n && forall i :: 0 <= i < n ==> !b[i]
  {
    if n == 0 then [] else [false] + Zeros(n - 1)
  }

  lemma {:induction false} ValueBound(b: seq<bool>)
    ensures Value(b) < Pow2(|b|)
  {
    if b != [] { ValueBound(b[1..]); }
  }

  lemma {:induction false} ValueLow(n: nat, len: nat)
    requires n < Pow2(len)
    ensures Value(Low(n, len)) == n
  {
    if len > 0 {
      ValueLow(n / 2, len - 1);
      assert Low(n, len)[1..] == Low(n / 2, len - 1);
    }
  }

  lemma {:induction false} LowValue(b: seq<bool>)
    ensures Low(Value(b), |b|) == b
  {
    if b != [] { LowValue(b[1..]); }
  }

  lemma {:induction false} MetBound(n: nat)
    ensures n < Pow2(Met(n))
    ensures n > 0 ==> Met(n) > 0 && Pow2(Met(n) - 1) <= n
  {
    if n > 0 { MetBound(n / 2); }
  }

  lemma {:induction false} MetUnique(n: nat, k: nat)
    requires k > 0 && Pow2(k - 1) <= n < Pow2(k)
    ensures Met(n) == k
  {
    if k > 1 { MetUnique(n / 2, k - 1); }
  }

  lemma {:induction false} PowPlus(a: nat, b: nat)
    ensures Pow2(a + b) == Pow2(a) * Pow2(b)
  {
    if a > 0 {
      PowPlus(a - 1, b);
      assert Pow2(a + b) == 2 * (Pow2(a - 1) * Pow2(b));
    }
  }

  /** Low bits of a number written as two parts. */
  lemma {:induction false} LowJoin(a: nat, k: nat, b: nat, m: nat)
    requires a < Pow2(k)
    ensures Low(a + Pow2(k) * b, k + m) == Low(a, k) + Low(b, m)
  {
    if k == 0 {
      assert Low(a, 0) + Low(b, m) == Low(b, m);
    } else {
      var n := a + Pow2(k) * b;
      assert Pow2(k) * b == 2 * (Pow2(k - 1) * b);
      assert n % 2 == a % 2 && n / 2 == a / 2 + Pow2(k - 1) * b;
      LowJoin(a / 2, k - 1, b, m);
      assert Low(a, k) + Low(b, m) == [a % 2 == 1] + (Low(a / 2, k - 1) + Low(b, m));
    }
  }

  lemma Assoc<T>(a: seq<T>, b: seq<T>, c: seq<T>)
    ensures a + (b + c) == (a + b) + c
  {
  }

  lemma DivUnique(n: nat, d: nat, q: nat, r: nat)
    requires n == d * q + r && r < d
    ensures n / d == q && n % d == r
  {
    var q', r' := n / d, n % d;
    assert d * q' + r' == n;
    MulMono(d, q', q);
    MulMono(d, q, q');
  }

  lemma {:induction false} MulMono(d: nat, a: nat, b: nat)
    ensures a < b ==> d * a + d <= d * b
    decreases b
  {
    if a + 1 < b {
      MulMono(d, a, b - 1);
      assert d * b == d * (b - 1) + d;
    }
  }

  lemma DivTwice(n: nat, p: nat)
    requires p > 0
    ensures n / (2 * p) == n / 2 / p && n % (2 * p) == 2 * (n / 2 % p) + n % 2
  {
    var q, r := n / 2 / p, n / 2 % p;
    assert n / 2 == p * q + r;
    assert n == (2 * p) * q + (2 * r + n % 2);
    DivUnique(n, 2 * p, q, 2 * r + n % 2);
  }

  /** Shift right. */
  function Shr(n: nat, k: nat): nat { if k == 0 then n else Shr(n / 2, k - 1) }

  lemma {:induction false} ShrIsDiv(n: nat, k: nat)
    ensures Shr(n, k) == n / Pow2(k)
  {
    if k > 0 {
      ShrIsDiv(n / 2, k - 1);
      DivTwice(n, Pow2(k - 1));
    }
  }

  lemma {:induction false} ShrSmall(n: nat, a: nat, b: nat)
    requires n < Pow2(a + b)
    ensures Shr(n, a) < Pow2(b)
  {
    if a > 0 { ShrSmall(n / 2, a - 1, b); }
  }

  /** The low bits split at `k`. */
  lemma {:induction false} LowSplit(n: nat, k: nat, m: nat)
    ensures Low(n, k + m) == Low(n, k) + Low(Shr(n, k), m)
  {
    if k == 0 {
      assert Low(n, 0) + Low(n, m) == Low(n, m);
    } else {
      LowSplit(n / 2, k - 1, m);
      Assoc([n % 2 == 1], Low(n / 2, k - 1), Low(Shr(n, k), m));
    }
  }

  lemma HalfMod(n: nat, k: nat)
    requires k > 0
    ensures n % Pow2(k) % 2 == n % 2 && n % Pow2(k) / 2 == n / 2 % Pow2(k - 1)
  {
    var p := Pow2(k - 1);
    assert Pow2(k) == 2 * p;
    hide Pow2;
    DivTwice(n, p);
  }

  /** Masking keeps the low bits. */
  lemma {:induction false} LowMod(n: nat, k: nat)
    ensures Low(n % Pow2(k), k) == Low(n, k)
  {
    if k > 0 {
      HalfMod(n, k);
      LowMod(n / 2, k - 1);
    }
  }

  lemma {:induction false} LowOfSmall(n: nat, k: nat, m: nat)
    requires n < Pow2(k)
    ensures Low(n, k + m) == Low(n, k) + Zeros(m)
  {
    LowJoin(n, k, 0, m);
    LowZero(m);
  }

  lemma {:induction false} LowZero(m: nat)
    ensures Low(0, m) == Zeros(m)
  {
    if m > 0 { LowZero(m - 1); }
  }

  lemma {:induction false} ValueJoin(a: seq<bool>, b: seq<bool>)
    ensures Value(a + b) == Value(a) + Pow2(|a|) * Value(b)
  {
    if a == [] {
      assert a + b == b;
    } else {
      assert (a + b)[1..] == a[1..] + b;
      ValueJoin(a[1..], b);
      PowTimes(|a|, Value(b));
      hide Pow2;
    }
  }

  lemma PowTimes(k: nat, v: nat)
    requires k > 0
    ensures Pow2(k) * v == 2 * (Pow2(k - 1) * v)
  {
  }

  lemma {:induction false} ZerosJoin(a: nat, b: nat)
    ensures Zeros(a) + Zeros(b) == Zeros(a + b)
  {
    if a > 0 {
      ZerosJoin(a - 1, b);
      assert Zeros(a) + Zeros(b) == [false] + (Zeros(a - 1) + Zeros(b));
    } else {
      assert Zeros(0) + Zeros(b) == Zeros(b);
    }
  }

  lemma AllZeros(b: seq<bool>)
    requires forall i :: 0 <= i < |b| ==> !b[i]
    ensures b == Zeros(|b|)
  {
  }

  /** Exclusive or, bit by bit. */
  function Xor(a: nat, b: nat): nat
    decreases a + b
  {
    if a == 0 then b else if b == 0 then a
    else (a + b) % 2 + 2 * Xor(a / 2, b / 2)
  }

  /** On numbers with no bits in common, exclusive or is addition: how parts of a byte are merged. */
  lemma {:induction false} XorJoin(a: nat, k: nat, b: nat)
    requires a < Pow2(k)
    ensures Xor(a, Pow2(k) * b) == a + Pow2(k) * b
    decreases k
  {
    if k > 0 && a > 0 && b > 0 {
      XorJoin(a / 2, k - 1, b);
      var c := Pow2(k - 1) * b;
      assert Pow2(k) * b == 2 * c;
      XorEven(a, c);
    }
  }

  lemma XorEven(a: nat, c: nat)
    requires a > 0 && c > 0
    ensures Xor(a, 2 * c) == a % 2 + 2 * Xor(a / 2, c)
  {
    assert 2 * c / 2 == c && (a + 2 * c) % 2 == a % 2;
  }

  // ---- bytes ----

  predicate IsByte(b: nat) { b < 0x100 }

  predicate AreBytes(s: seq<nat>) { forall i :: 0 <= i < |s| ==> IsByte(s[i]) }

  /** The bits of a byte buffer. */
  function Stream(s: seq<nat>): (b: seq<bool>)
    ensures |b| == 8 * |s|
  {
    if s == [] then [] else Low(s[0], 8) + Stream(s[1..])
  }

  lemma {:induction false} StreamJoin(a: seq<nat>, b: seq<nat>)
    ensures Stream(a + b) == Stream(a) + Stream(b)
  {
    if a == [] {
      assert a + b == b;
    } else {
      assert (a + b)[1..] == a[1..] + b;
      StreamJoin(a[1..], b);
    }
  }

  lemma StreamOne(b: nat)
    ensures Stream([b]) == Low(b, 8)
  {
    assert [b][1..] == [];
    assert Stream([b]) == Low(b, 8) + Stream([b][1..]);
  }

  lemma Parts<T>(s: seq<T>, i: nat)
    requires i < |s|
    ensures s == s[..i] + ([s[i]] + s[i + 1..])
  {
  }

  /** A buffer's bits before, in and after one byte. */
  lemma StreamAt(s: seq<nat>, i: nat)
    requires i < |s|
    ensures Stream(s) == Stream(s[..i]) + Low(s[i], 8) + Stream(s[i + 1..])
  {
    hide Low, Stream;
    Parts(s, i);
    StreamJoin(s[..i], [s[i]] + s[i + 1..]);
    StreamJoin([s[i]], s[i + 1..]);
    StreamOne(s[i]);
    Assoc(Stream(s[..i]), Low(s[i], 8), Stream(s[i + 1..]));
  }

  /** A buffer's bits from byte `i` on. */
  lemma StreamFrom(s: seq<nat>, i: nat)
    requires i <= |s|
    ensures Stream(s)[8 * i..] == Stream(s[i..]) && Stream(s)[..8 * i] == Stream(s[..i])
  {
    assert s == s[..i] + s[i..];
    StreamJoin(s[..i], s[i..]);
  }

  lemma {:induction false} StreamZeros(n: nat)
    ensures Stream(seq(n, i => 0)) == Zeros(8 * n)
  {
    if n > 0 {
      var s := seq(n, i => 0);
      assert s[1..] == seq(n - 1, i => 0);
      StreamZeros(n - 1);
      LowZero(8);
      ZerosJoin(8, 8 * (n - 1));
    }
  }
}
