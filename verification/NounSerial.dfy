/** Serialization of nouns held on the loom (pkg/urbit/noun/serial.c): `u3s_jam_fib` chops bits
    into a growing word buffer, `u3s_jam_xeno` writes through the bitstream. The hash table from
    nouns to positions is a map here; an atom's words are its number. */
module NounSerial {
  import opened Nouns
  import opened Bits
  import opened BitWriter
  import opened JamSpec
  import opened JamWalk
  import opened HashCons
  import opened Serial

  const WORDS: nat := 0x1_0000_0000

  /** The largest fibonacci number of 32 bits: no buffer has more bits. */
  const FIB47: nat := 2971215073

  // ---- bits in words ----

  /** Bit `i` of a word buffer. */
  function BitIn(buf: seq<nat>, i: nat): bool
    requires i < 32 * |buf|
  {
    Low(buf[i / 32], 32)[i % 32]
  }

  /** The buffer holds exactly `w`, and zeros past it. */
  predicate Filled(buf: seq<nat>, w: seq<bool>) {
    && |w| <= 32 * |buf| && (forall i | 0 <= i < |buf| :: buf[i] < WORDS)
    && (forall i | 0 <= i < 32 * |buf| :: BitIn(buf, i) == (i < |w| && w[i]))
  }

  lemma ThirtyTwo()
    ensures Pow2(32) == WORDS
  {
    PowEight();
    PowPlus(8, 8);
    PowPlus(16, 16);
  }

  /** A word whose bits from `r` on are clear is small. */
  lemma SmallWord(n: nat, r: nat)
    requires n < WORDS && r <= 32 && forall j | r <= j < 32 :: !Low(n, 32)[j]
    ensures n < Pow2(r)
  {
    hide Low, Value, Pow2;
    ThirtyTwo();
    var b := Low(n, 32);
    AllZeros(b[r..]);
    assert b == b[..r] + Zeros(32 - r);
    ValueJoin(b[..r], Zeros(32 - r));
    NoValue(32 - r);
    ValueLow(n, 32);
    ValueBound(b[..r]);
  }

  lemma NoValue(k: nat)
    ensures Value(Zeros(k)) == 0
  {
  }

  /** Exclusive or with one bit past the bits in use sets just that bit. */
  lemma SetBit(n: nat, r: nat, bit: nat)
    requires n < Pow2(r) && r < 32 && bit < 2
    ensures var m := Xor(n, Pow2(r) * bit); m < WORDS && forall j | 0 <= j < 32 :: Low(m, 32)[j] == if j == r then bit == 1 else Low(n, 32)[j]
  {
    hide Low, Pow2, Xor;
    var m := n + Pow2(r) * bit;
    XorJoin(n, r, bit);
    LowJoin(n, r, bit, 32 - r);
    LowOfSmall(n, r, 32 - r);
    LowBit(bit, 32 - r);
    PowPlus(r, 1);
    PowOne();
    PowOrder(r + 1, 32);
    ThirtyTwo();
    assert m < Pow2(r + 1) by { if bit == 0 { assert Pow2(r) * bit == 0; } else { assert Pow2(r) * bit == Pow2(r); } }
    assert Low(m, 32) == Low(n, r) + ([bit == 1] + Zeros(31 - r));
    assert Low(n, 32) == Low(n, r) + Zeros(32 - r);
  }

  lemma PowOne()
    ensures Pow2(1) == 2
  {
  }

  lemma LowBit(bit: nat, m: nat)
    requires bit < 2 && m > 0
    ensures Low(bit, m) == [bit == 1] + Zeros(m - 1)
  {
    LowZero(m - 1);
  }

  /** One more bit written. */
  lemma PutBit(buf: seq<nat>, w: seq<bool>, bit: nat)
    requires Filled(buf, w) && |w| < 32 * |buf| && bit < 2
    ensures
      var k, r := |w| / 32, |w| % 32;
      Filled(buf[k := Xor(buf[k], Pow2(r) * bit)], w + [bit == 1])
  {
    hide Low, Pow2, Xor;
    var k, r := |w| / 32, |w| % 32;
    var buf', w' := buf[k := Xor(buf[k], Pow2(r) * bit)], w + [bit == 1];
    forall j | r <= j < 32 ensures !Low(buf[k], 32)[j] { InWord(buf, k, j); }
    SmallWord(buf[k], r);
    SetBit(buf[k], r, bit);
    forall i | 0 <= i < 32 * |buf'| ensures BitIn(buf', i) == (i < |w'| && w'[i]) {
      assert BitIn(buf, i) == (i < |w| && w[i]);
      if i == |w| { assert Low(buf'[k], 32)[r] == (bit == 1); }
    }
  }

  lemma InWord(buf: seq<nat>, k: nat, j: nat)
    requires k < |buf| && j < 32
    ensures BitIn(buf, 32 * k + j) == Low(buf[k], 32)[j]
  {
    hide Low;
    assert (32 * k + j) / 32 == k && (32 * k + j) % 32 == j;
  }

  lemma MoreRoom(buf: seq<nat>, w: seq<bool>, n: nat)
    requires Filled(buf, w)
    ensures Filled(buf + seq(n, i => 0), w)
  {
    hide Low;
    var buf' := buf + seq(n, i => 0);
    LowZero(32);
    forall i | 0 <= i < 32 * |buf'| ensures BitIn(buf', i) == (i < |w| && w[i]) {
      if i < 32 * |buf| { assert BitIn(buf', i) == BitIn(buf, i); }
    }
  }

  lemma {:induction false} BitOf(a: nat, j: nat, n: nat)
    requires j < n
    ensures Low(a, n)[j] == (Shr(a, j) % 2 == 1)
  {
    if j > 0 { BitOf(a / 2, j - 1, n - 1); }
  }

  lemma NextLow(a: nat, i: nat)
    ensures Low(a, i + 1) == Low(a, i) + [Shr(a, i) % 2 == 1]
  {
    LowSplit(a, i, 1);
    assert Low(Shr(a, i), 1) == [Shr(a, i) % 2 == 1] + Low(Shr(a, i) / 2, 0);
  }

  // ---- u3s_jam_fib ----

  function Fibo(k: nat): nat { if k < 2 then k else Fibo(k - 1) + Fibo(k - 2) }

  lemma {:induction false} FiboOrder(j: nat, k: nat)
    requires 2 <= j < k
    ensures 0 < Fibo(j) < Fibo(k)
    decreases k
  {
    FiboSome(k - 2);
    FiboSome(j);
    if j < k - 1 { FiboOrder(j, k - 1); }
  }

  lemma {:induction false} FiboSome(k: nat)
    ensures k > 0 ==> Fibo(k) > 0
  {
    if k > 2 { FiboSome(k - 1); FiboSome(k - 2); }
  }

  /** Twelve more steps are a linear map. */
  lemma FiboTwelve(k: nat)
    ensures Fibo(k + 12) == 144 * Fibo(k + 1) + 89 * Fibo(k) && Fibo(k + 13) == 233 * Fibo(k + 1) + 144 * Fibo(k)
  {
    assert Fibo(k + 4) == 3 * Fibo(k + 1) + 2 * Fibo(k) && Fibo(k + 5) == 5 * Fibo(k + 1) + 3 * Fibo(k);
    assert Fibo(k + 8) == 3 * Fibo(k + 5) + 2 * Fibo(k + 4) && Fibo(k + 9) == 5 * Fibo(k + 5) + 3 * Fibo(k + 4);
    assert Fibo(k + 12) == 3 * Fibo(k + 9) + 2 * Fibo(k + 8) && Fibo(k + 13) == 5 * Fibo(k + 9) + 3 * Fibo(k + 8);
  }

  lemma FiboLast()
    ensures Fibo(12) == FIB11 && Fibo(13) == FIB12 && Fibo(47) == FIB47 && Fibo(48) >= WORDS
  {
    FiboTwelve(0);
    FiboTwelve(12);
    FiboTwelve(24);
    FiboTwelve(35);
    FiboTwelve(23);
    FiboTwelve(11);
    assert Fibo(0) == 0 && Fibo(1) == 1;
  }

  /** The encoder: a word buffer of which `cap` bits are in use, the previous capacity, the bit
      cursor, and where each noun was written. */
  class Fib {
    var buf: seq<nat>
    var cap: nat
    var prev: nat
    var bits: nat
    var seen: map<Noun, nat>
    ghost var written: seq<bool>
    ghost var turn: nat

    ghost predicate Valid()
      reads this
    {
      && 2 <= turn && prev == Fibo(turn) && cap == Fibo(turn + 1)
      && Filled(buf, written) && bits == |written| <= cap <= 32 * |buf| && cap < WORDS && 0 < prev <= cap
      && (forall n | n in seen :: seen[n] < WORDS)
    }

    constructor ()
      ensures Valid() && written == [] && seen == map[]
    {
      hide Fibo;
      FiboLast();
      cap, prev, bits, seen, turn := FIB12, FIB11, 0, map[], 12;
      buf := seq(8, i => 0);
      written := [];
      new;
      LowZero(32);
    }

    /** Make room for `mor` more bits, by fibonacci growth; fails where the fibonacci number
        that is needed has more than 32 bits. */
    method Grow(mor: nat) returns (ok: bool)
      requires Valid()
      modifies this`buf, this`cap, this`prev, this`turn
      ensures Valid() && (ok ==> bits + mor <= cap)
      ensures ok <==> bits + mor <= FIB47
    {
      hide Filled, Fibo;
      TurnBound(turn);
      var wan := bits + mor;
      if wan >= WORDS { return false; }
      if wan > cap {
        var c, a, b := 0, cap, prev;
        ghost var t := turn;
        while c < wan
          invariant Valid() && buf == old(buf) && cap == old(cap) && turn == old(turn)
          invariant 2 <= t && b == Fibo(t) && a == Fibo(t + 1)
          invariant c == 0 || c == a
          invariant cap <= a < WORDS && 0 < b <= a && (c == 0 ==> a < wan)
          decreases wan - a
        {
          TurnBound(t);
          if a + b >= WORDS { return false; }
          c, b, a, t := a + b, a, a + b, t + 1;
        }
        TurnBound(t);
        FilledSize(buf, written);
        var len := (c + 31) / 32;
        MoreRoom(buf, written, if len > |buf| then len - |buf| else 0);
        if len > |buf| { buf := buf + seq(len - |buf|, i => 0); }
        cap, prev, turn := a, b, t;
      }
      ok := true;
    }

    lemma Fits()
      requires Valid()
      ensures |written| <= FIB47
    {
      hide Fibo;
      TurnBound(turn);
    }

    /** Write the low `met` bits of `a`, bit by bit. */
    method Chop(met: nat, a: nat) returns (ok: bool)
      requires Valid()
      modifies this`buf, this`cap, this`prev, this`turn, this`bits, this`written
      ensures Valid() && (ok ==> written == old(written) + Low(a, met))
      ensures (!ok ==> written == old(written)) && (ok <==> |old(written)| + met <= FIB47)
    {
      hide Filled, Low, Xor, Pow2;
      var at := bits;
      ok := Grow(met);
      if !ok { return; }
      ghost var w := written;
      bits := at + met;
      assert w + Low(a, 0) == w;
      for i := 0 to met
        invariant Filled(buf, w + Low(a, i)) && cap <= 32 * |buf| && |w| == at
        invariant 2 <= turn && prev == Fibo(turn) && cap == Fibo(turn + 1)
        invariant 0 < prev <= cap < WORDS && at + met <= cap && bits == at + met && written == w
      {
        var k, r := (at + i) / 32, (at + i) % 32;
        var hop := Shr(a, i) % 2;
        PutBit(buf, w + Low(a, i), hop);
        NextLow(a, i);
        Assoc(w, Low(a, i), [hop == 1]);
        buf := buf[k := Xor(buf[k], Pow2(r) * hop)];
      }
      written := w + Low(a, met);
    }

    /** A length-prefixed atom. */
    method PutMat(a: nat) returns (ok: bool)
      requires Valid()
      modifies this`buf, this`cap, this`prev, this`turn, this`bits, this`written
      ensures Valid() && (ok ==> written == old(written) + MatOf(a))
      ensures old(written) <= written
      ensures ok <==> |old(written)| + |MatOf(a)| <= FIB47
    {
      hide Filled, Low, Pow2, Zeros, MatOf, Met;
      MatParts(a);
      var aw := Met(a);
      var bw := Met(aw);
      ghost var w := written;
      if a == 0 {
        ok := Chop(1, 1);
      } else {
        ok := Chop(bw + 1, Pow2(bw));
        if !ok { return; }
        ok := Chop(bw - 1, aw % Pow2(bw - 1));
        if !ok { return; }
        ok := Chop(aw, a);
        Join3(w, Low(Pow2(bw), bw + 1), Low(aw % Pow2(bw - 1), bw - 1), Low(a, aw));
      }
    }

    /** Write an atom, or a reference to it if that is shorter. */
    method AtomCb(n: Noun) returns (ok: bool)
      requires Valid() && n.Atom?
      modifies this
      ensures Valid() && old(written) <= written
      ensures
        var j := Jam(n, |old(written)|, old(seen));
        if ok then written == old(written) + j.bits && seen == j.seen
        else |old(written)| + |j.bits| > FIB47
    {
      hide Filled, Low, Met, Mat, Jam;
      OneZero();
      ghost var w := written;
      var back := n in seen && Met(n.value) > Met(seen[n]);
      if back {
        JamBack(n, |w|, seen);
        ok := Chop(2, 3);
        if ok {
          ok := PutMat(seen[n]);
          Assoc(w, [true, true], MatOf(seen[n]));
        }
      } else {
        if n !in seen {
          JamNewAtom(n, |w|, seen);
          seen := seen[n := bits];
        } else {
          JamAgain(n, |w|, seen);
        }
        ok := Chop(1, 0);
        if ok {
          ok := PutMat(n.value);
          Assoc(w, [false], MatOf(n.value));
        }
      }
    }

    /** Write the tag of a cell met for the first time, or a reference to it. */
    method CellCb(n: Noun) returns (ok: bool, deep: bool)
      requires Valid() && n.Cell?
      modifies this
      ensures Valid() && old(written) <= written && deep == (n !in old(seen))
      ensures
        if !ok then |old(written)| + |if deep then CELL_BITS else Jam(n, |old(written)|, old(seen)).bits| > FIB47
        else if deep then written == old(written) + CELL_BITS && seen == old(seen)[n := |old(written)|]
        else
          var j := Jam(n, |old(written)|, old(seen));
          written == old(written) + j.bits && seen == j.seen
    {
      hide Filled, Low, Met, Mat, Jam;
      OneZero();
      ghost var w := written;
      deep := n !in seen;
      if deep {
        seen := seen[n := bits];
        ok := Chop(2, 1);
      } else {
        JamBack(n, |w|, seen);
        ok := Chop(2, 3);
        if ok {
          ok := PutMat(seen[n]);
          Assoc(w, [true, true], MatOf(seen[n]));
        }
      }
    }
  }

  /** Which fibonacci numbers have 32 bits. */
  lemma TurnBound(t: nat)
    requires t >= 2
    ensures Fibo(t + 1) < WORDS <==> Fibo(t + 1) <= FIB47
    ensures Fibo(t + 2) == Fibo(t + 1) + Fibo(t)
    ensures Fibo(t + 1) < WORDS <= Fibo(t + 2) ==> Fibo(t + 1) == FIB47
  {
    FiboLast();
    hide Fibo;
    if t + 1 < 47 { FiboOrder(t + 1, 47); }
    if t + 1 > 48 { FiboOrder(48, t + 1); }
    if t + 2 < 47 { FiboOrder(t + 2, 47); }
    FiboStep(t);
  }

  lemma FiboStep(t: nat)
    ensures Fibo(t + 2) == Fibo(t + 1) + Fibo(t)
  {
  }

  /** The three chops that make up a length-prefixed atom. */
  lemma MatParts(a: nat)
    ensures a == 0 ==> MatOf(a) == Low(1, 1)
    ensures
      a > 0 ==>
        var aw := Met(a);
        var bw := Met(aw);
        bw > 0 && MatOf(a) == Low(Pow2(bw), bw + 1) + Low(aw % Pow2(bw - 1), bw - 1) + Low(a, aw)
  {
    hide Low, Pow2;
    OneBit();
    var aw := Met(a);
    var bw := Met(aw);
    if a > 0 {
      MetBound(a);
      MetBound(aw);
      UnaryBits(bw);
      LowMod(aw, bw - 1);
    }
  }

  lemma Join3<T>(w: seq<T>, x: seq<T>, y: seq<T>, z: seq<T>)
    ensures w + x + y + z == w + (x + y + z)
  {
  }

  lemma FilledSize(buf: seq<nat>, w: seq<bool>)
    requires Filled(buf, w)
    ensures |w| <= 32 * |buf|
  {
  }

  lemma OneZero()
    ensures Low(0, 1) == [false] && Low(3, 2) == [true, true] && Low(1, 2) == [true, false]
  {
    assert Low(3, 2) == [3 % 2 == 1] + Low(1, 1);
    assert Low(1, 2) == [1 % 2 == 1] + Low(0, 1);
  }

  lemma UnaryBits(k: nat)
    ensures Low(Pow2(k), k + 1) == Zeros(k) + [true]
  {
    hide Low;
    LowJoin(0, k, 1, 1);
    LowZero(k);
    OneBit();
  }

  /** `u3s_jam_fib`: the bits of the noun, in a word buffer. It succeeds if and only if they fit the
      largest buffer. */
  method JamFib(n: Noun) returns (ok: bool, bits: nat, buf: seq<nat>)
    ensures ok ==> bits == |JamBits(n)| && Filled(buf, JamBits(n))
    ensures ok <==> |JamBits(n)| <= FIB47
  {
    hide Filled, Jam, JamAll, Weight, Low;
    var fib := new Fib();
    var top := [n];
    JamOne(n);
    bits, buf := 0, [];
    while top != []
      invariant fib.Valid() && fresh(fib)
      invariant fib.written + JamAll(top, |fib.written|, fib.seen).bits == JamBits(n)
      decreases Weight(top)
    {
      var a, rest := top[|top| - 1], top[..|top| - 1];
      ghost var was, seen := fib.written, fib.seen;
      var deep := false;
      PopTop(top, was, seen);
      if a.Cell? && a !in seen {
        PushCell(rest, a, was, seen);
        assert top == rest + [a];
      }
      if a.Atom? {
        ok := fib.AtomCb(a);
      } else {
        ok, deep := fib.CellCb(a);
      }
      if !ok { return; }
      top := if deep then rest + [a.tail, a.head] else rest;
    }
    NothingLeft(|fib.written|, fib.seen);
    assert fib.written + [] == fib.written;
    fib.Fits();
    ok, bits, buf := true, fib.bits, fib.buf;
  }

  // ---- u3s_jam_xeno ----

  /** Direct atoms are 31 bits, the others arrays. */
  method PutAtomNoun(bsw: Bsw, v: nat)
    requires bsw.Valid()
    modifies bsw
    ensures bsw.Valid() && bsw.written == old(bsw.written) + AtomBits(v)
  {
    hide Low, Stream, Value, Mat, Pow2, Met;
    if v < WORDS / 2 {
      ThirtyTwo();
      MetSmall(v, 32);
      bsw.Atom64(Met(v), v);
    } else {
      var byt := BytesOf(v);
      BytesOfOk(v);
      BytesSome(v);
      MetBytesOk(byt);
      BytesLow(byt);
      bsw.AtomBytes(Met(v), byt);
    }
  }

  /** `u3s_jam_xeno`: the same bits, through the bitstream writer. It stops where its 64-bit
      cursor is full. */
  method JamXeno(n: Noun) returns (ok: bool, len: nat, byt: seq<nat>)
    ensures !ok ==> |JamBits(n)| >= CURSORS
    ensures
      ok ==>
        && AreBytes(byt) && len <= |byt| && |JamBits(n)| <= 8 * len < |JamBits(n)| + 8
        && Stream(byt[..len]) == JamBits(n) + Zeros(8 * len - |JamBits(n)|)
  {
    hide Jam, JamAll, Weight, Low, Mat, Met, Holds;
    var bsw := new Bsw(FIB11, FIB12);
    var seen: map<Noun, nat> := map[];
    var top := [n];
    JamOne(n);
    len, byt := 0, [];
    while top != []
      invariant bsw.Valid() && fresh(bsw) && forall m | m in seen :: seen[m] < CURSORS
      invariant bsw.written + JamAll(top, |bsw.written|, seen).bits == JamBits(n)
      decreases Weight(top)
    {
      Cursor(bsw);
      if bsw.bits >= CURSORS { return false, 0, []; }
      var a, rest := top[|top| - 1], top[..|top| - 1];
      ghost var was := bsw.written;
      PopTop(top, was, seen);
      if a !in seen {
        if a.Atom? {
          JamNewAtom(a, |was|, seen);
          seen := seen[a := bsw.bits];
          PutAtomNoun(bsw, a.value);
          top := rest;
        } else {
          PushCell(rest, a, was, seen);
          assert top == rest + [a];
          seen := seen[a := bsw.bits];
          bsw.Cell();
          top := rest + [a.tail, a.head];
        }
      } else if a.Atom? && Met(a.value) <= Met(seen[a]) {
        JamAgain(a, |was|, seen);
        PutAtomNoun(bsw, a.value);
        top := rest;
      } else {
        JamBack(a, |was|, seen);
        SixtyTwoBits();
        MetSmall(seen[a], 64);
        bsw.Back64(Met(seen[a]), seen[a]);
        top := rest;
      }
    }
    NothingLeft(|bsw.written|, seen);
    assert bsw.written + [] == bsw.written;
    len, byt := bsw.Done();
    ok := true;
  }

  lemma Cursor(bsw: Bsw)
    requires bsw.Valid()
    ensures bsw.bits == |bsw.written|
  {
  }
}
