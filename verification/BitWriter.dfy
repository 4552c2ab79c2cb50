/** The bitstream writer (pkg/urbit/ur/bitstream.c, `ur_bsw_*`). */
module BitWriter {
  import opened Bits

  /** The buffer holds exactly the bits `w` up to the cursor, and zeros past it. */
  predicate Holds(bytes: seq<nat>, bits: nat, w: seq<bool>) {
    AreBytes(bytes) && |w| == bits <= 8 * |bytes| && Stream(bytes) == w + Zeros(8 * |bytes| - bits)
  }

  /** Merge `k` bits into the byte under the cursor. */
  lemma PutByte(bytes: seq<nat>, fill: nat, off: nat, l: nat, k: nat, w: seq<bool>) returns (merged: nat)
    requires fill < |bytes| && off + k <= 8 && l < Pow2(k) && Holds(bytes, 8 * fill + off, w)
    ensures merged == Xor(bytes[fill], Pow2(off) * l)
    ensures Holds(bytes[fill := merged], 8 * fill + off + k, w + Low(l, k))
    ensures bytes[fill] < Pow2(off)
  {
    hide Low, Stream, Zeros, Xor;
    merged := Xor(bytes[fill], Pow2(off) * l);
    StreamAt(bytes, fill);
    ZerosSplit(8 - off, 8 * (|bytes| - fill - 1));
    var a, b := Stream(bytes[..fill]), Stream(bytes[fill + 1..]);
    var head := w[8 * fill..];
    assert w == a + head && Low(bytes[fill], 8) == head + Zeros(8 - off) && b == Zeros(8 * (|bytes| - fill - 1)) by {
      Thirds(a, Low(bytes[fill], 8), b, w, Zeros(8 - off), Zeros(8 * (|bytes| - fill - 1)));
    }
    SmallByte(bytes[fill], off, head);
    XorJoin(bytes[fill], off, l);
    MergedByte(bytes[fill], off, l, k, head);
    var bytes' := bytes[fill := merged];
    assert bytes'[..fill] == bytes[..fill] && bytes'[fill + 1..] == bytes[fill + 1..];
    StreamAt(bytes', fill);
    ZerosSplit(8 - off - k, 8 * (|bytes| - fill - 1));
    Rejoin(a, head, Low(l, k), Zeros(8 - off - k), b);
    assert bytes'[fill] == merged;
  }

  lemma ZerosSplit(a: nat, b: nat)
    ensures Zeros(a + b) == Zeros(a) + Zeros(b)
  {
    ZerosJoin(a, b);
  }

  lemma Thirds(a: seq<bool>, m: seq<bool>, b: seq<bool>, w: seq<bool>, z: seq<bool>, zs: seq<bool>)
    requires a + m + b == w + (z + zs) && |b| == |zs| && |a| <= |w| && |m| == 8 && |w| + |z| == |a| + 8
    ensures w == a + w[|a|..] && m == w[|a|..] + z && b == zs
  {
    var s := a + m + b;
    assert s[..|a|] == a && s[|a|..|a| + 8] == m && s[|a| + 8..] == b;
    assert s[|w|..|w| + |z|] == z && s[|w| + |z|..] == zs && s[..|w|] == w;
    assert s[|a|..|w|] == w[|a|..];
  }

  lemma Rejoin(a: seq<bool>, head: seq<bool>, x: seq<bool>, z: seq<bool>, b: seq<bool>)
    ensures a + (head + x + z) + b == (a + head + x) + (z + b)
  {
  }

  /** A byte whose high bits are zero is small. */
  lemma SmallByte(n: nat, off: nat, head: seq<bool>)
    requires n < 0x100 && |head| == off <= 8 && Low(n, 8) == head + Zeros(8 - off)
    ensures n < Pow2(off) && Low(n, off) == head
  {
    hide Low;
    assert Pow2(8) == 0x100;
    ValueLow(n, 8);
    ValueJoin(head, Zeros(8 - off));
    ValueZeros(8 - off);
    ValueBound(head);
    LowValue(head);
  }

  lemma {:induction false} ValueZeros(n: nat)
    ensures Value(Zeros(n)) == 0
  {
    if n > 0 { ValueZeros(n - 1); }
  }

  lemma MergedByte(n: nat, off: nat, l: nat, k: nat, head: seq<bool>)
    requires off + k <= 8 && n < Pow2(off) && l < Pow2(k) && Low(n, off) == head
    ensures var m := n + Pow2(off) * l; m < 0x100 && Low(m, 8) == head + Low(l, k) + Zeros(8 - off - k)
  {
    hide Low;
    var m := n + Pow2(off) * l;
    LowJoin(n, off, l, 8 - off);
    LowOfSmall(l, k, 8 - off - k);
    Assoc(head, Low(l, k), Zeros(8 - off - k));
    PowPlus(off, k);
    PowPlus(off + k, 8 - off - k);
    assert Pow2(8) == 0x100;
    MulBelow(Pow2(off), l, Pow2(k));
    assert m < Pow2(off + k);
    PowOrder(off + k, 8);
  }

  lemma MulBelow(p: nat, l: nat, q: nat)
    requires l < q
    ensures p * l + p <= p * q
  {
    MulMono(p, l, q);
  }

  /** Growing the buffer keeps what it holds. */
  lemma Grown(bytes: seq<nat>, bits: nat, w: seq<bool>, step: nat)
    requires Holds(bytes, bits, w)
    ensures Holds(bytes + seq(step, i => 0), bits, w)
  {
    hide Low, Stream, Zeros;
    var more := seq(step, i => 0);
    StreamJoin(bytes, more);
    StreamZeros(step);
    ZerosSplit(8 * |bytes| - bits, 8 * step);
    Assoc(w, Zeros(8 * |bytes| - bits), Zeros(8 * step));
  }

  /** Passing over zero bits. */
  lemma Skipped(bytes: seq<nat>, bits: nat, w: seq<bool>, n: nat)
    requires Holds(bytes, bits, w) && bits + n <= 8 * |bytes|
    ensures Holds(bytes, bits + n, w + Zeros(n))
  {
    ZerosSplit(n, 8 * |bytes| - bits - n);
    Assoc(w, Zeros(n), Zeros(8 * |bytes| - bits - n));
  }

  function Max(a: nat, b: nat): nat { if a < b then b else a }

  function BloqUp3(a: nat): nat { (a + 7) / 8 }

  /** The run length of a non-empty payload: the length of its length in unary, then its length
      without the leading bit. */
  function Run(len: nat): (b: seq<bool>)
    requires len > 0
    ensures |b| == 2 * Met(len)
  {
    MetBound(len);
    Zeros(Met(len)) + [true] + Low(len, Met(len) - 1)
  }

  /** A payload in self-delimiting form. */
  function Mat(b: seq<bool>): (r: seq<bool>)
    ensures |r| == MatLen(|b|)
  {
    if b == [] then [true] else Run(|b|) + b
  }

  function MatLen(len: nat): nat { if len == 0 then 1 else len + 2 * Met(len) }

  lemma OneBit()
    ensures Low(1, 1) == [true]
  {
    assert Low(1, 1) == [1 % 2 == 1] + Low(0, 0);
  }

  lemma TwoBits()
    ensures Low(3, 2) == [true, true] && Low(1, 2) == [true, false]
  {
    assert Low(3, 2) == [3 % 2 == 1] + Low(1, 1) && Low(1, 1) == [1 % 2 == 1] + Low(0, 0);
    assert Low(1, 2) == [1 % 2 == 1] + Low(0, 1) && Low(0, 1) == [0 % 2 == 1] + Low(0, 0);
  }

  /** A growing bit buffer: `fill` whole bytes and `off` bits of the next are written. */
  class Bsw {
    var prev: nat
    var size: nat
    var fill: nat
    var bits: nat
    var off: nat
    var bytes: seq<nat>
    ghost var written: seq<bool>

    ghost predicate Valid()
      reads this
    {
      off < 8 && bits == 8 * fill + off && fill < size == |bytes| && prev > 0 && Holds(bytes, bits, written)
    }

    constructor (prev: nat, size: nat)
      requires prev > 0 && size > 0
      ensures Valid() && written == []
    {
      this.prev, this.size, fill, bits, off := prev, size, 0, 0, 0;
      bytes := seq(size, i => 0);
      written := [];
      new;
      StreamZeros(size);
      assert [] + Zeros(8 * size) == Zeros(8 * size);
    }

    /** Reallocate with `step` more bytes. */
    method Grow(step: nat)
      requires Valid() && step > 0
      modifies this
      ensures Valid() && written == old(written) && size == old(size) + step && fill == old(fill) && off == old(off)
    {
      Grown(bytes, bits, written, step);
      bytes := bytes + seq(step, i => 0);
      prev := size;
      size := size + step;
    }

    /** Make room for `need` bytes past the cursor. */
    method Reserve(need: nat)
      requires Valid()
      modifies this
      ensures Valid() && written == old(written) && fill == old(fill) && off == old(off) && fill + need < size
    {
      if fill + need >= size { Grow(Max(need, prev)); }
    }

    method BitUnsafe(bit: nat)
      requires Valid() && (off == 7 ==> fill + 1 < size)
      modifies this
      ensures Valid() && written == old(written) + [bit % 2 == 1]
      ensures size == old(size) && bits == old(bits) + 1
    {
      var merged := Xor(bytes[fill], Pow2(off) * (bit % 2));
      ghost var m := PutByte(bytes, fill, off, bit % 2, 1, written);
      assert Low(bit % 2, 1) == [bit % 2 == 1] + Low(bit % 2 / 2, 0);
      bytes := bytes[fill := merged];
      written := written + [bit % 2 == 1];
      if off == 7 {
        fill, off := fill + 1, 0;
      } else {
        off := off + 1;
      }
      bits := bits + 1;
    }

    /** Write a bit. */
    method Bit(bit: nat)
      requires Valid()
      modifies this
      ensures Valid() && written == old(written) + [bit % 2 == 1]
    {
      if off == 7 && fill + 1 == size { Grow(prev); }
      BitUnsafe(bit);
    }

    /** Merge the low `k` bits of `val` into the byte under the cursor. */
    method MergeBits(k: nat, val: nat, ghost w: seq<bool>)
      requires fill < |bytes| && off + k <= 8 && Holds(bytes, 8 * fill + off, w)
      modifies this`bytes
      ensures |bytes| == old(|bytes|) && Holds(bytes, 8 * fill + off + k, w + Low(val, k))
    {
      hide Low, Holds, Xor;
      var l := val % Pow2(k);
      LowMod(val, k);
      ghost var merged := PutByte(bytes, fill, off, l, k, w);
      bytes := bytes[fill := Xor(bytes[fill], Pow2(off) * l)];
    }

    method Bsw8Unsafe(len: nat, byt: nat)
      requires Valid() && len <= 8 && fill + (off + len) / 8 < size
      modifies this
      ensures Valid() && written == old(written) + Low(byt, len)
      ensures size == old(size) && bits == old(bits) + len
    {
      hide Low, Holds;
      var rest := 8 - off;
      if len < rest {
        MergeBits(len, byt, written);
        off := off + len;
      } else {
        MergeBits(rest, byt, written);
        fill := fill + 1;
        off := len - rest;
        SetByte(Shr(byt, rest), off, written + Low(byt, rest));
        LowSplit(byt, rest, off);
        Assoc(written, Low(byt, rest), Low(Shr(byt, rest), off));
      }
      bits := bits + len;
      written := written + Low(byt, len);
    }

    /** Store the low `k` bits of `val` as a fresh byte at the cursor, which is at a byte boundary. */
    method SetByte(val: nat, k: nat, ghost w: seq<bool>)
      requires fill < |bytes| && k <= 8 && Holds(bytes, 8 * fill, w)
      modifies this`bytes
      ensures |bytes| == old(|bytes|) && Holds(bytes, 8 * fill + k, w + Low(val, k))
    {
      hide Low, Holds;
      var v := val % Pow2(k);
      LowMod(val, k);
      ghost var merged := PutByte(bytes, fill, 0, v, k, w);
      assert Pow2(0) == 1;
      bytes := bytes[fill := v];
    }

    /** Write up to eight bits of a byte. */
    method Bsw8(len: nat, byt: nat)
      requires Valid() && len <= 8
      modifies this
      ensures Valid() && written == old(written) + Low(byt, len)
    {
      if fill + (if (off + len) / 8 != 0 then 1 else 0) >= size { Grow(prev); }
      Bsw8Unsafe(len, byt);
    }

    /** The word writers: fill up the current byte, then whole bytes, then what is left. */
    method Bsw64Unsafe(len: nat, val: nat)
      requires Valid() && fill + BloqUp3(off + len) < size
      modifies this
      ensures Valid() && written == old(written) + Low(val, len)
      ensures size == old(size) && bits == old(bits) + len
    {
      hide Low, Holds;
      var rest := 8 - off;
      if off > 0 && len < rest {
        MergeBits(len, val, written);
        off := off + len;
      } else if off > 0 {
        MergeBits(rest, val, written);
        fill := fill + 1;
        WordTail(len - rest, Shr(val, rest), written + Low(val, rest));
        LowSplit(val, rest, len - rest);
        Assoc(written, Low(val, rest), Low(Shr(val, rest), len - rest));
      } else {
        WordTail(len, val, written);
      }
      bits := bits + len;
      written := written + Low(val, len);
    }

    /** From a byte boundary: whole bytes of `val`, then the bits left over. */
    method WordTail(len: nat, val: nat, ghost w: seq<bool>)
      requires fill + len / 8 < |bytes| && Holds(bytes, 8 * fill, w)
      modifies this`bytes, this`fill, this`off
      ensures |bytes| == old(|bytes|) && 8 * fill + off == 8 * old(fill) + len && off < 8
      ensures Holds(bytes, 8 * fill + off, w + Low(val, len))
    {
      hide Low, Holds;
      var n: nat, v: nat := len, val;
      ghost var x := w;
      while n >= 8
        invariant 8 * fill + n == 8 * old(fill) + len && |bytes| == old(|bytes|)
        invariant Holds(bytes, 8 * fill, x) && x + Low(v, n) == w + Low(val, len)
        decreases n
      {
        SetByte(v, 8, x);
        LowSplit(v, 8, n - 8);
        Assoc(x, Low(v, 8), Low(Shr(v, 8), n - 8));
        fill := fill + 1;
        x := x + Low(v, 8);
        v, n := Shr(v, 8), n - 8;
      }
      off := n;
      if off > 0 {
        SetByte(v, off, x);
      } else {
        LowNone(v, x);
      }
    }

    static lemma LowNone(v: nat, x: seq<bool>)
      ensures x + Low(v, 0) == x
    {
    }

    /** Write up to 64 bits of a word (the 32-bit writer is the same). */
    method Bsw64(len: nat, val: nat)
      requires Valid() && len <= 64
      modifies this
      ensures Valid() && written == old(written) + Low(val, len)
    {
      Reserve(BloqUp3(off + len));
      Bsw64Unsafe(len, val);
    }

    /** Off a byte boundary, the low bits of each input byte end one output byte and its high
        bits begin the next; `m` is the output byte begun but not yet stored. */
    method Shifted(lenByt: nat, lenBit: nat, byt: seq<nat>)
      requires 0 < off < 8 && lenBit < 8 && Holds(bytes, 8 * fill + off, written)
      requires fill + BloqUp3(off + 8 * lenByt + lenBit) < |bytes| && AreBytes(byt) && 8 * lenByt + lenBit <= 8 * |byt|
      modifies this`bytes, this`fill, this`off
      ensures |bytes| == old(|bytes|) && 8 * fill + off == old(8 * fill + off) + 8 * lenByt + lenBit && off < 8
      ensures Holds(bytes, 8 * fill + off,
                    written + Stream(byt[..lenByt]) + (if lenBit > 0 then Low(byt[lenByt], lenBit) else []))
    {
      hide Low, Holds, Stream, Xor;
      var rest, m := 8 - off, bytes[fill];
      ghost var w := written;
      assert bytes[fill := m] == bytes;
      NoBytes(byt, written);
      for i := 0 to lenByt
        invariant fill == old(fill) + i && |bytes| == old(|bytes|) && off == old(off)
        invariant Holds(bytes[fill := m], 8 * fill + off, w) && w == written + Stream(byt[..i])
      {
        ghost var b1, w1 := StartByte(bytes[fill := m], fill, off, rest, byt[i], w);
        bytes := bytes[fill := Xor(m, Pow2(off) * (byt[i] % Pow2(rest)))];
        assert bytes == b1;
        fill := fill + 1;
        m := Shr(byt[i], rest);
        w := EndByte(bytes, fill, off, rest, byt[i], w, w1);
        NextByte(byt, i);
        Assoc(written, Stream(byt[..i]), Low(byt[i], 8));
      }
      bytes := bytes[fill := m];
      if lenBit > 0 {
        var b := byt[lenByt];
        if lenBit < rest {
          MergeBits(lenBit, b, w);
          off := off + lenBit;
        } else {
          MergeBits(rest, b, w);
          fill := fill + 1;
          off := lenBit - rest;
          SetByte(Shr(b, rest), off, w + Low(b, rest));
          LowSplit(b, rest, off);
          Assoc(w, Low(b, rest), Low(Shr(b, rest), off));
        }
      } else {
        assert w + [] == w;
      }
    }

    static lemma NoBytes(byt: seq<nat>, w: seq<bool>)
      ensures w + Stream(byt[..0]) == w
    {
    }

    /** Write the first `len` bits of a byte array. */
    method BytesUnsafe(len: nat, byt: seq<nat>)
      requires Valid() && fill + BloqUp3(off + len) < size && AreBytes(byt) && len <= 8 * |byt|
      modifies this
      ensures Valid() && written == old(written) + Stream(byt)[..len]
      ensures size == old(size) && bits == old(bits) + len
    {
      hide Low, Holds, Stream;
      var lenByt, lenBit := len / 8, len % 8;
      ghost var w := written;
      if off == 0 {
        for i := 0 to lenByt
          invariant fill == old(fill) && off == 0 && |bytes| == old(|bytes|) && size == old(size)
          invariant bits == old(bits) && prev == old(prev) && written == old(written)
          invariant w == written + Stream(byt[..i]) && Holds(bytes, 8 * (fill + i), w)
        {
          NextByte(byt, i);
          Assoc(written, Stream(byt[..i]), Low(byt[i], 8));
          fill := fill + i;
          SetByte(byt[i], 8, w);
          fill := fill - i;
          w := w + Low(byt[i], 8);
        }
        fill := fill + lenByt;
        off := lenBit;
        if off > 0 { SetByte(byt[lenByt], off, w); }
      } else {
        Shifted(lenByt, lenBit, byt);
      }
      LastBits(byt, lenByt, lenBit);
      ghost var last := if lenBit > 0 then Low(byt[lenByt], lenBit) else [];
      Assoc(written, Stream(byt[..lenByt]), last);
      assert Holds(bytes, 8 * fill + off, written + Stream(byt[..lenByt]) + last) by {
        if old(off) == 0 && lenBit == 0 { assert w + [] == w; }
      }
      assert len == 8 * lenByt + lenBit;
      bits := bits + len;
      written := written + Stream(byt)[..len];
    }

    /** Zero bits and then a one: the binary exponent `n` in unary. */
    method BexUnsafe(n: nat)
      requires Valid() && fill + BloqUp3(off + n + 1) < size
      modifies this
      ensures Valid() && written == old(written) + (Zeros(n) + [true])
      ensures size == old(size) && bits == old(bits) + n + 1
    {
      hide Low, Holds;
      Skipped(bytes, bits, written, n);
      var total := n + off;
      fill := fill + total / 8;
      off := total % 8;
      MergeBits(1, 1, written + Zeros(n));
      OneBit();
      if off == 7 {
        fill, off := fill + 1, 0;
      } else {
        off := off + 1;
      }
      bits := bits + n + 1;
      Assoc(written, Zeros(n), [true]);
      written := written + (Zeros(n) + [true]);
    }

    /** The length of what follows, in its self-delimiting form. */
    method RunUnsafe(len: nat)
      requires Valid() && len > 0 && fill + BloqUp3(off + 2 * Met(len)) < size
      modifies this
      ensures Valid() && written == old(written) + Run(len)
      ensures size == old(size) && bits == old(bits) + 2 * Met(len)
    {
      var nel := Met(len);
      MetBound(len);
      BexUnsafe(nel);
      Bsw64Unsafe(nel - 1, len);
      Assoc(old(written), Zeros(nel) + [true], Low(len, nel - 1));
    }

    method Mat64Unsafe(len: nat, val: nat)
      requires Valid() && fill + BloqUp3(off + MatLen(len)) < size
      modifies this
      ensures Valid() && written == old(written) + Mat(Low(val, len))
      ensures size == old(size) && bits == old(bits) + MatLen(len)
    {
      if len == 0 {
        BitUnsafe(1);
      } else {
        RunUnsafe(len);
        Bsw64Unsafe(len, val);
        Assoc(old(written), Run(len), Low(val, len));
      }
    }

    method MatBytesUnsafe(len: nat, byt: seq<nat>)
      requires Valid() && fill + BloqUp3(off + MatLen(len)) < size && AreBytes(byt) && len <= 8 * |byt|
      modifies this
      ensures Valid() && written == old(written) + Mat(Stream(byt)[..len])
      ensures size == old(size) && bits == old(bits) + MatLen(len)
    {
      if len == 0 {
        BitUnsafe(1);
      } else {
        RunUnsafe(len);
        BytesUnsafe(len, byt);
        Assoc(old(written), Run(len), Stream(byt)[..len]);
      }
    }

    /** A length-prefixed word. */
    method Mat64(len: nat, val: nat)
      requires Valid() && len <= 64
      modifies this
      ensures Valid() && written == old(written) + Mat(Low(val, len))
    {
      Reserve(BloqUp3(off + MatLen(len)));
      Mat64Unsafe(len, val);
    }

    /** A back-reference to bit position `val`. */
    method Back64(len: nat, val: nat)
      requires Valid() && len <= 64
      modifies this
      ensures Valid() && written == old(written) + ([true, true] + Mat(Low(val, len)))
    {
      Reserve(BloqUp3(2 + off + MatLen(len)));
      TwoBits();
      Bsw8Unsafe(2, 3);
      Mat64Unsafe(len, val);
      Assoc(old(written), [true, true], Mat(Low(val, len)));
    }

    /** An atom of up to 64 bits. */
    method Atom64(len: nat, val: nat)
      requires Valid() && len <= 64
      modifies this
      ensures Valid() && written == old(written) + ([false] + Mat(Low(val, len)))
    {
      Reserve(BloqUp3(1 + off + MatLen(len)));
      BitUnsafe(0);
      Mat64Unsafe(len, val);
      Assoc(old(written), [false], Mat(Low(val, len)));
    }

    /** An atom given by its bytes. */
    method AtomBytes(len: nat, byt: seq<nat>)
      requires Valid() && AreBytes(byt) && len <= 8 * |byt|
      modifies this
      ensures Valid() && written == old(written) + ([false] + Mat(Stream(byt)[..len]))
    {
      Reserve(BloqUp3(1 + off + MatLen(len)));
      BitUnsafe(0);
      MatBytesUnsafe(len, byt);
      Assoc(old(written), [false], Mat(Stream(byt)[..len]));
    }

    /** The tag of a cell. */
    method Cell()
      requires Valid()
      modifies this
      ensures Valid() && written == old(written) + [true, false]
    {
      Reserve(BloqUp3(2 + off));
      TwoBits();
      Bsw8Unsafe(2, 1);
    }

    /** The finished buffer and its length in bytes. */
    method Done() returns (len: nat, byt: seq<nat>)
      requires Valid()
      ensures AreBytes(byt) && len <= |byt| && 8 * len >= |written|
      ensures Stream(byt[..len]) == written + Zeros(8 * len - |written|) && 8 * len < |written| + 8
    {
      len := fill + (if off > 0 then 1 else 0);
      byt := bytes;
      StreamFrom(bytes, len);
      assert (written + Zeros(8 * |bytes| - bits))[..8 * len] == written + Zeros(8 * |bytes| - bits)[..8 * len - bits];
      AllZeros(Zeros(8 * |bytes| - bits)[..8 * len - bits]);
    }
  }

  /** The low bits of an input byte fill up the output byte. */
  lemma StartByte(bytes: seq<nat>, fill: nat, off: nat, rest: nat, b: nat, w: seq<bool>)
    returns (bytes': seq<nat>, w': seq<bool>)
    requires fill < |bytes| && off + rest == 8 && Holds(bytes, 8 * fill + off, w)
    ensures bytes' == bytes[fill := Xor(bytes[fill], Pow2(off) * (b % Pow2(rest)))]
    ensures w' == w + Low(b, rest) && Holds(bytes', 8 * (fill + 1), w')
  {
    hide Low, Holds, Xor;
    LowMod(b, rest);
    var merged := PutByte(bytes, fill, off, b % Pow2(rest), rest, w);
    bytes', w' := bytes[fill := merged], w + Low(b, rest);
  }

  /** Its high bits begin the next one. */
  lemma EndByte(bytes: seq<nat>, fill: nat, off: nat, rest: nat, b: nat, w: seq<bool>, w1: seq<bool>)
    returns (w': seq<bool>)
    requires fill < |bytes| && off + rest == 8 && b < 0x100 && w1 == w + Low(b, rest) && Holds(bytes, 8 * fill, w1)
    ensures w' == w + Low(b, 8) && Holds(bytes[fill := Shr(b, rest)], 8 * fill + off, w')
  {
    hide Low, Holds;
    assert Pow2(8) == 0x100;
    ShrSmall(b, rest, off);
    var merged := PutByte(bytes, fill, 0, Shr(b, rest), off, w1);
    assert Pow2(0) == 1;
    LowSplit(b, rest, off);
    Assoc(w, Low(b, rest), Low(Shr(b, rest), off));
    w' := w + Low(b, 8);
  }

  lemma NextByte(s: seq<nat>, i: nat)
    requires i < |s|
    ensures Stream(s[..i + 1]) == Stream(s[..i]) + Low(s[i], 8)
  {
    hide Low;
    assert s[..i + 1] == s[..i] + [s[i]];
    StreamJoin(s[..i], [s[i]]);
    StreamOne(s[i]);
  }

  /** The first bits of a buffer: its whole bytes, and the low bits of the next. */
  lemma LastBits(s: seq<nat>, n: nat, k: nat)
    requires k < 8 && 8 * n + k <= 8 * |s|
    ensures Stream(s)[..8 * n + k] == Stream(s[..n]) + (if k > 0 then Low(s[n], k) else [])
  {
    hide Low, Stream;
    StreamFrom(s, n);
    if k > 0 {
      StreamAt(s, n);
      LowSplit(s[n], k, 8 - k);
      assert Stream(s)[..8 * n + k] == Stream(s[..n]) + Low(s[n], k);
    }
  }
}
