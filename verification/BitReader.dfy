/** The bitstream reader (pkg/urbit/ur/bitstream.c, `ur_bsr_*`), on reads that stay inside the
    stream. */
module BitReader {
  import opened Bits

  /** Moving the cursor over `len` bits. */
  lemma Advance(bytes: seq<nat>, off: nat, len: nat, k: nat, off': nat)
    requires 8 * k + off' == off + len && k <= |bytes| && off + len <= 8 * |bytes|
    ensures Stream(bytes[k..])[off'..] == Stream(bytes)[off..][len..]
  {
    hide Stream;
    StreamFrom(bytes, k);
    assert Stream(bytes)[off..][len..] == Stream(bytes)[off + len..];
    assert Stream(bytes)[8 * k..][off'..] == Stream(bytes)[8 * k + off'..];
  }

  /** The bits of the current byte from the cursor on. */
  lemma FirstByte(bytes: seq<nat>, off: nat)
    requires bytes != [] && AreBytes(bytes) && off <= 8
    ensures Stream(bytes)[off..8] == Low(Shr(bytes[0], off), 8 - off)
    ensures Shr(bytes[0], off) < Pow2(8 - off) && Value(Stream(bytes)[off..8]) == Shr(bytes[0], off)
  {
    hide Low;
    assert Stream(bytes) == Low(bytes[0], 8) + Stream(bytes[1..]);
    LowSplit(bytes[0], off, 8 - off);
    assert Pow2(8) == 0x100;
    ShrSmall(bytes[0], off, 8 - off);
    ValueLow(Shr(bytes[0], off), 8 - off);
    assert Low(bytes[0], 8)[off..] == Low(Shr(bytes[0], off), 8 - off);
    assert Stream(bytes)[off..8] == Low(bytes[0], 8)[off..];
  }

  /** Masking a number to the value of its low bits. */
  lemma MaskValue(n: nat, k: nat)
    ensures n % Pow2(k) == Value(Low(n, k))
  {
    LowMod(n, k);
    ValueLow(n % Pow2(k), k);
  }

  /** Trailing zero bits. */
  function Tz(n: nat): nat
    requires n > 0
  {
    if n % 2 == 1 then 0 else 1 + Tz(n / 2)
  }

  lemma {:induction false} TzLow(n: nat, k: nat)
    requires 0 < n < Pow2(k)
    ensures Tz(n) < k && Low(n, k)[Tz(n)] && forall i :: 0 <= i < Tz(n) ==> !Low(n, k)[i]
  {
    if n % 2 == 0 {
      TzLow(n / 2, k - 1);
      assert Low(n, k) == [false] + Low(n / 2, k - 1);
    }
  }

  /** Where the first one is, if there is one. */
  function FirstOne(b: seq<bool>): (z: nat)
    ensures z <= |b| && (z < |b| ==> b[z]) && forall i :: 0 <= i < z ==> !b[i]
  {
    if b == [] || b[0] then 0 else 1 + FirstOne(b[1..])
  }

  lemma FirstOneAt(b: seq<bool>, z: nat)
    requires z < |b| && b[z] && forall i :: 0 <= i < z ==> !b[i]
    ensures FirstOne(b) == z
  {
  }

  /** What a run length reads as, and the bits it takes: None past 63 zeros or the end. */
  datatype Rub = Rub(len: nat, used: nat) | NoRub

  function ReadRub(b: seq<bool>): Rub {
    var z := FirstOne(b);
    if z >= 64 || z == |b| || 2 * z > |b| then NoRub
    else if z == 0 then Rub(0, 1)
    else Rub(Value(b[z + 1..2 * z]) + Pow2(z - 1), 2 * z)
  }

  predicate NoneBefore(r: seq<bool>, n: int) { n <= |r| && forall i :: 0 <= i < n ==> !r[i] }

  /** The byte `skip` places on, the first one from the cursor on. */
  function ByteFrom(bytes: seq<nat>, off: nat, skip: nat): nat
    requires skip < |bytes|
  {
    if skip == 0 then Shr(bytes[0], off) else bytes[skip]
  }

  /** A zero byte extends the run of zeros. */
  lemma ZeroByte(bytes: seq<nat>, off: nat, skip: nat)
    requires skip < |bytes| && AreBytes(bytes) && off < 8 && ByteFrom(bytes, off, skip) == 0
    requires NoneBefore(Stream(bytes)[off..], 8 * skip - (if skip > 0 then off else 0))
    ensures NoneBefore(Stream(bytes)[off..], 8 * (skip + 1) - off)
  {
    hide Low, Stream, Shr;
    if skip == 0 {
      FirstByte(bytes, off);
      LowZero(8 - off);
      assert forall i :: 0 <= i < 8 - off ==> Stream(bytes)[off..][i] == Stream(bytes)[off..8][i];
    } else {
      ByteBits(bytes, off, skip);
      LowZero(8);
    }
  }

  /** A byte with a one ends it. */
  lemma FirstOneHere(bytes: seq<nat>, off: nat, skip: nat, byt: nat)
    requires skip < |bytes| && AreBytes(bytes) && off < 8 && 0 < byt == ByteFrom(bytes, off, skip)
    requires NoneBefore(Stream(bytes)[off..], 8 * skip - (if skip > 0 then off else 0))
    ensures
      var z := Tz(byt) + (if skip > 0 then 8 * skip - off else 0);
      FirstOne(Stream(bytes)[off..]) == z < |Stream(bytes)[off..]| && off + z < 8 * (skip + 1)
  {
    hide Low, Stream, Shr, FirstOne, Tz;
    var r := Stream(bytes)[off..];
    if skip == 0 {
      FirstByte(bytes, off);
      TzLow(byt, 8 - off);
      assert forall i :: 0 <= i < 8 - off ==> r[i] == Stream(bytes)[off..8][i];
      FirstOneAt(r, Tz(byt));
    } else {
      assert Pow2(8) == 0x100;
      ByteBits(bytes, off, skip);
      TzLow(byt, 8);
      var base := 8 * skip - off;
      assert r[base + Tz(byt)] == Low(byt, 8)[Tz(byt)];
      forall i | 0 <= i < base + Tz(byt) ensures !r[i] {
        if i >= base { assert r[i] == Low(byt, 8)[i - base]; }
      }
      FirstOneAt(r, base + Tz(byt));
    }
  }

  /** No one among the first 256 bits. */
  lemma Clear255(r: seq<bool>, skip: nat, off: nat)
    requires NoneBefore(r, 256)
    ensures FirstOne(r) > 255
  {
  }

  /** How reading ends. Past: a length runs past the end of the stream, where this model stops.
      Full: out of memory. */
  datatype Result = Good | Back | Gone | Meme | Past | Full
  datatype Tag = AtomTag | CellTag | BackTag

  /** A cursor into a byte buffer: `left` bytes remain, the first of them read up to `off`. */
  class Bsr {
    var left: nat
    var bits: nat
    var off: nat
    var bytes: seq<nat>

    predicate Valid()
      reads this
    {
      left == |bytes| && AreBytes(bytes) && off < 8 && (left == 0 ==> off == 0)
    }

    /** What has not been read. */
    function Rest(): seq<bool>
      requires Valid()
      reads this
    {
      Stream(bytes)[off..]
    }

    constructor (byt: seq<nat>)
      requires AreBytes(byt)
      ensures Valid() && bits == 0 && Rest() == Stream(byt)
    {
      left, bits, off, bytes := |byt|, 0, 0, byt;
      new;
      assert Stream(byt)[0..] == Stream(byt);
    }

    /** Put the cursor `k` bytes on, at bit `off'`; past the last byte the buffer is dropped. */
    method Seek(k: nat, off': nat)
      requires Valid() && k <= left && off' < 8 && off <= 8 * k + off' <= 8 * left
      modifies this`left, this`off, this`bytes
      ensures Valid() && Rest() == old(Rest())[8 * k + off' - old(off)..]
    {
      Advance(bytes, off, 8 * k + off' - off, k, off');
      left := left - k;
      bytes := bytes[k..];
      off := off';
    }

    /** Read a type tag: one bit for an atom, two for a cell or a back-reference. */
    method ReadTag() returns (res: Result, tag: Tag)
      requires Valid()
      modifies this
      ensures Valid()
      ensures
        var r := old(Rest());
        if r == [] then res == Gone
        else if !r[0] then res == Good && tag == AtomTag && Rest() == r[1..] && bits == old(bits) + 1
        else if |r| == 1 then res == Gone
        else res == Good && tag == (if r[1] then BackTag else CellTag) && Rest() == r[2..] && bits == old(bits) + 2
    {
      hide Stream, Low, Shr;
      tag := AtomTag;
      if left == 0 {
        EmptyRest(bytes);
        return Gone, tag;
      }
      var bit, len := Shr(bytes[0], off) % 2, 1;
      BitAt(bytes, off);
      if bit == 1 {
        if off == 7 {
          if left == 1 {
            bits, bytes, left, off := bits + 1, [], 0, 0;
            return Gone, tag;
          }
          bit := bytes[1] % 2;
          NextBit(bytes);
        } else {
          bit := Shr(bytes[0], off + 1) % 2;
          BitAt(bytes, off + 1);
        }
        len := 2;
        tag := if bit == 0 then CellTag else BackTag;
      }
      Seek((off + len) / 8, (off + len) % 8);
      bits := bits + len;
      res := Good;
    }

    /** Zero bits up to a one: their number, at most 255. */
    method ReadLog() returns (res: Result, out: nat)
      requires Valid()
      modifies this
      ensures Valid()
      ensures
        var r := old(Rest());
        var z := FirstOne(r);
        res in {Good, Gone, Meme} &&
        if z < |r| && z <= 255 then res == Good && out == z && Rest() == r[z + 1..] && bits == old(bits) + z + 1
        else res != Good
    {
      hide Stream, Low, Shr, Tz;
      out := 0;
      ghost var r := Rest();
      if left == 0 {
        EmptyRest(bytes);
        return Gone, out;
      }
      var byt, skip := Scan();
      if byt == 0 {
        if skip == left {
          bits := bits + 8 * skip - off;
          bytes, left, off := [], 0, 0;
          return Gone, out;
        }
        Clear255(r, skip, off);
        LogMeme();
        return Meme, out;
      }
      var zeros := Tz(byt) + (if skip > 0 then 8 * skip - off else 0);
      FirstOneHere(bytes, off, skip, byt);
      if zeros > 255 {
        LogMeme();
        return Meme, out;
      }
      var total := off + 1 + zeros;
      Seek(total / 8, total % 8);
      bits := bits + 1 + zeros;
      return Good, zeros;
    }

    /** Pass over zero bytes: stops at the first byte with a one, at the end, or after 33 bytes. */
    method Scan() returns (byt: nat, skip: nat)
      requires Valid() && left > 0
      ensures skip <= left && skip <= 32
      ensures skip < left ==> byt == ByteFrom(bytes, off, skip)
      ensures NoneBefore(Rest(), 8 * skip - (if skip > 0 then off else 0))
      ensures byt == 0 ==> (skip == left && NoneBefore(Rest(), |Rest()|)) || (skip == 32 < left && NoneBefore(Rest(), 256))
      ensures byt > 0 ==> skip < left
    {
      hide Low, Stream;
      byt, skip := Shr(bytes[0], off), 0;
      while byt == 0
        invariant 0 <= skip < left && skip <= 32 && byt == ByteFrom(bytes, off, skip)
        invariant NoneBefore(Rest(), 8 * skip - (if skip > 0 then off else 0))
        decreases 33 - skip
      {
        ZeroByte(bytes, off, skip);
        if skip == 32 { return; }
        skip := skip + 1;
        if skip == left { return; }
        byt := bytes[skip];
      }
    }

    /** A run of zeros too long for a length. */
    method LogMeme()
      requires Valid() && left >= 33
      modifies this
      ensures Valid()
    {
      bits := bits + 256;
      bytes := bytes[32..];
      left := left - 32;
    }

    /** Put the cursor `len` bits on, as the byte reader does: the last byte is a case of its own. */
    method SeekBits(len: nat)
      requires Valid() && off > 0 && left > 0 && len <= |Rest()|
      modifies this`left, this`off, this`bytes
      ensures Valid() && Rest() == old(Rest())[len..]
    {
      hide Stream, AreBytes;
      var lenByt, lenBit := len / 8, len % 8;
      if (len + 7) / 8 >= left {
        if len - 8 * (left - 1) < 8 - off { Seek(left - 1, off + lenBit); } else { Seek(left, 0); }
      } else {
        Seek(lenByt + (off + lenBit) / 8, (off + lenBit) % 8);
      }
    }

    /** Read up to 64 bits that remain in the stream. */
    method Read64(len: nat) returns (out: nat)
      requires Valid() && len <= 64 && len <= |Rest()|
      modifies this
      ensures Valid() && out == Value(old(Rest())[..len]) && Rest() == old(Rest())[len..] && bits == old(bits) + len
    {
      hide Low, Stream, Value, Xor;
      bits := bits + len;
      if left == 0 {
        EmptyRest(bytes);
        return 0;
      }
      var rest, m := 8 - off, Shr(bytes[0], off);
      FirstByte(bytes, off);
      if len < rest {
        out := m % Pow2(len);
        ShortRead(bytes, off, len);
        Seek(0, off + len);
      } else {
        var n := len - rest;
        var b := bytes[1..];
        var lenByt, off' := n / 8, n % 8;
        var l := WholeBytes(b, lenByt);
        TailBytes(b, lenByt, off', l);
        if off' > 0 { l := Xor(l, Pow2(8 * lenByt) * (b[lenByt] % Pow2(off'))); }
        out := Xor(m, Pow2(rest) * l);
        XorJoin(m, rest, l);
        LongRead(bytes, off, n);
        Seek(1 + lenByt, off');
      }
    }

    /** The first bytes of a buffer as one number (the unrolled cases of the word readers). */
    static method WholeBytes(b: seq<nat>, n: nat) returns (l: nat)
      requires n <= |b| && AreBytes(b)
      ensures l == Value(Stream(b[..n]))
    {
      hide Low, Stream, Value, Xor;
      l := 0;
      NoBytes(b);
      for i := 0 to n
        invariant l == Value(Stream(b[..i]))
      {
        MoreBytes(b, i);
        l := Xor(l, Pow2(8 * i) * b[i]);
      }
    }

    /** Read `len` bits that remain in the stream into a byte array, zeros past the end. */
    method ReadBytes(len: nat) returns (out: seq<nat>)
      requires Valid() && len <= |Rest()|
      modifies this
      ensures Valid() && Rest() == old(Rest())[len..] && bits == old(bits) + len
      ensures AreBytes(out) && |out| == (len + 7) / 8
      ensures Stream(out) == old(Rest())[..len] + Zeros(8 * |out| - len)
    {
      hide Low, Stream, Xor, Pow2, Zeros, Shr;
      ghost var r := Rest();
      bits := bits + len;
      if left == 0 {
        EmptyRest(bytes);
        NoPadding([]);
        return [];
      }
      var lenByt, lenBit := len / 8, len % 8;
      if off == 0 {
        assert r == Stream(bytes);
        CopiedBytes(bytes, lenByt, lenBit);
        out := bytes[..lenByt];
        assert out + [] == out && len == 8 * lenByt + lenBit;
        if lenBit > 0 { out := out + [bytes[lenByt] % Pow2(lenBit)]; }
        Seek(lenByt, lenBit);
      } else {
        out := Unshift(len);
        SeekBits(len);
      }
    }

    /** Off a byte boundary: the high bits of one byte become the low bits of an output byte, and
        the low bits of the next its high bits. */
    method Unshift(len: nat) returns (out: seq<nat>)
      requires Valid() && off > 0 && left > 0 && len <= |Rest()|
      ensures AreBytes(out) && |out| == (len + 7) / 8
      ensures Stream(out) == Rest()[..len] + Zeros(8 * |out| - len)
    {
      hide Low, Stream, Xor, Pow2, Zeros, Shr;
      ghost var r := Rest();
      NoneYet(r);
      var lenByt, lenBit, rest, last, need := len / 8, len % 8, 8 - off, left - 1, (len + 7) / 8;
      var max := if last < lenByt then last else lenByt;
      var m := Shr(bytes[0], off);
      out := [];
      for i := 0 to max
        invariant i <= last < |bytes|
        invariant |out| == i && AreBytes(out) && Stream(out) == r[..8 * i] && m == Shr(bytes[i], off)
      {
        var byt := bytes[i + 1];
        MixedByte(bytes, off, i, out);
        out := out + [Xor(m, Pow2(rest) * (byt % Pow2(off)))];
        m := Shr(byt, off);
      }
      if need >= left {
        var k := len - 8 * last;
        LastShort(bytes, off, last, k, out);
        out := out + [if k < rest then m % Pow2(k) else m];
      } else if lenBit > 0 {
        if lenBit <= rest {
          LastShort(bytes, off, lenByt, lenBit, out);
          out := out + [m % Pow2(lenBit)];
        } else {
          LastLong(bytes, off, lenByt, lenBit, out);
          out := out + [Xor(m, Pow2(rest) * (bytes[lenByt + 1] % Pow2((off + lenBit) % 8)))];
        }
      } else {
        NoPadding(r[..len]);
      }
    }

    /** Pass over `len` bits that remain in the stream. */
    method Skip(len: nat)
      requires Valid() && len <= |Rest()|
      modifies this
      ensures Valid() && Rest() == old(Rest())[len..] && bits == old(bits) + len
    {
      hide Stream;
      bits := bits + len;
      if left == 0 {
        EmptyRest(bytes);
        return;
      }
      var lenByt, lenBit, rest, last, need := len / 8, len % 8, 8 - off, left - 1, (len + 7) / 8;
      if need >= left {
        var k := len - 8 * last;
        if k < rest { Seek(last, off + lenBit); } else { Seek(left, 0); }
      } else {
        Seek(lenByt + (off + lenBit) / 8, (off + lenBit) % 8);
      }
    }

    /** Read a run length. */
    method ReadRubLen() returns (res: Result, out: nat)
      requires Valid()
      modifies this
      ensures Valid()
      ensures
        var rub := ReadRub(old(Rest()));
        res in {Good, Gone, Meme} &&
        if rub.NoRub? then res != Good
        else res == Good && out == rub.len && Rest() == old(Rest())[rub.used..] && bits == old(bits) + rub.used
    {
      hide Stream, Value;
      ghost var r := Rest();
      var len;
      out := 0;
      res, len := ReadLog();
      if res != Good { return; }
      if len >= 64 { return Meme, 0; }
      if len <= 1 {
        out := len;
        if ReadRub(r).Rub? { OneOrNone(r); }
      } else {
        if len - 1 > |Rest()| { return Gone, 0; }
        ghost var mid := Rest();
        var low := Read64(len - 1);
        out := Xor(low, Pow2(len - 1));
        ghost var z := FirstOne(r);
        if ReadRub(r).Rub? {
          assert z == len && mid == r[z + 1..];
          assert mid[..len - 1] == r[z + 1..2 * z] && mid[len - 1..] == r[2 * z..];
          ValueBound(r[z + 1..2 * z]);
          XorJoin(low, len - 1, 1);
        }
      }
    }
  }

  lemma NoneYet(r: seq<bool>)
    ensures Stream([]) == r[..0]
  {
  }

  lemma NoPadding(b: seq<bool>)
    ensures b + Zeros(0) == b
  {
  }

  lemma OneOrNone(r: seq<bool>)
    requires ReadRub(r).Rub? && FirstOne(r) <= 1
    ensures ReadRub(r) == Rub(FirstOne(r), FirstOne(r) + 1)
  {
    if FirstOne(r) == 1 { assert r[2..2] == []; }
  }

  lemma EmptyRest(bytes: seq<nat>)
    requires bytes == []
    ensures Stream(bytes) == [] && Stream(bytes)[..0] == [] && Value([]) == 0
  {
  }

  lemma NoBytes(b: seq<nat>)
    ensures Value(Stream(b[..0])) == 0
  {
  }

  lemma MoreBytes(b: seq<nat>, i: nat)
    requires i < |b| && AreBytes(b)
    ensures Value(Stream(b[..i + 1])) == Xor(Value(Stream(b[..i])), Pow2(8 * i) * b[i])
  {
    hide Low, Stream, Value, Xor;
    assert b[..i + 1] == b[..i] + [b[i]];
    StreamJoin(b[..i], [b[i]]);
    StreamOne(b[i]);
    ValueJoin(Stream(b[..i]), Low(b[i], 8));
    assert Pow2(8) == 0x100;
    ValueLow(b[i], 8);
    ValueBound(Stream(b[..i]));
    XorJoin(Value(Stream(b[..i])), 8 * i, b[i]);
  }

  /** Whole bytes and then some bits of the next. */
  lemma TailBytes(b: seq<nat>, n: nat, k: nat, l: nat)
    requires k < 8 && 8 * n + k <= 8 * |b| && l == Value(Stream(b[..n]))
    ensures Value(Stream(b)[..8 * n + k]) == if k > 0 then Xor(l, Pow2(8 * n) * (b[n] % Pow2(k))) else l
  {
    hide Low, Stream, Value, Xor;
    StreamFrom(b, n);
    if k > 0 {
      StreamAt(b, n);
      LowSplit(b[n], k, 8 - k);
      assert Stream(b)[..8 * n + k] == Stream(b[..n]) + Low(b[n], k);
      ValueJoin(Stream(b[..n]), Low(b[n], k));
      MaskValue(b[n], k);
      ValueBound(Stream(b[..n]));
      XorJoin(l, 8 * n, b[n] % Pow2(k));
    }
  }

  lemma ShortRead(bytes: seq<nat>, off: nat, len: nat)
    requires bytes != [] && AreBytes(bytes) && off < 8 && len < 8 - off
    ensures Shr(bytes[0], off) % Pow2(len) == Value(Stream(bytes)[off..][..len])
  {
    hide Stream, Value;
    FirstByte(bytes, off);
    var m := Shr(bytes[0], off);
    LowSplit(m, len, 8 - off - len);
    MaskValue(m, len);
    assert Stream(bytes)[off..][..len] == Stream(bytes)[off..8][..len];
  }

  lemma LongRead(bytes: seq<nat>, off: nat, n: nat)
    requires bytes != [] && AreBytes(bytes) && off < 8 && n <= 8 * (|bytes| - 1)
    ensures Value(Stream(bytes)[off..][..8 - off + n]) ==
            Shr(bytes[0], off) + Pow2(8 - off) * Value(Stream(bytes[1..])[..n])
  {
    hide Stream, Value;
    FirstByte(bytes, off);
    StreamFrom(bytes, 1);
    var s := Stream(bytes);
    assert s[8..][..n] == s[8..8 + n];
    assert s[off..][..8 - off + n] == s[off..8] + s[8..8 + n];
    ValueJoin(s[off..8], s[8..8 + n]);
  }

  /** Bytes copied at a byte boundary. */
  lemma CopiedBytes(b: seq<nat>, n: nat, k: nat)
    requires k < 8 && 8 * n + k <= 8 * |b| && AreBytes(b)
    ensures
      var out := b[..n] + (if k > 0 then [b[n] % Pow2(k)] else []);
      AreBytes(out) && Stream(out) == Stream(b)[..8 * n + k] + Zeros(8 * |out| - 8 * n - k)
  {
    hide Low, Stream, Zeros;
    StreamFrom(b, n);
    if k > 0 {
      var v := b[n] % Pow2(k);
      StreamJoin(b[..n], [v]);
      StreamOne(v);
      StreamAt(b, n);
      LowSplit(b[n], k, 8 - k);
      LowMod(b[n], k);
      LowOfSmall(v, k, 8 - k);
      PowSmall(k);
      assert Stream(b)[..8 * n + k] == Stream(b[..n]) + Low(b[n], k);
      Assoc(Stream(b[..n]), Low(b[n], k), Zeros(8 - k));
    } else {
      assert Zeros(0) == [];
      assert b[..n] + [] == b[..n];
    }
  }

  lemma PowSmall(k: nat)
    requires k <= 8
    ensures Pow2(k) <= 0x100
  {
    assert Pow2(8) == 0x100;
    PowPlus(k, 8 - k);
    MulMono(Pow2(k), 0, Pow2(8 - k));
  }

  /** An output byte made of the end of one input byte and the start of the next. */
  lemma MixedByte(bytes: seq<nat>, off: nat, i: nat, out: seq<nat>)
    requires 0 < off < 8 && i + 1 < |bytes| && AreBytes(bytes) && |out| == i
    requires Stream(out) == Stream(bytes)[off..][..8 * i]
    ensures
      var v := Xor(Shr(bytes[i], off), Pow2(8 - off) * (bytes[i + 1] % Pow2(off)));
      IsByte(v) && Stream(out + [v]) == Stream(bytes)[off..][..8 * (i + 1)]
  {
    hide Low, Stream, Xor;
    var m, l := Shr(bytes[i], off), bytes[i + 1] % Pow2(off);
    var v := Xor(m, Pow2(8 - off) * l);
    TwoParts(bytes, off, i, off);
    assert Pow2(8) == 0x100;
    ShrSmall(bytes[i], off, 8 - off);
    XorJoin(m, 8 - off, l);
    LowJoin(m, 8 - off, l, off);
    LowMod(bytes[i + 1], off);
    PowPlus(8 - off, off);
    MulMono(Pow2(8 - off), l, Pow2(off));
    StreamJoin(out, [v]);
    StreamOne(v);
    var r := Stream(bytes)[off..];
    assert r[..8 * (i + 1)] == r[..8 * i] + r[8 * i..8 * i + 8];
  }

  /** The bits of an output byte: the rest of input byte `i`, then `k` bits of the next. */
  lemma TwoParts(bytes: seq<nat>, off: nat, i: nat, k: nat)
    requires off < 8 && k <= 8 && i < |bytes| && (k > 0 ==> i + 1 < |bytes|)
    ensures
      var r := Stream(bytes)[off..];
      r[8 * i..8 * i + 8 - off + k] ==
      Low(Shr(bytes[i], off), 8 - off) + (if k > 0 then Low(bytes[i + 1], k) else [])
  {
    hide Low, Stream;
    var s := Stream(bytes);
    var r := s[off..];
    StreamAt(bytes, i);
    LowSplit(bytes[i], off, 8 - off);
    var x := Low(Shr(bytes[i], off), 8 - off);
    assert s[8 * i + off..8 * i + 8] == x;
    if k > 0 {
      StreamAt(bytes, i + 1);
      LowSplit(bytes[i + 1], k, 8 - k);
      assert s[8 * i + 8..8 * i + 8 + k] == Low(bytes[i + 1], k);
      assert r[8 * i..8 * i + 8 - off + k] == s[8 * i + off..8 * i + 8] + s[8 * i + 8..8 * i + 8 + k];
    } else {
      assert r[8 * i..8 * i + 8 - off] == s[8 * i + off..8 * i + 8];
      assert x + [] == x;
    }
  }

  lemma ShortByte(b: nat, off: nat, k: nat)
    requires b < 0x100 && off < 8 && k <= 8 - off
    ensures
      var m := Shr(b, off);
      var v := m % Pow2(k);
      && IsByte(v) && Low(v, 8) == Low(m, k) + Zeros(8 - k) && (k == 8 - off ==> v == m)
      && Low(m, 8 - off)[..k] == Low(m, k)
  {
    assert Pow2(8) == 0x100;
    PowSmall(k);
    var m := Shr(b, off);
    ShrSmall(b, off, 8 - off);
    LowMod(m, k);
    ModFits(m, k);
    LowSplit(m, k, 8 - off - k);
    FewBits(m % Pow2(k), k);
    hide *;
  }

  lemma ModFits(m: nat, k: nat)
    ensures m % Pow2(k) < Pow2(k) && (m < Pow2(k) ==> m % Pow2(k) == m)
  {
    hide Pow2;
  }

  lemma FewBits(v: nat, k: nat)
    requires k <= 8 && v < Pow2(k)
    ensures Low(v, 8) == Low(v, k) + Zeros(8 - k)
  {
    LowOfSmall(v, k, 8 - k);
  }

  /** The last, partial output byte, from one input byte. */
  lemma LastShort(bytes: seq<nat>, off: nat, i: nat, k: nat, out: seq<nat>)
    requires 0 < off < 8 && 0 < k <= 8 - off && i < |bytes| && AreBytes(bytes) && |out| == i && AreBytes(out)
    requires Stream(out) == Stream(bytes)[off..][..8 * i]
    ensures
      var m := Shr(bytes[i], off);
      && IsByte(m % Pow2(k)) && Stream(out + [m % Pow2(k)]) == Stream(bytes)[off..][..8 * i + k] + Zeros(8 - k)
      && (k == 8 - off ==> m % Pow2(k) == m)
  {
    hide Low, Stream, Xor, Zeros, Pow2;
    var r := Stream(bytes)[off..];
    var m := Shr(bytes[i], off);
    assert r[..8 * i + k] == r[..8 * i] + r[8 * i..8 * i + k];
    var v := m % Pow2(k);
    ShortByte(bytes[i], off, k);
    TwoParts(bytes, off, i, 0);
    assert r[8 * i..8 * i + k] == r[8 * i..8 * i + 8 - off][..k];
    assert r[8 * i..8 * i + k] == Low(m, k);
    StreamJoin(out, [v]);
    StreamOne(v);
    Assoc(r[..8 * i], Low(m, k), Zeros(8 - k));
  }

  /** The last, partial output byte, from two input bytes. */
  lemma LastLong(bytes: seq<nat>, off: nat, i: nat, k: nat, out: seq<nat>)
    requires 0 < off < 8 && 8 - off < k < 8 && i + 1 < |bytes| && AreBytes(bytes) && |out| == i && AreBytes(out)
    requires Stream(out) == Stream(bytes)[off..][..8 * i]
    ensures
      var v := Xor(Shr(bytes[i], off), Pow2(8 - off) * (bytes[i + 1] % Pow2((off + k) % 8)));
      IsByte(v) && Stream(out + [v]) == Stream(bytes)[off..][..8 * i + k] + Zeros(8 - k)
  {
    hide Low, Stream, Xor, Zeros, Shr;
    var r := Stream(bytes)[off..];
    var m := Shr(bytes[i], off);
    assert r[..8 * i + k] == r[..8 * i] + r[8 * i..8 * i + k];
    var j := off + k - 8;
    assert (off + k) % 8 == j;
    ModFits(bytes[i + 1], j);
    hide Pow2;
    var l := bytes[i + 1] % Pow2(j);
    var v := Xor(m, Pow2(8 - off) * l);
    TwoParts(bytes, off, i, j);
    LowMod(bytes[i + 1], j);
    LongByte(bytes[i], off, j, l);
    StreamJoin(out, [v]);
    StreamOne(v);
    Assoc(r[..8 * i], r[8 * i..8 * i + k], Zeros(8 - k));
  }

  lemma LongByte(b: nat, off: nat, j: nat, l: nat)
    requires b < 0x100 && 0 < off < 8 && j <= off && l < Pow2(j)
    ensures
      var v := Xor(Shr(b, off), Pow2(8 - off) * l);
      IsByte(v) && Low(v, 8) == Low(Shr(b, off), 8 - off) + Low(l, j) + Zeros(off - j)
  {
    hide Low, Xor, Zeros;
    var m := Shr(b, off);
    assert Pow2(8) == 0x100;
    ShrSmall(b, off, 8 - off);
    XorJoin(m, 8 - off, l);
    PowOrder(j, off);
    LowJoin(m, 8 - off, l, off);
    LowOfSmall(l, j, off - j);
    Assoc(Low(m, 8 - off), Low(l, j), Zeros(off - j));
    PowPlus(8 - off, off);
    MulMono(Pow2(8 - off), l, Pow2(off));
  }

  lemma BitAt(bytes: seq<nat>, off: nat)
    requires bytes != [] && off < 8
    ensures Stream(bytes)[off] == (Shr(bytes[0], off) % 2 == 1)
    ensures Stream(bytes)[off..] != [] && Stream(bytes)[off..][0] == Stream(bytes)[off]
  {
    hide Stream;
    StreamFirst(bytes);
    LowSplit(bytes[0], off, 8 - off);
  }

  lemma StreamFirst(bytes: seq<nat>)
    requires bytes != []
    ensures Stream(bytes)[..8] == Low(bytes[0], 8) && Stream(bytes)[8..] == Stream(bytes[1..])
  {
  }

  lemma NextBit(bytes: seq<nat>)
    requires |bytes| > 1
    ensures Stream(bytes)[8] == (bytes[1] % 2 == 1)
  {
    hide Stream;
    StreamFirst(bytes);
    StreamFirst(bytes[1..]);
    assert Stream(bytes)[8] == Stream(bytes)[8..][0];
    assert Stream(bytes[1..])[0] == Stream(bytes[1..])[..8][0];
  }

  /** The bits of the byte `skip` places on, counted from the cursor. */
  lemma ByteBits(bytes: seq<nat>, off: nat, skip: nat)
    requires skip < |bytes| && off < 8 && skip > 0
    ensures forall i :: 8 * skip - off <= i < 8 * skip - off + 8 ==>
              Stream(bytes)[off..][i] == Low(bytes[skip], 8)[i - (8 * skip - off)]
  {
    hide Stream, Low;
    StreamAt(bytes, skip);
  }
}
