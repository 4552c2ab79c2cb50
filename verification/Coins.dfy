/** Hash-consing atoms of any length (pkg/urbit/ur/hashcons.c:661-713). */
module Coins {
  import opened Nouns
  import opened Bits
  import opened Dicts
  import opened HashCons
  import opened Serial
  import opened Room

  /** The lowest `k` bytes of a number. */
  function LowBytes(n: nat, k: nat): (b: seq<nat>)
    ensures |b| == k && AreBytes(b)
  {
    if k == 0 then [] else [n % 0x100] + LowBytes(n / 0x100, k - 1)
  }

  function Pow256(k: nat): (p: nat)
    ensures p > 0
  {
    if k == 0 then 1 else 0x100 * Pow256(k - 1)
  }

  lemma {:induction false} LowBytesValue(n: nat, k: nat)
    requires n < Pow256(k)
    ensures Value(Stream(LowBytes(n, k))) == n
    ensures k > 0 && n >= Pow256(k - 1) ==> LowBytes(n, k)[k - 1] != 0
  {
    hide Value, Stream;
    var b := LowBytes(n, k);
    if k == 0 {
      NoBits(b);
    } else {
      assert b[1..] == LowBytes(n / 0x100, k - 1);
      LowBytesValue(n / 0x100, k - 1);
      FirstByteValue(b);
    }
  }

  /** A zero byte on top adds nothing. */
  lemma {:induction false} TopZero(b: seq<nat>)
    requires b != [] && AreBytes(b) && b[|b| - 1] == 0
    ensures Value(Stream(b[..|b| - 1])) == Value(Stream(b))
  {
    hide Value, Stream;
    var c := b[..|b| - 1];
    FirstByteValue(b);
    if |b| == 1 {
      NoBits(b[1..]);
      NoBits(c);
    } else {
      FirstByteValue(c);
      assert b[1..][..|b| - 2] == c[1..];
      TopZero(b[1..]);
    }
  }

  /** One more byte on top. */
  lemma TopValue(b: seq<nat>, i: nat)
    requires i < |b| && AreBytes(b)
    ensures Value(Stream(b[..i + 1])) == Value(Stream(b[..i])) + b[i] * Pow2(8 * i)
  {
    hide Value, Stream, Pow2, Low;
    assert b[..i + 1] == b[..i] + [b[i]];
    StreamJoin(b[..i], [b[i]]);
    StreamOne(b[i]);
    ValueJoin(Stream(b[..i]), Low(b[i], 8));
    PowEight();
    ValueLow(b[i], 8);
  }

  ghost predicate AtomOf(root: Root, ref: nat, v: nat)
    reads root
  {
    Sound(root.a) && Live(root.a, ref) && Denote(root.a, ref) == Atom(v) && RefTag(ref) != 2
  }

  lemma DirectIs(a: Arena, v: nat)
    requires Sound(a) && v < TAG
    ensures Live(a, v) && Denote(a, v) == Atom(v) && RefTag(v) == 0
  {
  }

  lemma StoredIs(a: Arena, ref: nat)
    requires Sound(a) && Live(a, ref) && RefTag(ref) == 1
    ensures Denote(a, ref) == Atom(Value(Stream(a.bytes[Index(ref)])))
  {
  }

  /** Storing an atom keeps the arena canonical if and only if it would not have fit a reference. */
  lemma CanonicalCoin(a: Arena, b: Arena, byt: seq<nat>)
    requires (b.bytes == a.bytes && byt in a.bytes) || b.bytes == a.bytes + [byt]
    ensures Canonical(b) <==> Canonical(a) && Value(Stream(byt)) >= TAG
  {
    hide Value, Stream;
    if b.bytes == a.bytes {
      var i :| 0 <= i < |a.bytes| && a.bytes[i] == byt;
    } else {
      assert b.bytes[|a.bytes|] == byt;
      assert forall i | 0 <= i < |a.bytes| :: b.bytes[i] == a.bytes[i];
    }
  }

  /** The reference for a nonzero atom, without zero bytes on top: held in the reference if it has
      no more than 62 bits, and stored otherwise. */
  method CoinBytes(root: Root, byt0: seq<nat>) returns (ok: bool, ref: nat)
    requires root.Valid() && AreBytes(byt0) && Value(Stream(byt0)) > 0
    modifies root
    ensures root.Valid() && Grows(old(root.a), root.a) && (Canonical(root.a) <==> Canonical(old(root.a)))
    ensures ok ==> AtomOf(root, ref, Value(Stream(byt0)))
    ensures !ok ==> root.a == old(root.a) && Sound(root.a) && Refused(root.h, root.a, Atom(Value(Stream(byt0))))
    ensures Adds(old(root.a), root.a, {Atom(Value(Stream(byt0)))})
  {
    hide Value, Stream, Represents, Healthy, Crowded, Met, Low, Pow2, Adds, Refused, MugBytes;
    var byt := byt0;
    ghost var was := root.a;
    HealthySound(root.h, root.a);
    while byt != [] && byt[|byt| - 1] == 0
      invariant AreBytes(byt) && Value(Stream(byt)) == Value(Stream(byt0)) && root.Valid() && root.a == old(root.a)
    {
      TopZero(byt);
      byt := byt[..|byt| - 1];
    }
    NoBits(byt);
    MetBytesOk(byt);
    ghost var v := Value(Stream(byt));
    MetBound(v);
    SixtyTwoBits();
    if MetBytes(byt) <= 62 {
      PowOrder(MetBytes(byt), 62);
      var direct := 0;
      NoBits([]);
      assert byt[..0] == [];
      for i := 0 to |byt|
        invariant direct == Value(Stream(byt[..i])) && root.Valid() && root.a == old(root.a)
      {
        TopValue(byt, i);
        direct := direct + byt[i] * Pow2(8 * i);
      }
      assert byt[..|byt|] == byt;
      DirectIs(root.a, v);
      AddsNone(was);
      AddsMore(was, was, {}, {Atom(v)});
      return true, direct;
    }
    PowOrder(62, MetBytes(byt) - 1);
    ok, ref := root.CoinBytesUnsafe(byt);
    HealthySound(root.h, root.a);
    AddsAtom(was, root.a, byt);
    if ok {
      CanonicalCoin(was, root.a, byt);
      StoredIs(root.a, ref);
    } else {
      RefusedAtom(root.h, root.a, byt);
    }
  }

  /** The reference for a 64-bit number. */
  method Coin64(root: Root, n: nat) returns (ok: bool, ref: nat)
    requires root.Valid() && n < CURSORS
    modifies root
    ensures root.Valid() && Grows(old(root.a), root.a) && (Canonical(root.a) <==> Canonical(old(root.a)))
    ensures ok ==> AtomOf(root, ref, n)
    ensures !ok ==> root.a == old(root.a) && Sound(root.a) && Refused(root.h, root.a, Atom(n))
    ensures Adds(old(root.a), root.a, {Atom(n)})
  {
    hide Value, Stream, Represents, Healthy, Crowded, Low, Adds, Refused, MugBytes;
    ghost var was := root.a;
    HealthySound(root.h, root.a);
    if RefTag(n) == 0 {
      DirectIs(root.a, n);
      AddsNone(was);
      AddsMore(was, was, {}, {Atom(n)});
      return true, n;
    }
    LowBytesValue(n, 8);
    assert LowBytes(n, 8)[7] != 0;
    var byt := LowBytes(n, 8);
    ok, ref := root.CoinBytesUnsafe(byt);
    HealthySound(root.h, root.a);
    AddsAtom(was, root.a, byt);
    if ok {
      CanonicalCoin(was, root.a, byt);
      StoredIs(root.a, ref);
    } else {
      RefusedAtom(root.h, root.a, byt);
    }
  }
}
