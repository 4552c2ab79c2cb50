/** Serialization of hash-consed nouns (pkg/urbit/ur/serial.c): `ur_jam` and `ur_cue`. */
module Serial {
  import opened Nouns
  import opened Bits
  import opened BitWriter
  import opened BitReader
  import opened Dicts
  import opened HashCons
  import opened JamSpec
  import opened JamWalk

  const FIB11: nat := 144
  const FIB12: nat := 233

  /** Bit cursors are 64-bit. */
  const CURSORS: nat := 0x1_0000_0000_0000_0000

  function Denoted(a: Arena, refs: seq<nat>): (ns: seq<Noun>)
    requires Sound(a) && forall i | 0 <= i < |refs| :: Live(a, refs[i])
    ensures |ns| == |refs| && forall i | 0 <= i < |refs| :: ns[i] == Denote(a, refs[i])
  {
    seq(|refs|, i requires 0 <= i < |refs| => Denote(a, refs[i]))
  }

  /** The dictionary says of references what `seen` says of nouns. */
  ghost predicate Indexed(h: Hash, a: Arena, m: map<nat, Entry<nat>>, seen: map<Noun, nat>)
    requires Sound(a)
  {
    && (forall r | r in m :: Live(a, r) && m[r].mug == Mug(h, a, r) && m[r].val < CURSORS)
    && (forall r | Live(a, r) :: Agrees(a, m, seen, r))
  }

  ghost predicate Agrees(a: Arena, m: map<nat, Entry<nat>>, seen: map<Noun, nat>, r: nat)
    requires Sound(a) && Live(a, r)
  {
    (r in m <==> Denote(a, r) in seen) && (r in m ==> m[r].val == seen[Denote(a, r)])
  }

  lemma IndexedPut(h: Hash, a: Arena, m: map<nat, Entry<nat>>, seen: map<Noun, nat>, r: nat, pos: nat)
    requires Healthy(h, a) && Canonical(a) && Live(a, r) && Indexed(h, a, m, seen) && pos < CURSORS
    ensures Indexed(h, a, m[r := Entry(r, Mug(h, a, r), pos)], seen[Denote(a, r) := pos])
  {
    hide Denote, Mug, Canonical, Sound;
    var m', seen' := m[r := Entry(r, Mug(h, a, r), pos)], seen[Denote(a, r) := pos];
    forall x | Live(a, x) ensures Agrees(a, m', seen', x) {
      assert Agrees(a, m, seen, x);
      if Denote(a, x) == Denote(a, r) { RefsUnique(a, x, r); }
    }
  }

  lemma CrowdedRefs(h: Hash, a: Arena, m: map<nat, Entry<nat>>, seen: map<Noun, nat>, ref: nat)
    requires Healthy(h, a) && Canonical(a) && Live(a, ref) && Indexed(h, a, m, seen) && ref !in m && Crowded(m, Mug(h, a, ref))
    ensures Collision(h, seen.Keys + {Denote(a, ref)})
  {
    hide Sound, Live, Mug, Denote, Crowded, Unique, Canonical, Hashed;
    var ns := seen.Keys + {Denote(a, ref)};
    forall r | r in m ensures EntryOf(h, a, m, r) && Denote(a, r) in ns { assert Agrees(a, m, seen, r); }
    forall x, y | (x in m || x == ref) && (y in m || y == ref) && Denote(a, x) == Denote(a, y) ensures x == y { RefsUnique(a, x, y); }
    MugIs(h, a, ref);
    CrowdedNouns(h, a, m, ns, Denote(a, ref));
  }

  /** When all of `ns` is in the dictionary, no eleven of them have one mug. */
  lemma NoCollision(h: Hash, a: Arena, t: Table<nat>, m: map<nat, Entry<nat>>, seen: map<Noun, nat>, n: Noun)
    requires Healthy(h, a) && Knows(a, n) && Represents(t, m) && Indexed(h, a, m, seen) && Subnouns(n) <= seen.Keys
    ensures !Collision(h, Subnouns(n))
  {
    hide Sound, Live, Mug, Denote, Represents, Unique, Hashed, Subnouns;
    forall r | r in m ensures EntryOf(h, a, m, r) {}
    forall p | p in Subnouns(n) ensures Entered(a, m, p) {
      KnowsInside(a, p, n);
      var r :| Live(a, r) && Denote(a, r) == p;
      assert Agrees(a, m, seen, r);
    }
    EnteredNouns(h, a, t, m, Subnouns(n));
  }

  // ---- the length of an atom ----

  /** The bit length of a nonempty trimmed byte string. */
  function MetBytes(b: seq<nat>): nat
    requires b != []
  {
    8 * (|b| - 1) + Met(b[|b| - 1])
  }

  lemma {:induction false} MetBytesOk(b: seq<nat>)
    requires Trimmed(b) && b != []
    ensures MetBytes(b) == Met(Value(Stream(b)))
  {
    hide Stream, Value, Shr, Pow2;
    FirstByteValue(b);
    if |b| == 1 {
      NoBits(b[1..]);
    } else {
      TopByte(b[1..]);
      MetBytesOk(b[1..]);
      PowEight();
      ShrIsDiv(Value(Stream(b)), 8);
      MetShift(Value(Stream(b)), 8);
    }
  }

  lemma {:induction false} MetShift(n: nat, k: nat)
    requires Shr(n, k) > 0
    ensures Met(n) == k + Met(Shr(n, k))
  {
    if k > 0 { MetShift(n / 2, k - 1); }
  }

  /** The leading bytes of an atom carry its bits. */
  lemma BytesLow(b: seq<nat>)
    requires Trimmed(b) && b != []
    ensures MetBytes(b) <= 8 * |b| && Stream(b)[..MetBytes(b)] == Low(Value(Stream(b)), MetBytes(b))
  {
    hide Stream, Value, Low;
    MetSmall8(b[|b| - 1]);
    LowValue(Stream(b));
    LowPrefix(Value(Stream(b)), MetBytes(b), 8 * |b|);
  }

  lemma MetSmall8(b: nat)
    requires b < 0x100
    ensures Met(b) <= 8
  {
    PowEight();
    MetSmall(b, 8);
  }

  lemma LowPrefix(v: nat, k: nat, n: nat)
    requires k <= n
    ensures Low(v, n)[..k] == Low(v, k)
  {
    LowSplit(v, k, n - k);
  }

  /** The bit length of an atom. */
  function MetRef(a: Arena, ref: nat): (len: nat)
    requires Sound(a) && Canonical(a) && Live(a, ref) && RefTag(ref) != 2
    ensures len == Met(Denote(a, ref).value)
    ensures RefTag(ref) == 0 ==> len <= 62
  {
    if RefTag(ref) == 0 then
      MetTag(ref);
      Met(ref)
    else
      var b := a.bytes[Index(ref)];
      NoBits(b);
      MetBytesOk(b);
      MetBytes(b)
  }

  lemma MetTag(n: nat)
    requires RefTag(n) == 0
    ensures Met(n) <= 62
  {
    SixtyTwoBits();
    MetSmall(n, 62);
  }

  lemma SixtyTwoBits()
    ensures Pow2(62) == TAG && Pow2(64) == CURSORS
  {
    assert Pow2(2) == 4 && Pow2(6) == 64;
    hide Pow2;
    PowEight();
    PowPlus(8, 8);
    PowPlus(16, 16);
    PowPlus(32, 16);
    PowPlus(48, 8);
    PowPlus(56, 6);
    PowPlus(62, 2);
  }

  // ---- writing ----

  /** Write an atom's bits. */
  method PutAtom(root: Root, ref: nat, bsw: Bsw, len: nat)
    requires root.Valid() && Canonical(root.a) && Live(root.a, ref) && RefTag(ref) != 2 && len == MetRef(root.a, ref)
    requires bsw.Valid()
    modifies bsw
    ensures bsw.Valid()
    ensures
      var v := Denote(root.a, ref).value;
      bsw.written == old(bsw.written) + ([false] + Mat(Low(v, Met(v))))
  {
    hide Stream, Value, Low, Mat;
    if RefTag(ref) == 0 {
      bsw.Atom64(len, ref);
    } else {
      var byt := root.a.bytes[Index(ref)];
      NoBits(byt);
      BytesLow(byt);
      bsw.AtomBytes(len, byt);
    }
  }

  /** Write an atom, or a reference to it if that is shorter. */
  method JamAtom(root: Root, ref: nat, dict: Dict<nat>, bsw: Bsw, ghost seen: map<Noun, nat>) returns (ok: bool)
    requires root.Valid() && Canonical(root.a) && Live(root.a, ref) && RefTag(ref) != 2
    requires dict.Valid() && bsw.Valid() && Indexed(root.h, root.a, dict.m, seen) && bsw.bits < CURSORS
    modifies dict, bsw
    ensures bsw.Valid() && dict.Valid()
    ensures !ok ==> Collision(root.h, seen.Keys + {Denote(root.a, ref)})
    ensures
      var j := Jam(Denote(root.a, ref), old(|bsw.written|), seen);
      ok ==> bsw.written == old(bsw.written) + j.bits && Indexed(root.h, root.a, dict.m, j.seen)
  {
    hide Mat, Low, Represents, Jam, Crowded, Collision;
    ghost var n := Denote(root.a, ref);
    ghost var pos := bsw.bits;
    BitsWritten(bsw);
    HealthySound(root.h, root.a);
    MugBound(root.h, root.a, ref);
    assert Agrees(root.a, dict.m, seen, ref);
    var len := MetRef(root.a, ref);
    var bak := dict.Get(ref, Mug(root.h, root.a, ref));
    match bak
    case None =>
      JamNewAtom(n, pos, seen);
      IndexedPut(root.h, root.a, dict.m, seen, ref, bsw.bits);
      ok := dict.Put(ref, Mug(root.h, root.a, ref), bsw.bits);
      if !ok { CrowdedRefs(root.h, root.a, dict.m, seen, ref); }
      PutAtom(root, ref, bsw, len);
    case Some(b) =>
      var lenBak := Met(b);
      if len <= lenBak {
        JamAgain(n, pos, seen);
        PutAtom(root, ref, bsw, len);
      } else {
        SixtyTwoBits();
        MetSmall(b, 64);
        JamBack(n, pos, seen);
        bsw.Back64(lenBak, b);
      }
      ok := true;
  }

  lemma MugBound(h: Hash, a: Arena, ref: nat)
    requires Healthy(h, a) && Live(a, ref)
    ensures Mug(h, a, ref) < MUGS
  {
    if RefTag(ref) == 2 { assert CellHashed(h, a, Index(ref)); }
  }

  lemma BitsWritten(bsw: Bsw)
    requires bsw.Valid()
    ensures bsw.bits == |bsw.written|
  {
  }

  /** Write the tag of a cell met for the first time, or a reference to it. */
  method JamCellTag(root: Root, ref: nat, dict: Dict<nat>, bsw: Bsw, ghost seen: map<Noun,
          nat>) returns (ok: bool, deep: bool)
    requires root.Valid() && Canonical(root.a) && Live(root.a, ref) && RefTag(ref) == 2
    requires dict.Valid() && bsw.Valid() && Indexed(root.h, root.a, dict.m, seen) && bsw.bits < CURSORS
    modifies dict, bsw
    ensures bsw.Valid() && dict.Valid()
    ensures !ok ==> Collision(root.h, seen.Keys + {Denote(root.a, ref)})
    ensures deep == (Denote(root.a, ref) !in seen)
    ensures ok && deep ==>
              bsw.written == old(bsw.written) + CELL_BITS
              && Indexed(root.h, root.a, dict.m, seen[Denote(root.a, ref) := old(|bsw.written|)])
    ensures
      var j := Jam(Denote(root.a, ref), old(|bsw.written|), seen);
      ok && !deep ==> bsw.written == old(bsw.written) + j.bits && Indexed(root.h, root.a, dict.m, j.seen)
  {
    hide Mat, Low, Represents, Jam, Crowded, Collision;
    ghost var n := Denote(root.a, ref);
    ghost var pos := bsw.bits;
    BitsWritten(bsw);
    HealthySound(root.h, root.a);
    MugBound(root.h, root.a, ref);
    assert Agrees(root.a, dict.m, seen, ref);
    var bak := dict.Get(ref, Mug(root.h, root.a, ref));
    match bak
    case None =>
      IndexedPut(root.h, root.a, dict.m, seen, ref, bsw.bits);
      ok := dict.Put(ref, Mug(root.h, root.a, ref), bsw.bits);
      if !ok { CrowdedRefs(root.h, root.a, dict.m, seen, ref); }
      bsw.Cell();
      deep := true;
    case Some(b) =>
      SixtyTwoBits();
      MetSmall(b, 64);
      JamBack(n, pos, seen);
      bsw.Back64(Met(b), b);
      ok, deep := true, false;
  }

  /** What is written and recorded so far, and what the references on the stack still add to it,
      make up the serialization of `n`. */
  ghost predicate Walking(a: Arena, top: seq<nat>, written: seq<bool>, seen: map<Noun, nat>, n: Noun)
    requires Sound(a)
  {
    && (forall i | 0 <= i < |top| :: Live(a, top[i])) && seen.Keys + Subparts(Denoted(a, top)) <= Subnouns(n)
    && written + JamAll(Denoted(a, top), |written|, seen).bits == JamBits(n)
    && JamAll(Denoted(a, top), |written|, seen).seen == Jam(n, 0, map[]).seen
  }

  lemma WalkStart(a: Arena, ref: nat)
    requires Sound(a) && Live(a, ref)
    ensures Walking(a, [ref], [], map[], Denote(a, ref))
  {
    hide Jam, JamAll, Denote, Subparts, Subnouns;
    JamOne(Denote(a, ref));
    AllSeen(Denote(a, ref));
    assert Denoted(a, [ref]) == [Denote(a, ref)];
  }

  /** The top of the stack, and what is under it. */
  lemma WalkTop(a: Arena, top: seq<nat>, written: seq<bool>, seen: map<Noun, nat>, n: Noun)
    requires Sound(a) && Walking(a, top, written, seen, n) && top != []
    ensures
      var k := |top| - 1;
      && Live(a, top[k]) && (forall i | 0 <= i < |top| :: Live(a, top[i])) && seen.Keys + {Denote(a, top[k])} <= Subnouns(n)
      && Denoted(a, top) == Denoted(a, top[..k]) + [Denote(a, top[k])]
  {
    hide Jam, JamAll, Denote, Subparts, Subnouns, JamBits;
    TopInside(Denoted(a, top));
  }

  /** The tag of a new cell was written: its parts take its place. */
  lemma WalkDeep(a: Arena, rest: seq<nat>, r: nat, written: seq<bool>, seen: map<Noun, nat>, n: Noun)
    requires Sound(a) && Walking(a, rest + [r], written, seen, n) && Live(a, r) && RefTag(r) == 2 && Denote(a, r) !in seen
    ensures Index(r) < |a.heads| == |a.tails|
    ensures
      var top := rest + [a.tails[Index(r)], a.heads[Index(r)]];
      && Walking(a, top, written + CELL_BITS, seen[Denote(a, r) := |written|], n)
      && Weight(Denoted(a, top)) < Weight(Denoted(a, rest + [r]))
  {
    hide Jam, JamAll, Denote, Subparts, Subnouns, JamBits, Weight;
    assert forall i | 0 <= i < |rest| :: rest[i] == (rest + [r])[i];
    CellParts(a, r);
    var i, c, ns := Index(r), Denote(a, r), Denoted(a, rest);
    assert Denoted(a, rest + [r]) == ns + [c];
    assert Denoted(a, rest + [a.tails[i], a.heads[i]]) == ns + [c.tail, c.head];
    PushCell(ns, c, written, seen);
    PushInside(ns, c);
    TopInside(ns + [c]);
  }

  /** The top was written. */
  lemma WalkFlat(a: Arena, rest: seq<nat>, r: nat, written: seq<bool>, seen: map<Noun, nat>, n: Noun)
    requires Sound(a) && Walking(a, rest + [r], written, seen, n) && Live(a, r)
    ensures
      var j := Jam(Denote(a, r), |written|, seen);
      && Walking(a, rest, written + j.bits, j.seen, n) && Weight(Denoted(a, rest)) < Weight(Denoted(a, rest + [r]))
  {
    hide Jam, JamAll, Denote, Subparts, Subnouns, JamBits, Weight;
    assert forall i | 0 <= i < |rest| :: rest[i] == (rest + [r])[i];
    var c, ns := Denote(a, r), Denoted(a, rest);
    assert Denoted(a, rest + [r]) == ns + [c];
    assert (ns + [c])[..|ns|] == ns;
    PopTop(ns + [c], written, seen);
    TopInside(ns + [c]);
    SeenInside(c, |written|, seen);
  }

  lemma WalkEnd(a: Arena, written: seq<bool>, seen: map<Noun, nat>, n: Noun)
    requires Sound(a) && Walking(a, [], written, seen, n)
    ensures written == JamBits(n) && seen.Keys == Subnouns(n)
  {
    hide Jam, Subnouns, JamBits;
    AllSeen(n);
    JamOne(n);
    assert Denoted(a, []) == [];
    NothingLeft(|written|, seen);
    assert written + [] == written;
  }

  /** `ur_jam`: the serialization of a reference, by an explicit stack. Unless the cursor is full, it
      succeeds if and only if no eleven nouns in the one written have one mug. */
  method JamRef(root: Root, ref: nat) returns (ok: bool, len: nat, byt: seq<nat>)
    requires root.Valid() && Canonical(root.a) && Live(root.a, ref)
    ensures !ok ==> |JamBits(Denote(root.a, ref))| >= CURSORS || Collision(root.h, Subnouns(Denote(root.a, ref)))
    ensures ok ==> !Collision(root.h, Subnouns(Denote(root.a, ref)))
    ensures ok ==> AreBytes(byt) && len <= |byt| && 8 * len < |JamBits(Denote(root.a, ref))| + 8
    ensures
      var bits := JamBits(Denote(root.a, ref));
      ok ==> |bits| <= 8 * len && Stream(byt[..len]) == bits + Zeros(8 * len - |bits|)
  {
    hide Represents, Jam, JamAll, Weight, Denote, Canonical, Indexed, Healthy, Sound, Collision, JamBits, RefTag, Index, Live, Ok,
      Subnouns, Walking, Knows;
    HealthySound(root.h, root.a);
    ghost var n := Denote(root.a, ref);
    ghost var seen: map<Noun, nat> := map[];
    var bsw := new Bsw(FIB11, FIB12);
    var dict := new Dict<nat>(FIB11, FIB12);
    NothingIndexed(root.h, root.a);
    var top := [ref];
    WalkStart(root.a, ref);
    len, byt := 0, [];
    while top != []
      invariant bsw.Valid() && dict.Valid() && fresh(bsw) && fresh(dict)
      invariant forall i | 0 <= i < |top| :: Live(root.a, top[i])
      invariant Indexed(root.h, root.a, dict.m, seen) && Walking(root.a, top, bsw.written, seen, n)
      decreases Weight(Denoted(root.a, top))
    {
      BitsWritten(bsw);
      ghost var was := bsw.written;
      if bsw.bits >= CURSORS {
        WrittenSo(root.a, top, was, seen, n);
        return false, 0, [];
      }
      var r, rest := top[|top| - 1], top[..|top| - 1];
      WalkTop(root.a, top, was, seen, n);
      assert top == rest + [r];
      var deep := false;
      if RefTag(r) != 2 {
        ok := JamAtom(root, r, dict, bsw, seen);
      } else {
        ok, deep := JamCellTag(root, r, dict, bsw, seen);
      }
      if !ok {
        CollisionMore(root.h, seen.Keys + {Denote(root.a, r)}, Subnouns(n));
        return false, 0, [];
      }
      if deep {
        WalkDeep(root.a, rest, r, was, seen, n);
        CellParts(root.a, r);
        top := rest + [root.a.tails[Index(r)], root.a.heads[Index(r)]];
        seen := seen[Denote(root.a, r) := |was|];
      } else {
        WalkFlat(root.a, rest, r, was, seen, n);
        top := rest;
        seen := Jam(Denote(root.a, r), |was|, seen).seen;
      }
    }
    WalkEnd(root.a, bsw.written, seen, n);
    KnownHere(root.a, ref);
    NoCollision(root.h, root.a, dict.table, dict.m, seen, n);
    len, byt := bsw.Done();
    ok := true;
  }

  lemma KnownHere(a: Arena, ref: nat)
    requires Sound(a) && Live(a, ref)
    ensures Knows(a, Denote(a, ref))
  {
  }

  lemma WrittenSo(a: Arena, top: seq<nat>, written: seq<bool>, seen: map<Noun, nat>, n: Noun)
    requires Sound(a) && Walking(a, top, written, seen, n)
    ensures |written| <= |JamBits(n)|
  {
    hide Jam, JamAll, Denote, Subparts, Subnouns, JamBits;
  }

  /** What is in the nouns of a stack. */
  ghost function Subparts(ns: seq<Noun>): set<Noun> { if ns == [] then {} else Subnouns(ns[|ns| - 1]) + Subparts(ns[..|ns| - 1]) }

  lemma TopInside(ns: seq<Noun>)
    requires ns != []
    ensures ns[|ns| - 1] in Subparts(ns) && Subparts(ns) == Subnouns(ns[|ns| - 1]) + Subparts(ns[..|ns| - 1])
  {
    SeenParts(ns[|ns| - 1]);
  }

  lemma PushInside(ns: seq<Noun>, n: Noun)
    requires n.Cell?
    ensures Subparts(ns + [n.tail, n.head]) <= Subparts(ns + [n])
  {
    hide Subnouns;
    SeenParts(n);
    assert (ns + [n])[..|ns|] == ns;
    assert (ns + [n.tail, n.head])[..|ns| + 1] == ns + [n.tail];
    assert (ns + [n.tail])[..|ns|] == ns;
  }

  /** Serializing a noun records nothing outside it. */
  lemma {:induction false} SeenInside(n: Noun, pos: nat, seen: map<Noun, nat>)
    ensures seen.Keys <= Jam(n, pos, seen).seen.Keys <= seen.Keys + Subnouns(n)
    decreases n
  {
    hide AtomBits, BackBits, Met, Subnouns;
    SeenParts(n);
    if n.Cell? && n !in seen {
      var x := Jam(n.head, pos + 2, seen[n := pos]);
      SeenInside(n.head, pos + 2, seen[n := pos]);
      SeenInside(n.tail, pos + 2 + |x.bits|, x.seen);
    }
  }

  lemma AllSeen(n: Noun)
    ensures Jam(n, 0, map[]).seen.Keys == Subnouns(n) && Subparts([n]) == Subnouns(n)
  {
    hide Jam, Subnouns;
    SeenAll(n, 0, map[]);
    assert [n][..0] == [];
  }

  lemma NothingIndexed(h: Hash, a: Arena)
    requires Sound(a)
    ensures Indexed(h, a, map[], map[])
  {
    forall r | Live(a, r) ensures Agrees(a, map[], map[], r) {}
  }

  lemma CellParts(a: Arena, r: nat)
    requires Sound(a) && Live(a, r) && RefTag(r) == 2
    ensures
      var i := Index(r);
      && i < |a.heads| == |a.tails| && Live(a, a.heads[i]) && Live(a, a.tails[i])
      && Denote(a, r) == Cell(Denote(a, a.heads[i]), Denote(a, a.tails[i]))
  {
  }
}
