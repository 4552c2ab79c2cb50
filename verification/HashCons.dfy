/** The hash-consing arena of nouns (pkg/urbit/ur/hashcons.c, `ur_root_t`): atoms are stored once
    per byte string, cells once per pair of references, and a reference stands for its noun. */
module HashCons {
  import opened Nouns
  import opened Bits
  import opened Dicts

  /** References are 64 bits, the top two of them a tag: 0 for an atom of up to 62 bits held in
      the reference itself, 1 for a stored atom, 2 for a cell. */
  const TAG: nat := 0x4000_0000_0000_0000

  function RefTag(ref: nat): nat { ref / TAG }

  function Index(ref: nat): nat { ref % TAG }

  /** The growing arrays: stored atoms and cells, each with its mug. */
  datatype Arena = Arena(bytes: seq<seq<nat>>, atomMugs: seq<nat>, heads: seq<nat>, tails: seq<nat>, cellMugs: seq<nat>)

  /** The reference is meaningful, and a cell's index is below `limit`. */
  predicate Ok(a: Arena, ref: nat, limit: nat) {
    RefTag(ref) == 0 || (RefTag(ref) == 1 && Index(ref) < |a.bytes|) || (RefTag(ref) == 2 && Index(ref) < limit)
  }

  /** No zero byte on top. */
  predicate Trimmed(b: seq<nat>) { AreBytes(b) && (b != [] ==> b[|b| - 1] != 0) }

  /** Every cell's parts come before it. */
  predicate Sound(a: Arena) {
    && |a.atomMugs| == |a.bytes| && |a.heads| == |a.tails| == |a.cellMugs|
    && (forall i | 0 <= i < |a.bytes| :: Trimmed(a.bytes[i]))
    && (forall i | 0 <= i < |a.heads| :: Ok(a, a.heads[i], i) && Ok(a, a.tails[i], i))
  }

  predicate Live(a: Arena, ref: nat) { Ok(a, ref, |a.heads|) }

  function Denote(a: Arena, ref: nat): Noun
    requires Sound(a) && Live(a, ref)
    decreases if RefTag(ref) == 2 then Index(ref) + 1 else 0
  {
    if RefTag(ref) == 0 then Atom(ref)
    else if RefTag(ref) == 1 then Atom(Value(Stream(a.bytes[Index(ref)])))
    else Cell(Denote(a, a.heads[Index(ref)]), Denote(a, a.tails[Index(ref)]))
  }

  /** The cell of two references is stored. */
  ghost predicate HasCell(a: Arena, hed: nat, tal: nat) { exists i :: 0 <= i < |a.heads| && CellIs(a, i, hed, tal) }

  predicate CellIs(a: Arena, i: nat, hed: nat, tal: nat) { i < |a.heads| && i < |a.tails| && a.heads[i] == hed && a.tails[i] == tal }

  /** Nothing is stored twice. */
  predicate Unique(a: Arena)
    requires |a.heads| == |a.tails|
  {
    && (forall i, j | 0 <= i < j < |a.bytes| :: a.bytes[i] != a.bytes[j])
    && (forall i, j | 0 <= i < j < |a.heads| :: a.heads[i] != a.heads[j] || a.tails[i] != a.tails[j])
  }

  /** No stored atom would have fit into a reference. */
  predicate Canonical(a: Arena) {
    forall i | 0 <= i < |a.bytes| :: Value(Stream(a.bytes[i])) >= TAG
  }

  // ---- references and nouns ----

  /** Trimmed byte strings are determined by their value. */
  lemma {:induction false} BytesUnique(x: seq<nat>, y: seq<nat>)
    requires Trimmed(x) && Trimmed(y) && Value(Stream(x)) == Value(Stream(y))
    ensures x == y
  {
    hide Low, Value, Stream;
    if x == [] || y == [] {
      if x != [] { TopByte(x); NoBits(y); }
      if y != [] { TopByte(y); NoBits(x); }
    } else {
      FirstByteValue(x);
      FirstByteValue(y);
      BytesUnique(x[1..], y[1..]);
      assert x == [x[0]] + x[1..] && y == [y[0]] + y[1..];
    }
  }

  lemma NoBits(x: seq<nat>)
    ensures x == [] ==> Value(Stream(x)) == 0
  {
  }

  lemma FirstByteValue(x: seq<nat>)
    requires x != [] && AreBytes(x)
    ensures Value(Stream(x)) == x[0] + 0x100 * Value(Stream(x[1..]))
  {
    hide Low, Value;
    assert Stream(x) == Low(x[0], 8) + Stream(x[1..]);
    ValueJoin(Low(x[0], 8), Stream(x[1..]));
    PowEight();
    ValueLow(x[0], 8);
  }

  lemma PowEight()
    ensures Pow2(8) == 0x100
  {
    PowPlus(4, 4);
    assert Pow2(4) == 16;
  }

  lemma {:induction false} TopByte(x: seq<nat>)
    requires Trimmed(x) && x != []
    ensures Value(Stream(x)) > 0
  {
    hide Low, Value, Stream;
    FirstByteValue(x);
    if |x| > 1 { TopByte(x[1..]); }
  }

  /** References are equal whenever the nouns are: what makes comparison constant-time. */
  lemma {:induction false} RefsUnique(a: Arena, x: nat, y: nat)
    requires Sound(a) && Unique(a) && Canonical(a) && Live(a, x) && Live(a, y)
    requires Denote(a, x) == Denote(a, y)
    ensures x == y
    decreases if RefTag(x) == 2 then Index(x) + 1 else 0
  {
    hide Low, Value, Stream;
    assert x == TAG * RefTag(x) + Index(x) && y == TAG * RefTag(y) + Index(y);
    var i, j := Index(x), Index(y);
    if RefTag(x) == 2 {
      RefsUnique(a, a.heads[i], a.heads[j]);
      RefsUnique(a, a.tails[i], a.tails[j]);
    } else if RefTag(x) == 1 && RefTag(y) == 1 {
      BytesUnique(a.bytes[i], a.bytes[j]);
    }
  }

  /** Exactly the canonical arenas identify references with nouns. */
  lemma CanonicalIff(a: Arena)
    requires Sound(a) && Unique(a) && |a.bytes| < TAG
    ensures Canonical(a) <==> forall x, y | Live(a, x) && Live(a, y) && Denote(a, x) == Denote(a, y) :: x == y
  {
    hide Low, Value, Stream;
    if Canonical(a) {
      forall x, y | Live(a, x) && Live(a, y) && Denote(a, x) == Denote(a, y) ensures x == y { RefsUnique(a, x, y); }
    } else {
      var i :| 0 <= i < |a.bytes| && Value(Stream(a.bytes[i])) < TAG;
      var x, y := Value(Stream(a.bytes[i])), TAG + i;
      assert RefTag(y) == 1 && Index(y) == i && RefTag(x) == 0;
      assert Live(a, x) && Live(a, y) && Denote(a, x) == Denote(a, y) && x != y;
    }
  }

  lemma CellHere(a: Arena, i: nat, hed: nat, tal: nat)
    requires Sound(a) && i < |a.heads| && a.heads[i] == hed && a.tails[i] == tal && 2 * TAG + |a.heads| <= 3 * TAG
    ensures HasCell(a, hed, tal) && Live(a, 2 * TAG + i) && Denote(a, 2 * TAG + i) == Cell(Denote(a, hed), Denote(a, tal))
  {
    assert CellIs(a, i, hed, tal);
  }

  lemma CellNew(was: Arena, a: Arena, mug: nat, hed: nat, tal: nat)
    requires Sound(was) && Sound(a) && a == AddCell(was, mug, hed, tal) && Live(was, hed) && Live(was, tal) && |was.heads| < TAG
    ensures
      var cel := 2 * TAG + |was.heads|;
      Live(a, cel) && Denote(a, cel) == Cell(Denote(was, hed), Denote(was, tal))
  {
    DenoteStays(was, a, hed);
    DenoteStays(was, a, tal);
  }

  /** What an arena has stored since it was `a` is among `ns`. */
  ghost predicate Adds(a: Arena, b: Arena, ns: set<Noun>) {
    && Sound(b) && Grows(a, b)
    && (forall i | |a.bytes| <= i < |b.bytes| :: Atom(Value(Stream(b.bytes[i]))) in ns)
    && (forall i | |a.heads| <= i < |b.heads| :: Cell(Denote(b, b.heads[i]), Denote(b, b.tails[i])) in ns)
  }

  lemma AddsNone(a: Arena)
    requires Sound(a)
    ensures Adds(a, a, {})
  {
  }

  lemma AddsMore(a: Arena, b: Arena, ns: set<Noun>, more: set<Noun>)
    requires Adds(a, b, ns) && ns <= more
    ensures Adds(a, b, more)
  {
  }

  lemma AddsTwice(a: Arena, b: Arena, c: Arena, ns: set<Noun>)
    requires Sound(a) && Adds(a, b, ns) && Adds(b, c, ns)
    ensures Adds(a, c, ns)
  {
    hide Value, Stream;
    forall i | |a.heads| <= i < |c.heads| ensures Cell(Denote(c, c.heads[i]), Denote(c, c.tails[i])) in ns {
      if i < |b.heads| {
        DenoteStays(b, c, b.heads[i]);
        DenoteStays(b, c, b.tails[i]);
      }
    }
  }

  lemma AddsAtom(a: Arena, b: Arena, byt: seq<nat>)
    requires Sound(b) && Grows(a, b) && b.heads == a.heads && (b.bytes == a.bytes || b.bytes == a.bytes + [byt])
    ensures Adds(a, b, {Atom(Value(Stream(byt)))})
  {
    hide Value, Stream;
  }

  lemma AddsCell(a: Arena, b: Arena, hed: nat, tal: nat)
    requires Sound(a) && Sound(b) && Grows(a, b) && b.bytes == a.bytes && Live(a, hed) && Live(a, tal)
    requires b == a || (b.heads == a.heads + [hed] && b.tails == a.tails + [tal])
    ensures Adds(a, b, {Cell(Denote(a, hed), Denote(a, tal))})
  {
    hide Value, Stream;
    DenoteStays(a, b, hed);
    DenoteStays(a, b, tal);
  }

  /** Some reference stands for the noun. */
  ghost predicate Knows(a: Arena, n: Noun)
    requires Sound(a)
  {
    exists r :: Live(a, r) && Denote(a, r) == n
  }

  /** Whoever knows a noun knows its parts. */
  lemma {:induction false} KnowsInside(a: Arena, p: Noun, n: Noun)
    requires Sound(a) && Knows(a, n) && p in Subnouns(n)
    ensures Knows(a, p)
  {
    if p != n {
      var r :| Live(a, r) && Denote(a, r) == n;
      var h, t := a.heads[Index(r)], a.tails[Index(r)];
      assert Live(a, h) && Denote(a, h) == n.head;
      assert Live(a, t) && Denote(a, t) == n.tail;
      if p in Subnouns(n.head) { KnowsInside(a, p, n.head); } else { KnowsInside(a, p, n.tail); }
    }
  }

  /** A stored atom that is known is stored as its bytes. */
  lemma KnowsAtom(a: Arena, byt: seq<nat>)
    requires Sound(a) && Trimmed(byt) && Knows(a, Atom(Value(Stream(byt)))) && Value(Stream(byt)) >= TAG
    ensures byt in a.bytes
  {
    hide Value, Stream;
    var r :| Live(a, r) && Denote(a, r) == Atom(Value(Stream(byt)));
    assert r == TAG * RefTag(r) + Index(r);
    BytesUnique(a.bytes[Index(r)], byt);
  }

  /** A cell that is known is stored as the references of its parts. */
  lemma KnowsCell(a: Arena, hed: nat, tal: nat)
    requires Sound(a) && Unique(a) && Canonical(a) && Live(a, hed) && Live(a, tal) && Knows(a, Cell(Denote(a, hed), Denote(a, tal)))
    ensures HasCell(a, hed, tal)
  {
    hide Value, Stream, Unique, Canonical;
    var r :| Live(a, r) && Denote(a, r) == Cell(Denote(a, hed), Denote(a, tal));
    var i := Index(r);
    RefsUnique(a, a.heads[i], hed);
    RefsUnique(a, a.tails[i], tal);
    assert CellIs(a, i, hed, tal);
  }

  predicate Grows(a: Arena, b: Arena) {
    a.bytes <= b.bytes && a.heads <= b.heads && a.tails <= b.tails && a.atomMugs <= b.atomMugs && a.cellMugs <= b.cellMugs
  }

  /** References stay valid and keep their nouns as the arena grows. */
  lemma {:induction false} DenoteStays(a: Arena, b: Arena, ref: nat)
    requires Sound(a) && Sound(b) && Grows(a, b) && Live(a, ref)
    ensures Live(b, ref) && Denote(b, ref) == Denote(a, ref)
    decreases if RefTag(ref) == 2 then Index(ref) + 1 else 0
  {
    hide Value, Stream;
    if RefTag(ref) == 2 {
      DenoteStays(a, b, a.heads[Index(ref)]);
      DenoteStays(a, b, a.tails[Index(ref)]);
    }
  }

  // ---- mugs ----

  /** The noun hash, left uninterpreted. */
  datatype Hash = Hash(bytes: seq<nat> -> nat, both: (nat, nat) -> nat)

  function BytesOf(n: nat): seq<nat> { if n == 0 then [] else [n % 0x100] + BytesOf(n / 0x100) }

  function MugBytes(h: Hash, b: seq<nat>): (m: nat)
    ensures m < MUGS
  {
    h.bytes(b) % MUGS
  }

  function MugBoth(h: Hash, x: nat, y: nat): (m: nat)
    ensures m < MUGS
  {
    h.both(x, y) % MUGS
  }

  /** Computed for an atom in the reference, otherwise looked up. */
  function Mug(h: Hash, a: Arena, ref: nat): nat
    requires Sound(a) && Live(a, ref)
  {
    if RefTag(ref) == 0 then MugBytes(h, BytesOf(ref))
    else if RefTag(ref) == 1 then a.atomMugs[Index(ref)]
    else a.cellMugs[Index(ref)]
  }

  predicate Hashed(h: Hash, a: Arena)
    requires Sound(a)
  {
    && (forall i | 0 <= i < |a.bytes| :: a.atomMugs[i] == MugBytes(h, a.bytes[i]))
    && (forall i | 0 <= i < |a.heads| :: CellHashed(h, a, i))
  }

  predicate CellHashed(h: Hash, a: Arena, i: nat)
    requires Sound(a) && i < |a.heads|
  {
    a.cellMugs[i] == MugBoth(h, Mug(h, a, a.heads[i]), Mug(h, a, a.tails[i]))
  }

  predicate From(base: nat, k: nat) { base <= k }

  /** What the two dictionaries must hold. */
  ghost function AtomMap(a: Arena): map<nat, Entry<()>>
    requires |a.atomMugs| == |a.bytes|
  {
    map k: nat | k < TAG + |a.bytes| && From(TAG, k) :: Entry(k, a.atomMugs[k - TAG], ())
  }

  ghost function CellMap(a: Arena): map<nat, Entry<()>>
    requires |a.cellMugs| == |a.heads|
  {
    map k: nat | k < 2 * TAG + |a.heads| && From(2 * TAG, k) :: Entry(k, a.cellMugs[k - 2 * TAG], ())
  }

  /** All indices are used, or a bucket's worth of stored atoms or of cells have one mug. */
  ghost predicate Spent(a: Arena)
    requires Sound(a)
  {
    || |a.bytes| == TAG || |a.heads| == TAG
    || (exists m :: Crowded(AtomMap(a), m)) || (exists m :: Crowded(CellMap(a), m))
  }

  lemma SpentAtoms(a: Arena, mug: nat)
    requires Sound(a) && (|a.bytes| == TAG || Crowded(AtomMap(a), mug))
    ensures Spent(a)
  {
  }

  lemma SpentCells(a: Arena, mug: nat)
    requires Sound(a) && (|a.heads| == TAG || Crowded(CellMap(a), mug))
    ensures Spent(a)
  {
  }

  function AddAtom(a: Arena, mug: nat, byt: seq<nat>): Arena {
    a.(bytes := a.bytes + [byt], atomMugs := a.atomMugs + [mug])
  }

  function AddCell(a: Arena, mug: nat, hed: nat, tal: nat): Arena {
    a.(heads := a.heads + [hed], tails := a.tails + [tal], cellMugs := a.cellMugs + [mug])
  }

  ghost predicate Healthy(h: Hash, a: Arena) {
    Sound(a) && Unique(a) && Hashed(h, a) && |a.bytes| <= TAG && |a.heads| <= TAG
  }

  lemma AtomAdded(h: Hash, a: Arena, byt: seq<nat>)
    requires Healthy(h, a) && Trimmed(byt) && byt !in a.bytes && |a.bytes| < TAG
    ensures var b := AddAtom(a, MugBytes(h, byt), byt); Healthy(h, b) && Grows(a, b)
  {
    hide Stream, Value, MugBytes, MugBoth;
    var b := AddAtom(a, MugBytes(h, byt), byt);
    assert Sound(b);
    forall i | 0 <= i < |b.heads| ensures CellHashed(h, b, i) { assert CellHashed(h, a, i); }
  }

  lemma CellAdded(h: Hash, a: Arena, hed: nat, tal: nat)
    requires Healthy(h, a) && Live(a, hed) && Live(a, tal) && |a.heads| < TAG
    requires forall i | 0 <= i < |a.heads| :: a.heads[i] != hed || a.tails[i] != tal
    ensures var b := AddCell(a, MugBoth(h, Mug(h, a, hed), Mug(h, a, tal)), hed, tal); Healthy(h, b) && Grows(a, b)
  {
    hide Stream, Value, MugBytes, MugBoth;
    var b := AddCell(a, MugBoth(h, Mug(h, a, hed), Mug(h, a, tal)), hed, tal);
    assert Sound(b);
    forall i | 0 <= i < |b.heads| ensures CellHashed(h, b, i) { if i < |a.heads| { assert CellHashed(h, a, i); } }
  }

  /** The mug of a noun. */
  ghost function NounMug(h: Hash, n: Noun): nat {
    match n
    case Atom(v) => MugBytes(h, BytesOf(v))
    case Cell(x, y) => MugBoth(h, NounMug(h, x), NounMug(h, y))
  }

  lemma {:induction false} BytesOfOk(v: nat)
    ensures Trimmed(BytesOf(v)) && Value(Stream(BytesOf(v))) == v
  {
    hide Stream, Value, Low;
    NoBits([]);
    if v > 0 {
      BytesOfOk(v / 0x100);
      FirstByteValue(BytesOf(v));
      assert BytesOf(v)[1..] == BytesOf(v / 0x100);
      if v < 0x100 { assert BytesOf(v / 0x100) == []; } else { BytesSome(v / 0x100); }
    }
  }

  lemma BytesSome(v: nat)
    ensures v > 0 ==> BytesOf(v) != []
  {
  }

  /** A reference has the mug of its noun. */
  lemma {:induction false} MugIs(h: Hash, a: Arena, ref: nat)
    requires Healthy(h, a) && Live(a, ref)
    ensures Mug(h, a, ref) == NounMug(h, Denote(a, ref))
    decreases if RefTag(ref) == 2 then Index(ref) + 1 else 0
  {
    hide Value, Stream, MugBytes, MugBoth, Unique;
    var i := Index(ref);
    if RefTag(ref) == 1 {
      BytesOfOk(Value(Stream(a.bytes[i])));
      BytesUnique(a.bytes[i], BytesOf(Value(Stream(a.bytes[i]))));
    } else if RefTag(ref) == 2 {
      assert CellHashed(h, a, i);
      MugIs(h, a, a.heads[i]);
      MugIs(h, a, a.tails[i]);
    }
  }

  /** Distinct nouns of `ns`, one more than a bucket holds, with one mug. */
  ghost predicate Colliding(h: Hash, ns: set<Noun>, l: seq<Noun>) {
    && |l| == PAIL_MAX + 1 && (forall i, j | 0 <= i < j < |l| :: l[i] != l[j])
    && (forall i | 0 <= i < |l| :: l[i] in ns && NounMug(h, l[i]) == NounMug(h, l[0]))
  }

  /** Eleven nouns of `ns` have one mug. */
  ghost predicate Collision(h: Hash, ns: set<Noun>) { exists l: seq<Noun> :: Colliding(h, ns, l) }

  lemma CollisionMore(h: Hash, ns: set<Noun>, more: set<Noun>)
    requires Collision(h, ns) && ns <= more
    ensures Collision(h, more)
  {
    hide NounMug;
    var l: seq<Noun> :| Colliding(h, ns, l);
    assert Colliding(h, more, l);
  }

  /** The entry is that of a reference, with its mug. */
  ghost predicate EntryOf<V>(h: Hash, a: Arena, m: map<nat, Entry<V>>, r: nat)
    requires Sound(a) && r in m
  {
    Live(a, r) && m[r].mug == Mug(h, a, r)
  }

  /** The noun has a reference with an entry. */
  ghost predicate Entered<V>(a: Arena, m: map<nat, Entry<V>>, n: Noun)
    requires Sound(a)
  {
    exists r :: r in m && Live(a, r) && Denote(a, r) == n
  }

  /** An entry whose bucket cannot but overflow makes eleven nouns with one mug. */
  lemma CrowdedNouns<V(!new)>(h: Hash, a: Arena, m: map<nat, Entry<V>>, ns: set<Noun>, n: Noun)
    requires Healthy(h, a) && n in ns && Crowded(m, NounMug(h, n)) && !Entered(a, m, n)
    requires forall r | r in m :: EntryOf(h, a, m, r) && Denote(a, r) in ns
    requires forall x, y | x in m && y in m && Live(a, x) && Live(a, y) && Denote(a, x) == Denote(a, y) :: x == y
    ensures Collision(h, ns)
  {
    hide Live, Denote, Mug, NounMug, Healthy;
    HealthySound(h, a);
    var p: Pail<V> :| Crowd(m, NounMug(h, n), p);
    forall i | 0 <= i < |p| ensures p[i].ref in m && NounMug(h, Denote(a, p[i].ref)) == NounMug(h, n) && Denote(a, p[i].ref) != n {
      assert Stored(m, p[i]) && EntryOf(h, a, m, p[i].ref);
      MugIs(h, a, p[i].ref);
    }
    var l: seq<Noun> := seq(PAIL_MAX, i requires 0 <= i < PAIL_MAX => Denote(a, p[i].ref)) + [n];
    assert Colliding(h, ns, l);
  }

  ghost function RefOf<V>(a: Arena, m: map<nat, Entry<V>>, n: Noun): (r: nat)
    requires Sound(a) && Entered(a, m, n)
    ensures r in m && Live(a, r) && Denote(a, r) == n
  {
    var r :| r in m && Live(a, r) && Denote(a, r) == n;
    r
  }

  /** When all of `ns` are in a dictionary, no eleven of them have one mug. */
  lemma EnteredNouns<V>(h: Hash, a: Arena, t: Table<V>, m: map<nat, Entry<V>>, ns: set<Noun>)
    requires Healthy(h, a) && Represents(t, m) && (forall r | r in m :: EntryOf(h, a, m, r)) && forall n | n in ns :: Entered(a, m, n)
    ensures !Collision(h, ns)
  {
    hide Live, Denote, Mug, NounMug, Healthy, Represents;
    HealthySound(h, a);
    if l: seq<Noun> :| Colliding(h, ns, l) {
      var rs: seq<nat> := seq(|l|, i requires 0 <= i < |l| => RefOf(a, m, l[i]));
      forall i | 0 <= i < |rs| ensures rs[i] in m && Denote(a, rs[i]) == l[i] && m[rs[i]].mug == NounMug(h, l[0]) {
        assert EntryOf(h, a, m, rs[i]);
        MugIs(h, a, rs[i]);
      }
      Bounded(t, m, rs, NounMug(h, l[0]));
    }
  }

  // ---- the arena ----

  class Root {
    const h: Hash
    var a: Arena
    var atoms: Table<()>
    var cells: Table<()>

    ghost predicate Valid()
      reads this
    {
      Healthy(h, a) && Represents(atoms, AtomMap(a)) && Represents(cells, CellMap(a))
    }

    constructor (h: Hash, prev: nat, size: nat)
      requires prev > 0 && size > 0
      ensures Valid() && a == Arena([], [], [], [], []) && this.h == h
    {
      this.h := h;
      a := Arena([], [], [], [], []);
      atoms := EmptyTable(prev, size);
      cells := EmptyTable(prev, size);
      new;
      EmptyTableOk<()>(prev, size);
      assert AtomMap(a) == map[] && CellMap(a) == map[];
    }

    /** Find or store a trimmed byte string. It fails when the bucket's worth of other atoms has
        the same mug, or all indices are used. */
    method CoinBytesUnsafe(byt: seq<nat>) returns (ok: bool, tom: nat)
      requires Valid() && Trimmed(byt)
      modifies this`a, this`atoms
      ensures Valid() && Grows(old(a), a) && a.heads == old(a.heads)
      ensures ok ==> RefTag(tom) == 1 && Live(a, tom) && a.bytes[Index(tom)] == byt
      ensures ok ==> a.bytes == old(a.bytes) || a.bytes == old(a.bytes) + [byt]
      ensures byt in old(a.bytes) ==> ok && a == old(a)
      ensures !ok ==> a == old(a) && (|a.bytes| == TAG || Crowded(AtomMap(a), MugBytes(h, byt)))
    {
      hide Represents, Healthy, MugBytes, Trimmed;
      var mug := MugBytes(h, byt);
      while true
        invariant Valid() && a == old(a)
        decreases MUGS - atoms.size
      {
        HealthySound(h, a);
        SizeOk(atoms, AtomMap(a));
        var idx := Idx(mug, atoms.size);
        var p := atoms.pails[idx];
        AtomPail(a, atoms, idx);
        var i := 0;
        while i < |p|
          invariant i <= |p| && forall j | 0 <= j < i :: a.bytes[Index(p[j].ref)] != byt
          invariant forall j | 0 <= j < |p| :: TAG <= p[j].ref < TAG + |a.bytes|
        {
          if a.bytes[Index(p[i].ref)] == byt { return true, p[i].ref; }
          i := i + 1;
        }
        AtomAbsent(h, a, atoms, byt);
        if |p| == PAIL_MAX {
          if atoms.size >= MUGS {
            FullIsCrowded(atoms, AtomMap(a), mug);
            return false, 0;
          }
          atoms := Grow(atoms, AtomMap(a));
        } else {
          if |a.bytes| == TAG { return false, 0; }
          AtomAdded(h, a, byt);
          tom := TAG + |a.bytes|;
          PailOk(atoms, AtomMap(a), idx);
          AtomStored(h, a, atoms, byt);
          a := AddAtom(a, mug, byt);
          atoms := atoms.(pails := atoms.pails[idx := p + [Entry(tom, mug, ())]]);
          return true, tom;
        }
      }
    }

    /** Find or store a cell. */
    method Cons(hed: nat, tal: nat) returns (ok: bool, cel: nat)
      requires Valid() && Live(a, hed) && Live(a, tal)
      modifies this`a, this`cells
      ensures Valid() && Grows(old(a), a) && a.bytes == old(a.bytes)
      ensures ok ==> Live(a, cel) && Denote(a, cel) == Cell(Denote(old(a), hed), Denote(old(a), tal))
      ensures HasCell(old(a), hed, tal) ==> ok && a == old(a)
      ensures ok && !HasCell(old(a), hed, tal) ==> a.heads == old(a.heads) + [hed] && a.tails == old(a.tails) + [tal]
      ensures !ok ==> a == old(a) && (|a.heads| == TAG || Crowded(CellMap(a), MugBoth(h, Mug(h, a, hed), Mug(h, a, tal))))
    {
      hide Represents, Healthy, MugBoth, HasCell, Idx, CellMap, Sound, Unique, Denote, Mug;
      HealthySound(h, a);
      var mug := MugBoth(h, Mug(h, a, hed), Mug(h, a, tal));
      while true
        invariant Valid() && a == old(a)
        decreases MUGS - cells.size
      {
        SizeOk(cells, CellMap(a));
        var idx := Idx(mug, cells.size);
        var p := cells.pails[idx];
        CellPail(a, cells, idx);
        var i := 0;
        while i < |p|
          invariant i <= |p| && forall j | 0 <= j < i :: a.heads[Index(p[j].ref)] != hed || a.tails[Index(p[j].ref)] != tal
          invariant forall j | 0 <= j < |p| :: 2 * TAG <= p[j].ref < 2 * TAG + |a.heads|
        {
          if a.heads[Index(p[i].ref)] == hed && a.tails[Index(p[i].ref)] == tal {
            CellHere(a, Index(p[i].ref), hed, tal);
            return true, p[i].ref;
          }
          i := i + 1;
        }
        CellAbsent(h, a, cells, hed, tal);
        if |p| == PAIL_MAX {
          if cells.size >= MUGS {
            FullIsCrowded(cells, CellMap(a), mug);
            return false, 0;
          }
          cells := Grow(cells, CellMap(a));
        } else {
          if |a.heads| == TAG { return false, 0; }
          CellAdded(h, a, hed, tal);
          cel := 2 * TAG + |a.heads|;
          PailOk(cells, CellMap(a), idx);
          CellStored(h, a, cells, hed, tal);
          ghost var was := a;
          a := AddCell(a, mug, hed, tal);
          cells := cells.(pails := cells.pails[idx := p + [Entry(cel, mug, ())]]);
          HealthySound(h, a);
          CellNew(was, a, mug, hed, tal);
          return true, cel;
        }
      }
    }
  }

  lemma HealthySound(h: Hash, a: Arena)
    requires Healthy(h, a)
    ensures Sound(a) && Unique(a) && |a.bytes| <= TAG && |a.heads| <= TAG
  {
  }

  /** A bucket's references are stored atoms, each in the bucket of its mug. */
  lemma AtomPail(a: Arena, t: Table<()>, i: nat)
    requires |a.atomMugs| == |a.bytes| && Represents(t, AtomMap(a)) && i < t.size
    ensures i < |t.pails| && forall j | 0 <= j < |t.pails[i]| :: TAG <= t.pails[i][j].ref < TAG + |a.bytes|
  {
    forall j | 0 <= j < |t.pails[i]| ensures TAG <= t.pails[i][j].ref < TAG + |a.bytes| {
      assert Placed(t, AtomMap(a), i, t.pails[i][j]);
    }
  }

  lemma CellPail(a: Arena, t: Table<()>, i: nat)
    requires |a.cellMugs| == |a.heads| && Represents(t, CellMap(a)) && i < t.size
    ensures i < |t.pails| && forall j | 0 <= j < |t.pails[i]| :: 2 * TAG <= t.pails[i][j].ref < 2 * TAG + |a.heads|
  {
    forall j | 0 <= j < |t.pails[i]| ensures 2 * TAG <= t.pails[i][j].ref < 2 * TAG + |a.heads| {
      assert Placed(t, CellMap(a), i, t.pails[i][j]);
    }
  }

  lemma AtomPresent(h: Hash, a: Arena, t: Table<()>, k: nat) returns (j: nat)
    requires Healthy(h, a) && Represents(t, AtomMap(a)) && k < |a.bytes|
    ensures var p := t.pails[Idx(MugBytes(h, a.bytes[k]), t.size)]; j < |p| && Index(p[j].ref) == k
  {
    hide MugBytes, Idx;
    var m := AtomMap(a);
    assert TAG + k in m;
    assert m[TAG + k].mug == a.atomMugs[k] == MugBytes(h, a.bytes[k]);
    var p := t.pails[Idx(m[TAG + k].mug, t.size)];
    j :| 0 <= j < |p| && p[j] == m[TAG + k];
  }

  lemma CellPresent(h: Hash, a: Arena, t: Table<()>, k: nat) returns (j: nat)
    requires Healthy(h, a) && Represents(t, CellMap(a)) && k < |a.heads|
    ensures
      var p := t.pails[Idx(MugBoth(h, Mug(h, a, a.heads[k]), Mug(h, a, a.tails[k])), t.size)];
      j < |p| && Index(p[j].ref) == k
  {
    hide MugBytes, MugBoth, Idx;
    var m := CellMap(a);
    assert 2 * TAG + k in m;
    assert CellHashed(h, a, k);
    var p := t.pails[Idx(m[2 * TAG + k].mug, t.size)];
    j :| 0 <= j < |p| && p[j] == m[2 * TAG + k];
  }

  lemma AtomAbsent(h: Hash, a: Arena, t: Table<()>, byt: seq<nat>)
    requires Healthy(h, a) && Represents(t, AtomMap(a))
    requires
      var p := t.pails[Idx(MugBytes(h, byt), t.size)];
      forall j | 0 <= j < |p| :: TAG <= p[j].ref < TAG + |a.bytes| && a.bytes[Index(p[j].ref)] != byt
    ensures byt !in a.bytes
  {
    hide MugBytes, Idx, Represents, Healthy;
    if byt in a.bytes {
      var k :| 0 <= k < |a.bytes| && a.bytes[k] == byt;
      var j := AtomPresent(h, a, t, k);
    }
  }

  lemma CellAbsent(h: Hash, a: Arena, t: Table<()>, hed: nat, tal: nat)
    requires Healthy(h, a) && Represents(t, CellMap(a)) && Live(a, hed) && Live(a, tal)
    requires
      var p := t.pails[Idx(MugBoth(h, Mug(h, a, hed), Mug(h, a, tal)), t.size)];
      forall j | 0 <= j < |p| :: 2 * TAG <= p[j].ref < 2 * TAG + |a.heads| &&
                                 (a.heads[Index(p[j].ref)] != hed || a.tails[Index(p[j].ref)] != tal)
    ensures forall i | 0 <= i < |a.heads| :: a.heads[i] != hed || a.tails[i] != tal
    ensures !HasCell(a, hed, tal)
  {
    hide MugBoth, MugBytes, Idx, Represents;
    forall k | 0 <= k < |a.heads| ensures a.heads[k] != hed || a.tails[k] != tal {
      if a.heads[k] == hed && a.tails[k] == tal { var j := CellPresent(h, a, t, k); }
    }
  }

  lemma AtomStored(h: Hash, a: Arena, t: Table<()>, byt: seq<nat>)
    requires Healthy(h, a) && Represents(t, AtomMap(a)) && |t.pails[Idx(MugBytes(h, byt), t.size)]| < PAIL_MAX
    ensures
      var i := Idx(MugBytes(h, byt), t.size);
      var e := Entry(TAG + |a.bytes|, MugBytes(h, byt), ());
      Represents(t.(pails := t.pails[i := t.pails[i] + [e]]), AtomMap(AddAtom(a, MugBytes(h, byt), byt)))
  {
    hide Represents, Idx;
    var e := Entry(TAG + |a.bytes|, MugBytes(h, byt), ());
    PutNew(t, AtomMap(a), e);
    assert AtomMap(AddAtom(a, MugBytes(h, byt), byt)) == AtomMap(a)[e.ref := e];
  }

  lemma CellStored(h: Hash, a: Arena, t: Table<()>, hed: nat, tal: nat)
    requires Healthy(h, a) && Represents(t, CellMap(a)) && Live(a, hed) && Live(a, tal)
    requires |t.pails[Idx(MugBoth(h, Mug(h, a, hed), Mug(h, a, tal)), t.size)]| < PAIL_MAX
    ensures
      var mug := MugBoth(h, Mug(h, a, hed), Mug(h, a, tal));
      var i := Idx(mug, t.size);
      var e := Entry(2 * TAG + |a.heads|, mug, ());
      Represents(t.(pails := t.pails[i := t.pails[i] + [e]]), CellMap(AddCell(a, mug, hed, tal)))
  {
    hide Represents, Idx, MugBoth;
    var mug := MugBoth(h, Mug(h, a, hed), Mug(h, a, tal));
    var e := Entry(2 * TAG + |a.heads|, mug, ());
    PutNew(t, CellMap(a), e);
    assert CellMap(AddCell(a, mug, hed, tal)) == CellMap(a)[e.ref := e];
  }
}
