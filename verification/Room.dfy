/** Whether an arena has room for a set of nouns: indices are 62 bits, and a bucket holds ten
    entries (pkg/urbit/ur/hashcons.c:203-235, 617-754). */
module Room {
  import opened Nouns
  import opened Bits
  import opened Dicts
  import opened HashCons

  /** The atoms that do not fit into a reference. */
  ghost function Large(ns: set<Noun>): set<Noun> { set n | n in ns && n.Atom? && n.value >= TAG }

  ghost function Cells(ns: set<Noun>): set<Noun> { set n | n in ns && n.Cell? }

  /** More atoms or cells than indices, or eleven of either with one mug. */
  ghost predicate Overfull(h: Hash, ns: set<Noun>) {
    |Large(ns)| > TAG || |Cells(ns)| > TAG || Collision(h, Large(ns)) || Collision(h, Cells(ns))
  }

  /** The noun is not stored, and there is no index left for it or no room in its bucket. */
  ghost predicate Refused(h: Hash, a: Arena, n: Noun)
    requires Sound(a)
  {
    !Knows(a, n) &&
    match n
    case Atom(v) => v >= TAG && (|a.bytes| == TAG || Crowded(AtomMap(a), NounMug(h, n)))
    case Cell(_, _) => |a.heads| == TAG || Crowded(CellMap(a), NounMug(h, n))
  }

  ghost predicate Stopped(h: Hash, a: Arena, ns: set<Noun>) { Sound(a) && exists n :: n in ns && Refused(h, a, n) }

  lemma StoppedAt(h: Hash, a: Arena, ns: set<Noun>, n: Noun)
    requires Sound(a) && n in ns && Refused(h, a, n)
    ensures Stopped(h, a, ns)
  {
  }

  lemma StoppedMore(h: Hash, a: Arena, ns: set<Noun>, more: set<Noun>)
    requires Stopped(h, a, ns) && ns <= more
    ensures Stopped(h, a, more)
  {
    hide Refused;
  }

  lemma RefusedAtom(h: Hash, a: Arena, byt: seq<nat>)
    requires Healthy(h, a) && Trimmed(byt) && Value(Stream(byt)) >= TAG && byt !in a.bytes
    requires |a.bytes| == TAG || Crowded(AtomMap(a), MugBytes(h, byt))
    ensures Sound(a) && Refused(h, a, Atom(Value(Stream(byt))))
  {
    hide Value, Stream, MugBytes, BytesOf, Crowded, Knows;
    HealthySound(h, a);
    var v := Value(Stream(byt));
    if Knows(a, Atom(v)) { KnowsAtom(a, byt); }
    BytesOfOk(v);
    BytesUnique(byt, BytesOf(v));
  }

  lemma RefusedCell(h: Hash, a: Arena, hed: nat, tal: nat)
    requires Healthy(h, a) && Canonical(a) && Live(a, hed) && Live(a, tal) && !HasCell(a, hed, tal)
    requires |a.heads| == TAG || Crowded(CellMap(a), MugBoth(h, Mug(h, a, hed), Mug(h, a, tal)))
    ensures Refused(h, a, Cell(Denote(a, hed), Denote(a, tal)))
  {
    hide Canonical, Mug, MugBoth, Crowded, Knows, HasCell, Unique, Hashed;
    if Knows(a, Cell(Denote(a, hed), Denote(a, tal))) { KnowsCell(a, hed, tal); }
    MugIs(h, a, hed);
    MugIs(h, a, tal);
  }

  // ---- counting ----

  lemma {:induction false} Distinct(l: seq<Noun>, s: set<Noun>)
    requires (forall i, j | 0 <= i < j < |l| :: l[i] != l[j]) && forall i | 0 <= i < |l| :: l[i] in s
    ensures |l| <= |s|
  {
    if l != [] { Distinct(l[1..], s - {l[0]}); }
  }

  lemma {:induction false} Listing(l: seq<Noun>, s: set<Noun>)
    requires forall n | n in s :: n in l
    ensures |s| <= |l|
  {
    if l != [] {
      Listing(l[1..], s - {l[0]});
      assert |s| <= |s - {l[0]}| + 1 by { if l[0] !in s { assert s - {l[0]} == s; } }
    }
  }

  ghost function AtomsIn(a: Arena): (l: seq<Noun>)
    ensures |l| == |a.bytes| && forall i | 0 <= i < |l| :: l[i] == Atom(Value(Stream(a.bytes[i])))
  {
    seq(|a.bytes|, i requires 0 <= i < |a.bytes| => Atom(Value(Stream(a.bytes[i]))))
  }

  ghost function CellsIn(a: Arena): (l: seq<Noun>)
    requires Sound(a)
    ensures |l| == |a.heads| && forall i | 0 <= i < |l| :: l[i] == Cell(Denote(a, a.heads[i]), Denote(a, a.tails[i]))
  {
    seq(|a.heads|, i requires 0 <= i < |a.heads| => Cell(Denote(a, a.heads[i]), Denote(a, a.tails[i])))
  }

  /** A stored atom, by its reference. */
  lemma AtomAt(h: Hash, a: Arena, r: nat)
    requires Healthy(h, a) && r in AtomMap(a)
    ensures RefTag(r) == 1 && Index(r) == r - TAG < |a.bytes| && EntryOf(h, a, AtomMap(a), r) && Denote(a, r) == AtomsIn(a)[r - TAG]
  {
    hide Value, Stream, Unique, Hashed;
  }

  lemma CellAt(h: Hash, a: Arena, r: nat)
    requires Healthy(h, a) && r in CellMap(a)
    ensures RefTag(r) == 2 && Index(r) == r - 2 * TAG < |a.heads| && EntryOf(h, a, CellMap(a), r) && Denote(a, r) == CellsIn(a)[r - 2 * TAG]
  {
    hide Value, Stream, Unique, Hashed;
  }

  lemma AtomsApart(h: Hash, a: Arena)
    requires Healthy(h, a)
    ensures forall i, j | 0 <= i < j < |a.bytes| :: AtomsIn(a)[i] != AtomsIn(a)[j]
  {
    hide Value, Stream, Hashed;
    forall i, j | 0 <= i < j < |a.bytes| ensures AtomsIn(a)[i] != AtomsIn(a)[j] {
      if AtomsIn(a)[i] == AtomsIn(a)[j] { BytesUnique(a.bytes[i], a.bytes[j]); }
    }
  }

  lemma CellsApart(h: Hash, a: Arena)
    requires Healthy(h, a) && Canonical(a)
    ensures forall i, j | 0 <= i < j < |a.heads| :: CellsIn(a)[i] != CellsIn(a)[j]
  {
    hide Hashed, Canonical, Denote;
    forall i, j | 0 <= i < j < |a.heads| ensures CellsIn(a)[i] != CellsIn(a)[j] {
      if CellsIn(a)[i] == CellsIn(a)[j] {
        RefsUnique(a, a.heads[i], a.heads[j]);
        RefsUnique(a, a.tails[i], a.tails[j]);
      }
    }
  }

  /** What is known is stored, or fits into a reference. */
  lemma KnownStored(h: Hash, a: Arena, n: Noun)
    requires Healthy(h, a) && Canonical(a) && Knows(a, n)
    ensures n.Atom? && n.value >= TAG ==> n in AtomsIn(a) && Entered(a, AtomMap(a), n)
    ensures n.Cell? ==> n in CellsIn(a) && Entered(a, CellMap(a), n)
  {
    hide Value, Stream, Unique, Hashed, Canonical;
    var r :| Live(a, r) && Denote(a, r) == n;
    assert r == TAG * RefTag(r) + Index(r);
    if RefTag(r) == 1 {
      assert AtomsIn(a)[Index(r)] == n && r in AtomMap(a);
    } else if RefTag(r) == 2 {
      assert CellsIn(a)[Index(r)] == n && r in CellMap(a);
    }
  }

  /** Whoever is in a dictionary is known. */
  lemma EnteredKnown<V>(a: Arena, m: map<nat, Entry<V>>, n: Noun)
    requires Sound(a) && Entered(a, m, n)
    ensures Knows(a, n)
  {
  }

  // ---- the exact condition ----

  /** An arena that stores nothing but `ns` refuses one of them only if `ns` is too much for any arena. */
  lemma RefusedOver(h: Hash, a0: Arena, a: Arena, ns: set<Noun>, n: Noun)
    requires Healthy(h, a) && Canonical(a) && a0.bytes == [] && a0.heads == [] && Adds(a0, a, ns) && n in ns && Refused(h, a, n)
    ensures Overfull(h, ns)
  {
    hide Value, Stream, Unique, Hashed, Denote, Knows, Crowded, Collision, Live, Sound;
    HealthySound(h, a);
    if n.Atom? {
      AtomsApart(h, a);
      forall r | r in AtomMap(a) ensures EntryOf(h, a, AtomMap(a), r) && Denote(a, r) in Large(ns) { AtomAt(h, a, r); }
      if Entered(a, AtomMap(a), n) { EnteredKnown(a, AtomMap(a), n); }
      if |a.bytes| == TAG {
        Unlisted(a, n);
        Distinct(AtomsIn(a) + [n], Large(ns));
      } else {
        OneEach(h, a);
        CrowdedNouns(h, a, AtomMap(a), Large(ns), n);
      }
    } else {
      CellsApart(h, a);
      forall r | r in CellMap(a) ensures EntryOf(h, a, CellMap(a), r) && Denote(a, r) in Cells(ns) { CellAt(h, a, r); }
      if Entered(a, CellMap(a), n) { EnteredKnown(a, CellMap(a), n); }
      if |a.heads| == TAG {
        Unlisted(a, n);
        Distinct(CellsIn(a) + [n], Cells(ns));
      } else {
        OneEach(h, a);
        CrowdedNouns(h, a, CellMap(a), Cells(ns), n);
      }
    }
  }

  lemma StoppedOver(h: Hash, a0: Arena, a: Arena, ns: set<Noun>)
    requires Healthy(h, a) && Canonical(a) && a0.bytes == [] && a0.heads == [] && Adds(a0, a, ns) && Stopped(h, a, ns)
    ensures Overfull(h, ns)
  {
    hide Healthy, Canonical, Adds, Refused, Overfull;
    var n :| n in ns && Refused(h, a, n);
    RefusedOver(h, a0, a, ns, n);
  }

  lemma OneEach(h: Hash, a: Arena)
    requires Healthy(h, a) && Canonical(a)
    ensures forall x, y | Live(a, x) && Live(a, y) && Denote(a, x) == Denote(a, y) :: x == y
  {
    hide Canonical, Unique, Hashed, Sound, Live, Denote;
    HealthySound(h, a);
    forall x, y | Live(a, x) && Live(a, y) && Denote(a, x) == Denote(a, y) ensures x == y { RefsUnique(a, x, y); }
  }

  lemma Unlisted(a: Arena, n: Noun)
    requires Sound(a) && !Knows(a, n) && |a.bytes| <= TAG && |a.heads| <= TAG
    ensures n !in AtomsIn(a) && n !in CellsIn(a)
  {
    hide Value, Stream;
    forall i | 0 <= i < |a.bytes| ensures AtomsIn(a)[i] != n { assert Live(a, TAG + i) && Denote(a, TAG + i) == AtomsIn(a)[i]; }
    forall i | 0 <= i < |a.heads| ensures CellsIn(a)[i] != n { assert Live(a, 2 * TAG + i) && Denote(a, 2 * TAG + i) == CellsIn(a)[i]; }
  }

  /** What an arena holds is not too much. */
  lemma HeldNotOver(h: Hash, a: Arena, atoms: Table<()>, cells: Table<()>, ns: set<Noun>)
    requires Healthy(h, a) && Canonical(a) && Represents(atoms, AtomMap(a)) && Represents(cells, CellMap(a))
    requires forall n | n in ns :: Knows(a, n)
    ensures !Overfull(h, ns)
  {
    hide Value, Stream, Unique, Hashed, Denote, Knows, Collision, Live, Sound, Represents, Canonical, EntryOf, Entered;
    HealthySound(h, a);
    forall n | n in ns && n.Atom? && n.value >= TAG ensures n in AtomsIn(a) && Entered(a, AtomMap(a), n) { KnownStored(h, a, n); }
    forall n | n in ns && n.Cell? ensures n in CellsIn(a) && Entered(a, CellMap(a), n) { KnownStored(h, a, n); }
    Listing(AtomsIn(a), Large(ns));
    Listing(CellsIn(a), Cells(ns));
    forall r | r in AtomMap(a) ensures EntryOf(h, a, AtomMap(a), r) { AtomAt(h, a, r); }
    forall r | r in CellMap(a) ensures EntryOf(h, a, CellMap(a), r) { CellAt(h, a, r); }
    EnteredNouns(h, a, atoms, AtomMap(a), Large(ns));
    EnteredNouns(h, a, cells, CellMap(a), Cells(ns));
  }

  // ---- an arena that already holds something ----

  const NoArena: Arena := Arena([], [], [], [], [])

  /** The nouns stored. */
  ghost function Held(a: Arena): set<Noun>
    requires Sound(a)
  {
    (set n | n in AtomsIn(a)) + (set n | n in CellsIn(a))
  }

  /** What the arena holds is too much for any, once all that is in `n` is added. */
  ghost predicate NoRoom(h: Hash, a: Arena, n: Noun) { Sound(a) && Overfull(h, Held(a) + Subnouns(n)) }

  /** What is stored was so, or was added. */
  lemma AddsFrom(a0: Arena, a: Arena, ns: set<Noun>)
    requires Sound(a0) && Adds(a0, a, ns)
    ensures Adds(NoArena, a, Held(a0) + ns)
  {
    hide Value, Stream;
    forall i | 0 <= i < |a.bytes| ensures Atom(Value(Stream(a.bytes[i]))) in Held(a0) + ns {
      if i < |a0.bytes| { assert AtomsIn(a0)[i] in Held(a0); }
    }
    forall i | 0 <= i < |a.heads| ensures Cell(Denote(a, a.heads[i]), Denote(a, a.tails[i])) in Held(a0) + ns {
      if i < |a0.heads| {
        DenoteStays(a0, a, a0.heads[i]);
        DenoteStays(a0, a, a0.tails[i]);
        assert CellsIn(a0)[i] in Held(a0);
      }
    }
  }

  lemma HeldKnown(h: Hash, a0: Arena, a: Arena, n: Noun)
    requires Healthy(h, a0) && Sound(a) && Grows(a0, a) && n in Held(a0)
    ensures Knows(a, n)
  {
    hide Hashed, Unique, AtomsIn, CellsIn, Denote;
    if !Knows(a0, n) { Unlisted(a0, n); }
    var r :| Live(a0, r) && Denote(a0, r) == n;
    DenoteStays(a0, a, r);
  }

  /** An arena that has come to know `n` had room for it. */
  lemma HadRoom(h: Hash, a0: Arena, a: Arena, atoms: Table<()>, cells: Table<()>, n: Noun)
    requires Healthy(h, a0) && Healthy(h, a) && Canonical(a) && Grows(a0, a) && Knows(a, n)
    requires Represents(atoms, AtomMap(a)) && Represents(cells, CellMap(a))
    ensures !NoRoom(h, a0, n)
  {
    hide Healthy, Canonical, Grows, Knows, Represents, Sound, Overfull, Held, Subnouns, AtomMap, CellMap;
    HealthySound(h, a0);
    HealthySound(h, a);
    forall p | p in Held(a0) + Subnouns(n) ensures Knows(a, p) {
      if p in Held(a0) { HeldKnown(h, a0, a, p); } else { KnowsInside(a, p, n); }
    }
    HeldNotOver(h, a, atoms, cells, Held(a0) + Subnouns(n));
  }

  /** An arena that was stopped on the way had no room. */
  lemma HadNoRoom(h: Hash, a0: Arena, a: Arena, n: Noun)
    requires Healthy(h, a0) && Healthy(h, a) && Canonical(a) && Sound(a0) && Adds(a0, a, Subnouns(n)) && Stopped(h, a, Subnouns(n))
    ensures NoRoom(h, a0, n)
  {
    hide Healthy, Canonical, Sound, Overfull, Held, Subnouns, Adds, Stopped;
    AddsFrom(a0, a, Subnouns(n));
    StoppedMore(h, a, Subnouns(n), Held(a0) + Subnouns(n));
    StoppedOver(h, NoArena, a, Held(a0) + Subnouns(n));
  }
}
