/** Deduplicating every noun of the loom by way of the hash-consing arena
    (pkg/urbit/noun/urth.c:10-354, `u3u_meld`). */
module Meld {
  import opened Nouns
  import opened Bits
  import opened Dicts
  import opened HashCons
  import opened Serial
  import opened Coins
  import opened Room

  /** Direct atoms on the loom have 31 bits. */
  const CATS: nat := 0x8000_0000

  const WORDS: nat := 0x1_0000_0000

  datatype Lom = Cat(val: nat) | Dog(i: nat)

  datatype Kind = Words(ws: seq<nat>) | Pair(hed: Lom, tel: Lom)

  /** An object of the loom; `gone` is the reference that has taken the place of its box's header. */
  datatype Thing = Thing(gone: Option<nat>, kind: Kind)

  // ---- the loom ----

  function Number(ws: seq<nat>): nat { if ws == [] then 0 else ws[0] + WORDS * Number(ws[1..]) }

  predicate AreWords(ws: seq<nat>) { forall i | 0 <= i < |ws| :: ws[i] < WORDS }

  /** An indirect atom has no zero word on top, and does not fit a direct one. */
  predicate Normal(ws: seq<nat>) { AreWords(ws) && ws != [] && ws[|ws| - 1] != 0 && (|ws| == 1 ==> ws[0] >= CATS) }

  predicate On(loom: seq<Thing>, x: Lom) { if x.Cat? then x.val < CATS else x.i < |loom| }

  function N(lden: seq<Noun>, x: Lom): Noun {
    match x
    case Cat(v) => Atom(v)
    case Dog(i) => if i < |lden| then lden[i] else Atom(0)
  }

  predicate ThingIs(loom: seq<Thing>, lden: seq<Noun>, i: nat)
    requires i < |loom| == |lden|
  {
    match loom[i].kind
    case Words(ws) => Normal(ws) && lden[i] == Atom(Number(ws))
    case Pair(h, t) => On(loom, h) && On(loom, t) && lden[i] == Cell(N(lden, h), N(lden, t))
  }

  predicate Loomed(loom: seq<Thing>,
          lden: seq<Noun>) { |loom| == |lden| && forall i | 0 <= i < |loom| :: ThingIs(loom, lden, i) }

  /** The reference stands for the noun. */
  predicate Stands(a: Arena, ref: nat, n: Noun) { Sound(a) && Live(a, ref) && Denote(a, ref) == n }

  predicate GoneIs(a: Arena, loom: seq<Thing>, lden: seq<Noun>, i: nat)
    requires i < |loom| == |lden|
  {
    loom[i].gone.Some? ==> Stands(a, loom[i].gone.value, lden[i])
  }

  ghost predicate Melting(a: Arena, loom: seq<Thing>, lden: seq<Noun>) {
    Loomed(loom, lden) && forall i | 0 <= i < |loom| :: GoneIs(a, loom, lden, i)
  }

  lemma StandsStays(a: Arena, b: Arena, ref: nat, n: Noun)
    requires Stands(a, ref, n) && Sound(b) && Grows(a, b)
    ensures Stands(b, ref, n)
  {
    DenoteStays(a, b, ref);
  }

  lemma MeltingStays(a: Arena, b: Arena, loom: seq<Thing>, lden: seq<Noun>)
    requires Melting(a, loom, lden) && Sound(b) && Grows(a, b)
    ensures Melting(b, loom, lden)
  {
    hide Stands, Sound, Grows, Loomed;
    LoomSize(loom, lden);
    forall i | 0 <= i < |loom| ensures GoneIs(b, loom, lden, i) {
      assert GoneIs(a, loom, lden, i);
      if loom[i].gone.Some? { StandsStays(a, b, loom[i].gone.value, lden[i]); }
    }
  }

  lemma LoomSize(loom: seq<Thing>, lden: seq<Noun>)
    requires Loomed(loom, lden)
    ensures |loom| == |lden|
  {
  }

  /** A reference takes the place of an object's header. */
  lemma Stashed(a: Arena, loom: seq<Thing>, lden: seq<Noun>, i: nat, ref: nat)
    requires Melting(a, loom, lden) && i < |loom| && Stands(a, ref, lden[i])
    ensures Melting(a, loom[i := loom[i].(gone := Some(ref))], lden)
  {
    hide Stands, Normal;
    var loom' := loom[i := loom[i].(gone := Some(ref))];
    forall j | 0 <= j < |loom'| ensures ThingIs(loom', lden, j) && GoneIs(a, loom', lden, j) { assert ThingIs(loom, lden, j) && GoneIs(a, loom, lden, j); }
  }

  // ---- atoms ----

  /** The bytes of words, least significant first. */
  function WordBytes(ws: seq<nat>): (b: seq<nat>)
    ensures |b| == 4 * |ws|
  {
    if ws == [] then [] else LowBytes(ws[0], 4) + WordBytes(ws[1..])
  }

  lemma {:induction false} WordBytesValue(ws: seq<nat>)
    requires AreWords(ws)
    ensures AreBytes(WordBytes(ws)) && Value(Stream(WordBytes(ws))) == Number(ws)
  {
    hide Value, Stream, Pow2, LowBytes;
    if ws == [] {
      NoBits(WordBytes(ws));
    } else {
      WordBytesValue(ws[1..]);
      FourBytes();
      LowBytesValue(ws[0], 4);
      StreamJoin(LowBytes(ws[0], 4), WordBytes(ws[1..]));
      ValueJoin(Stream(LowBytes(ws[0], 4)), Stream(WordBytes(ws[1..])));
    }
  }

  lemma FourBytes()
    ensures Pow256(4) == WORDS == Pow2(32)
  {
    PowEight();
    PowPlus(8, 8);
    PowPlus(16, 16);
    assert Pow256(2) == 0x100 * Pow256(1);
    assert Pow256(3) == 0x100 * Pow256(2);
  }

  lemma {:induction false} NumberPositive(ws: seq<nat>)
    requires ws != [] && ws[|ws| - 1] != 0
    ensures Number(ws) > 0
  {
    if |ws| > 1 { NumberPositive(ws[1..]); }
  }

  lemma SmallNumber(ws: seq<nat>)
    requires AreWords(ws)
    ensures |ws| == 1 ==> Number(ws) == ws[0] < CURSORS
    ensures |ws| == 2 ==> Number(ws) == ws[0] + WORDS * ws[1] < CURSORS
  {
    if |ws| == 1 { assert Number(ws[1..]) == 0; }
    if |ws| == 2 { assert ws[1..][1..] == []; assert Number(ws[1..]) == ws[1]; }
  }

  /** The reference for an indirect atom (`_cu_atom_to_ref`). */
  method AtomToRef(root: Root, ws: seq<nat>) returns (ok: bool, ref: nat)
    requires root.Valid() && Canonical(root.a) && Normal(ws)
    modifies root
    ensures root.Valid() && Canonical(root.a) && Grows(old(root.a), root.a)
    ensures ok ==> Stands(root.a, ref, Atom(Number(ws)))
    ensures !ok ==> Sound(root.a) && Refused(root.h, root.a, Atom(Number(ws)))
    ensures Adds(old(root.a), root.a, {Atom(Number(ws))})
  {
    hide Adds, Refused, Value, Stream, Represents, Healthy, Crowded, Number, Canonical, Sound, Live, Denote, WordBytes;
    SmallNumber(ws);
    if |ws| == 2 {
      ok, ref := Coin64(root, ws[0] + WORDS * ws[1]);
    } else if |ws| == 1 {
      ok, ref := Coin64(root, ws[0]);
    } else {
      WordBytesValue(ws);
      NumberPositive(ws);
      ok, ref := CoinBytes(root, WordBytes(ws));
    }
  }

  // ---- from the loom ----

  /** A cell being moved: its head is yet to come, or its tail. */
  datatype Frame = Frame(ref: Option<nat>, cel: nat)

  ghost predicate Linked(a: Arena, loom: seq<Thing>, lden: seq<Noun>, s: seq<Frame>, x: Lom, top: Lom) {
    if s == [] then x == top
    else
      var f := s[|s| - 1];
      && f.cel < |loom| && loom[f.cel].kind.Pair?
      && (match f.ref
          case None => x == loom[f.cel].kind.hed
          case Some(r) => x == loom[f.cel].kind.tel && Stands(a, r, N(lden, loom[f.cel].kind.hed)))
      && Linked(a, loom, lden, s[..|s| - 1], Dog(f.cel), top)
  }

  function Size(n: Noun): (s: nat)
    ensures s > 0
  {
    match n
    case Atom(_) => 1
    case Cell(h, t) => 3 + Size(h) + Size(t)
  }

  function Work(lden: seq<Noun>, s: seq<Frame>): nat {
    if s == [] then 0
    else
      var f := s[|s| - 1];
      Work(lden, s[..|s| - 1]) + if f.ref.None? && f.cel < |lden| && lden[f.cel].Cell? then 2 + Size(lden[f.cel].tail) else 1
  }

  lemma Pushed(s: seq<Frame>, f: Frame)
    ensures (s + [f])[..|s|] == s && (s + [f])[|s|] == f
  {
  }

  lemma {:induction false} LinkedStays(a: Arena, loom: seq<Thing>, b: Arena, loom': seq<Thing>,
          lden: seq<Noun>, s: seq<Frame>, x: Lom, top: Lom)
    requires Linked(a, loom, lden, s, x, top) && Sound(b) && Grows(a, b) && |loom'| == |loom|
    requires forall i | 0 <= i < |loom| :: loom'[i].kind == loom[i].kind
    ensures Linked(b, loom', lden, s, x, top)
    decreases |s|
  {
    hide Stands, Sound, Grows;
    if s != [] {
      var f := s[|s| - 1];
      if f.ref.Some? { StandsStays(a, b, f.ref.value, N(lden, loom[f.cel].kind.hed)); }
      LinkedStays(a, loom, b, loom', lden, s[..|s| - 1], Dog(f.cel), top);
    }
  }

  /** What is being moved is part of what is to be moved. */
  lemma {:induction false} LinkedInside(a: Arena, loom: seq<Thing>, lden: seq<Noun>, s: seq<Frame>, x: Lom, top: Lom)
    requires Melting(a, loom, lden) && Linked(a, loom, lden, s, x, top)
    ensures N(lden, x) in Subnouns(N(lden, top))
    decreases |s|
  {
    hide Stands, Melting;
    PartOfSelf(N(lden, top));
    if s != [] {
      var f := s[|s| - 1];
      ThingAt(a, loom, lden, f.cel);
      LinkedInside(a, loom, lden, s[..|s| - 1], Dog(f.cel), top);
      PartOfSelf(N(lden, x));
      SubnounsInside(N(lden, Dog(f.cel)), N(lden, top));
    }
  }

  lemma PartOfSelf(n: Noun)
    ensures n in Subnouns(n)
  {
  }

  lemma CatIs(a: Arena, v: nat)
    requires Sound(a) && v < CATS
    ensures Stands(a, v, Atom(v))
  {
  }

  lemma ThingAt(a: Arena, loom: seq<Thing>, lden: seq<Noun>, i: nat)
    requires Melting(a, loom, lden) && i < |loom|
    ensures |lden| == |loom| && ThingIs(loom, lden, i) && GoneIs(a, loom, lden, i)
  {
  }

  ghost predicate SameKinds(loom: seq<Thing>, loom': seq<Thing>) {
    |loom'| == |loom| && forall i | 0 <= i < |loom| :: loom'[i].kind == loom[i].kind
  }

  /** A cell with its parts to be moved goes on the stack. */
  lemma PushFrame(a: Arena, loom: seq<Thing>, lden: seq<Noun>, s: seq<Frame>, i: nat, top: Lom)
    requires Melting(a, loom, lden) && Linked(a, loom, lden, s, Dog(i), top) && i < |loom| && loom[i].kind.Pair?
    ensures
      var s', h := s + [Frame(None, i)], loom[i].kind.hed;
      && Linked(a, loom, lden, s', h, top) && On(loom, h)
      && Work(lden, s') + Size(N(lden, h)) < Work(lden, s) + Size(N(lden, Dog(i))) && Size(N(lden, h)) < Size(N(lden, Dog(i)))
  {
    hide Melting, Stands;
    ThingAt(a, loom, lden, i);
    Pushed(s, Frame(None, i));
  }

  /** Move `x0` as far as it can be without its parts (`_cu_from_loom_next`); `x` is what was moved. */
  method FromNext(root: Root, loom: array<Thing>, s0: seq<Frame>, x0: Lom, ghost lden: seq<Noun>, ghost top: Lom)
    returns (ok: bool, ref: nat, s: seq<Frame>, ghost x: Lom)
    requires root.Valid() && Canonical(root.a) && Melting(root.a, loom[..], lden) && On(loom[..], x0) && Linked(root.a, loom[..], lden, s0, x0, top)
    modifies root, loom
    ensures root.Valid() && Canonical(root.a) && Grows(old(root.a), root.a) && SameKinds(old(loom[..]), loom[..])
    ensures ok ==> Melting(root.a, loom[..], lden) && Linked(root.a, loom[..], lden, s, x, top) && Stands(root.a, ref, N(lden, x))
    ensures ok ==> Work(lden, s) < Work(lden, s0) + Size(N(lden, x0))
    ensures !ok ==> Stopped(root.h, root.a, Subnouns(N(lden, top)))
    ensures Adds(old(root.a), root.a, Subnouns(N(lden, top)))
  {
    hide Represents, Healthy, Canonical, Sound, Melting, Linked, Work, Size, Stands, Normal, Number, Adds, Stopped, Refused, Subnouns;
    HealthySound(root.h, root.a);
    AddsNone(root.a);
    AddsMore(root.a, root.a, {}, Subnouns(N(lden, top)));
    var y := x0;
    s := s0;
    GrowsHere(root.a);
    while true
      invariant root.Valid() && root.a == old(root.a) && loom[..] == old(loom[..])
      invariant On(loom[..], y) && Linked(root.a, loom[..], lden, s, y, top)
      invariant Work(lden, s) + Size(N(lden, y)) <= Work(lden, s0) + Size(N(lden, x0))
      decreases Size(N(lden, y))
    {
      HealthySound(root.h, root.a);
      ghost var a, l := root.a, loom[..];
      x := y;
      match y {
        case Cat(v) =>
          CatIs(a, v);
          return true, v, s, x;
        case Dog(i) =>
          ThingAt(a, l, lden, i);
          if loom[i].gone.Some? { return true, loom[i].gone.value, s, x; }
          match loom[i].kind {
            case Words(ws) =>
              LinkedInside(a, l, lden, s, y, top);
              ok, ref := AtomToRef(root, ws);
              AddsMore(a, root.a, {N(lden, y)}, Subnouns(N(lden, top)));
              if !ok {
                StoppedAt(root.h, root.a, Subnouns(N(lden, top)), N(lden, y));
                return;
              }
              HealthySound(root.h, root.a);
              MeltingStays(a, root.a, l, lden);
              Stashed(root.a, l, lden, i, ref);
              loom[i] := loom[i].(gone := Some(ref));
              assert loom[..] == l[i := l[i].(gone := Some(ref))];
              LinkedStays(a, l, root.a, loom[..], lden, s, x, top);
              return;
            case Pair(h, t) =>
              PushFrame(a, l, lden, s, i, top);
              s := s + [Frame(None, i)];
              y := h;
          }
      }
    }
  }

  lemma GrowsHere(a: Arena)
    ensures Grows(a, a)
  {
  }

  lemma GrowsTwice(a: Arena, b: Arena, c: Arena)
    requires Grows(a, b) && Grows(b, c)
    ensures Grows(a, c)
  {
  }

  lemma TurnFrame(a: Arena, loom: seq<Thing>, lden: seq<Noun>, s: seq<Frame>, x: Lom, top: Lom, ref: nat)
    requires Melting(a, loom, lden) && s != [] && s[|s| - 1].ref.None? && Linked(a, loom, lden, s, x, top) && Stands(a, ref, N(lden, x))
    ensures
      var k := |s| - 1;
      var f := s[k];
      var s' := s[..k] + [Frame(Some(ref), f.cel)];
      && f.cel < |loom| && loom[f.cel].kind.Pair? && Linked(a, loom, lden, s', loom[f.cel].kind.tel, top) && On(loom, loom[f.cel].kind.tel)
      && Work(lden, s') + Size(N(lden, loom[f.cel].kind.tel)) < Work(lden, s)
  {
    hide Melting, Stands;
    var k := |s| - 1;
    ThingAt(a, loom, lden, s[k].cel);
    Pushed(s[..k], Frame(Some(ref), s[k].cel));
  }

  lemma PopFrame(a: Arena, loom: seq<Thing>, lden: seq<Noun>, s: seq<Frame>, x: Lom, top: Lom, ref: nat)
    requires Melting(a, loom, lden) && s != [] && s[|s| - 1].ref.Some? && Linked(a, loom, lden, s, x, top) && Stands(a, ref, N(lden, x))
    ensures
      var k := |s| - 1;
      var f := s[k];
      && f.cel < |loom| == |lden| && loom[f.cel].kind.Pair? && Linked(a, loom, lden, s[..k], Dog(f.cel), top)
      && Sound(a) && Live(a, f.ref.value) && Live(a, ref) && lden[f.cel] == Cell(Denote(a, f.ref.value), Denote(a, ref))
      && Work(lden, s) > Work(lden, s[..k])
  {
    hide Melting, Sound;
    ThingAt(a, loom, lden, s[|s| - 1].cel);
  }

  lemma Emptied(a: Arena, loom: seq<Thing>, lden: seq<Noun>, x: Lom, top: Lom)
    ensures Linked(a, loom, lden, [], x, top) <==> x == top
  {
  }

  /** Move a noun off the loom (`_cu_from_loom`): the reference stands for it. */
  method FromLoom(root: Root, loom: array<Thing>, x0: Lom, ghost lden: seq<Noun>) returns (ok: bool, ref: nat)
    requires root.Valid() && Canonical(root.a) && Melting(root.a, loom[..], lden) && On(loom[..], x0)
    modifies root, loom
    ensures root.Valid() && Canonical(root.a) && Grows(old(root.a), root.a) && SameKinds(old(loom[..]), loom[..])
    ensures ok ==> Melting(root.a, loom[..], lden) && Stands(root.a, ref, N(lden, x0))
    ensures !ok ==> Stopped(root.h, root.a, Subnouns(N(lden, x0)))
    ensures Adds(old(root.a), root.a, Subnouns(N(lden, x0)))
  {
    hide Represents, Healthy, Canonical, Sound, Melting, Linked, Work, Size, Stands, Denote, Live, Grows, Adds, Stopped, Refused,
      Subnouns, HasCell, Mug, MugBoth;
    ghost var a0, l0 := root.a, loom[..];
    ghost var ns := Subnouns(N(lden, x0));
    HealthySound(root.h, root.a);
    Emptied(root.a, loom[..], lden, x0, x0);
    var s;
    ghost var x;
    ok, ref, s, x := FromNext(root, loom, [], x0, lden, x0);
    while ok && s != []
      invariant root.Valid() && Canonical(root.a) && Grows(a0, root.a) && SameKinds(l0, loom[..])
      invariant ok ==> Melting(root.a, loom[..], lden) && Linked(root.a, loom[..], lden, s, x, x0) && Stands(root.a, ref, N(lden, x))
      invariant !ok ==> Stopped(root.h, root.a, ns)
      invariant Adds(a0, root.a, ns)
      decreases ok, Work(lden, s)
    {
      ghost var a, l := root.a, loom[..];
      var k := |s| - 1;
      var fam := s[k];
      if fam.ref.None? {
        TurnFrame(a, l, lden, s, x, x0, ref);
        s := s[..k] + [Frame(Some(ref), fam.cel)];
        ok, ref, s, x := FromNext(root, loom, s, loom[fam.cel].kind.tel, lden, x0);
        GrowsTwice(a0, a, root.a);
        AddsTwice(a0, a, root.a, ns);
      } else {
        PopFrame(a, l, lden, s, x, x0, ref);
        LinkedInside(a, l, lden, s[..k], Dog(fam.cel), x0);
        ghost var hed, tal := fam.ref.value, ref;
        ok, ref := root.Cons(fam.ref.value, ref);
        GrowsTwice(a0, a, root.a);
        HealthySound(root.h, root.a);
        CanonicalSame(a, root.a);
        AddsCell(a, root.a, hed, tal);
        AddsMore(a, root.a, {lden[fam.cel]}, ns);
        AddsTwice(a0, a, root.a, ns);
        if !ok {
          RefusedCell(root.h, root.a, hed, tal);
          StoppedAt(root.h, root.a, ns, lden[fam.cel]);
        }
        if ok {
          StandsIs(root.a, ref, lden[fam.cel]);
          MeltingStays(a, root.a, l, lden);
          Stashed(root.a, l, lden, fam.cel, ref);
          loom[fam.cel] := loom[fam.cel].(gone := Some(ref));
          assert loom[..] == l[fam.cel := l[fam.cel].(gone := Some(ref))];
          s := s[..k];
          x := Dog(fam.cel);
          LinkedStays(a, l, root.a, loom[..], lden, s, x, x0);
        }
      }
    }
    if ok { Emptied(root.a, loom[..], lden, x, x0); }
  }

  lemma CanonicalSame(a: Arena, b: Arena)
    requires Canonical(a) && b.bytes == a.bytes
    ensures Canonical(b)
  {
  }

  lemma StandsIs(a: Arena, ref: nat, n: Noun)
    requires Sound(a) && Live(a, ref) && Denote(a, ref) == n
    ensures Stands(a, ref, n)
  {
  }

  // ---- back to the loom ----

  /** The words of bytes, the last one padded with zero bytes. */
  function WordsOf(b: seq<nat>): (ws: seq<nat>)
    ensures b != [] ==> ws != []
  {
    if b == [] then [] else if |b| <= 4 then [Value(Stream(b))] else [Value(Stream(b[..4]))] + WordsOf(b[4..])
  }

  lemma {:induction false} WordsOfNumber(b: seq<nat>)
    requires Trimmed(b)
    ensures AreWords(WordsOf(b)) && Number(WordsOf(b)) == Value(Stream(b))
    ensures b != [] ==> WordsOf(b)[|WordsOf(b)| - 1] != 0
    decreases |b|
  {
    hide Value, Stream, Pow2;
    NoBits(b);
    FourBytes();
    if b != [] && |b| <= 4 {
      TopByte(b);
      ValueBound(Stream(b));
      PowOrder(8 * |b|, 32);
      assert [Value(Stream(b))][1..] == [];
    } else if b != [] {
      var ws := WordsOf(b);
      assert ws[1..] == WordsOf(b[4..]);
      WordsOfNumber(b[4..]);
      ValueBound(Stream(b[..4]));
      assert b == b[..4] + b[4..];
      StreamJoin(b[..4], b[4..]);
      ValueJoin(Stream(b[..4]), Stream(b[4..]));
    }
  }

  lemma {:induction false} NumberLarge(ws: seq<nat>)
    requires Normal(ws)
    ensures Number(ws) >= CATS
  {
    hide Number;
    NumberStep(ws);
    if |ws| > 1 { NumberPositive(ws[1..]); }
  }

  lemma NumberStep(ws: seq<nat>)
    requires ws != []
    ensures Number(ws) == ws[0] + WORDS * Number(ws[1..])
    ensures |ws| == 1 ==> Number(ws) == ws[0]
  {
    if |ws| == 1 { assert ws[1..] == []; }
  }

  /** The new loom: each object is for one reference, and no two for the same. */
  ghost predicate Built(a: Arena, loom: seq<Thing>, nden: seq<Noun>, from: seq<nat>) {
    && Loomed(loom, nden) && |from| == |loom|
    && (forall k | 0 <= k < |from| :: Stands(a, from[k], nden[k]))
    && (forall i, j | 0 <= i < j < |from| :: from[i] != from[j])
  }

  /** A loom word for each of the references from `base` on. */
  ghost predicate Listed(a: Arena, loom: seq<Thing>, nden: seq<Noun>, base: nat, l: seq<Lom>) {
    forall i | 0 <= i < |l| :: Found(a, loom, nden, base + i, l[i])
  }

  ghost predicate Found(a: Arena, loom: seq<Thing>, nden: seq<Noun>, ref: nat, x: Lom) { On(loom,
          x) && Stands(a, ref, N(nden, x)) }

  /** The dictionary has the direct references that do not fit a direct atom. */
  ghost predicate Mapped(h: Hash, a: Arena, loom: seq<Thing>, nden: seq<Noun>, from: seq<nat>, m: map<nat,
          Entry<Lom>>) {
    && (forall r | r in m :: RefTag(r) == 0 && m[r].mug == MugBytes(h, BytesOf(r)) && Found(a, loom, nden, r, m[r].val))
    && (forall k | 0 <= k < |from| && RefTag(from[k]) == 0 :: from[k] in m)
  }

  /** An object is added for a reference that has none. */
  lemma BuiltMore(a: Arena, loom: seq<Thing>, nden: seq<Noun>, from: seq<nat>, t: Thing, n: Noun, ref: nat)
    requires Built(a, loom, nden, from) && Stands(a, ref, n) && ref !in from
    requires
      match t.kind
      case Words(ws) => Normal(ws) && n == Atom(Number(ws))
      case Pair(h, u) => On(loom, h) && On(loom, u) && n == Cell(N(nden, h), N(nden, u))
    ensures Built(a, loom + [t], nden + [n], from + [ref]) && Found(a, loom + [t], nden + [n], ref, Dog(|loom|))
  {
    hide Stands, Normal, Number;
    var loom', nden' := loom + [t], nden + [n];
    forall i | 0 <= i < |loom'| ensures ThingIs(loom', nden', i) {
      if i < |loom| { assert ThingIs(loom, nden, i); }
    }
  }

  /** At most one object is added, for `ref`. */
  ghost predicate OneMore(loom: seq<Thing>, nden: seq<Noun>, from: seq<nat>, loom': seq<Thing>,
          nden': seq<Noun>, from': seq<nat>, ref: nat) {
    |loom| == |nden| == |from| && |loom'| == |nden'| == |from'| &&
    ((loom' == loom && nden' == nden && from' == from)
     || (|loom'| == |loom| + 1 && loom'[..|loom|] == loom && nden'[..|nden|] == nden && from' == from + [ref]))
  }

  lemma FoundKept(a: Arena, loom: seq<Thing>, nden: seq<Noun>, from: seq<nat>, loom': seq<Thing>,
          nden': seq<Noun>, from': seq<nat>, by_: nat, ref: nat, x: Lom)
    requires OneMore(loom, nden, from, loom', nden', from', by_) && Found(a, loom, nden, ref, x)
    ensures Found(a, loom', nden', ref, x)
  {
  }

  lemma ListedKept(a: Arena, loom: seq<Thing>, nden: seq<Noun>, from: seq<nat>, loom': seq<Thing>,
          nden': seq<Noun>, from': seq<nat>, by_: nat, base: nat, l: seq<Lom>)
    requires OneMore(loom, nden, from, loom', nden', from', by_) && Listed(a, loom, nden, base, l)
    ensures Listed(a, loom', nden', base, l)
  {
    hide Found, OneMore;
    forall i | 0 <= i < |l| ensures Found(a, loom', nden', base + i, l[i]) {
      FoundKept(a, loom, nden, from, loom', nden', from', by_, base + i, l[i]);
    }
  }

  lemma MappedKept(h: Hash, a: Arena, loom: seq<Thing>, nden: seq<Noun>, from: seq<nat>, loom': seq<Thing>,
          nden': seq<Noun>, from': seq<nat>, ref: nat, m: map<nat, Entry<Lom>>, m': map<nat, Entry<Lom>>)
    requires OneMore(loom, nden, from, loom', nden', from', ref) && Mapped(h, a, loom, nden, from, m)
    requires
      if RefTag(ref) == 0 && ref in m' then
        && m'.Keys == m.Keys + {ref} && (forall r | r in m && r != ref :: m'[r] == m[r])
        && m'[ref].mug == MugBytes(h, BytesOf(ref)) && Found(a, loom', nden', ref, m'[ref].val)
      else m' == m && (RefTag(ref) != 0 || from' == from)
    ensures Mapped(h, a, loom', nden', from', m')
  {
    hide Found, BytesOf, MugBytes;
    forall r | r in m' ensures RefTag(r) == 0 && m'[r].mug == MugBytes(h, BytesOf(r)) && Found(a, loom', nden', r, m'[r].val) {
      if r in m && m'[r] == m[r] { FoundKept(a, loom, nden, from, loom', nden', from', ref, r, m[r].val); }
    }
    forall k | 0 <= k < |from'| && RefTag(from'[k]) == 0 ensures from'[k] in m' {
      if k < |from| { assert from'[k] == from[k]; }
    }
  }

  /** The objects under construction. */
  class Builder {
    var loom: seq<Thing>
    ghost var nden: seq<Noun>
    ghost var from: seq<nat>

    ghost predicate Valid(a: Arena)
      reads this
    {
      Built(a, loom, nden, from)
    }

    constructor ()
      ensures loom == [] && nden == [] && from == []
    {
      loom, nden, from := [], [], [];
    }

    method Add(kind: Kind, ghost n: Noun, ghost ref: nat, ghost a: Arena) returns (x: Lom)
      requires Valid(a) && Stands(a, ref, n) && ref !in from
      requires
        match kind
        case Words(ws) => Normal(ws) && n == Atom(Number(ws))
        case Pair(h, u) => On(loom, h) && On(loom, u) && n == Cell(N(nden, h), N(nden, u))
      modifies this
      ensures Valid(a) && x == Dog(|old(loom)|) && Found(a, loom, nden, ref, x)
      ensures from == old(from) + [ref] && OneMore(old(loom), old(nden), old(from), loom, nden, from, ref)
    {
      BuiltSizes(a, loom, nden, from);
      hide Stands, Normal, Number, Built, Found;
      BuiltMore(a, loom, nden, from, Thing(None, kind), n, ref);
      x := Dog(|loom|);
      loom := loom + [Thing(None, kind)];
      nden, from := nden + [n], from + [ref];
    }

    /** `u3i_bytes`. */
    method IBytes(byt0: seq<nat>, ghost ref: nat, ghost a: Arena) returns (x: Lom)
      requires Valid(a) && AreBytes(byt0) && Stands(a, ref, Atom(Value(Stream(byt0)))) && ref !in from
      modifies this
      ensures Valid(a) && Found(a, loom, nden, ref, x)
      ensures OneMore(old(loom), old(nden), old(from), loom, nden, from, ref)
    {
      BuiltSizes(a, loom, nden, from);
      hide Stands, Number, Built, Value, Stream, WordsOf;
      var byt := byt0;
      while byt != [] && byt[|byt| - 1] == 0
        invariant AreBytes(byt) && Value(Stream(byt)) == Value(Stream(byt0))
        invariant Valid(a) && loom == old(loom) && nden == old(nden) && from == old(from)
      {
        TopZero(byt);
        byt := byt[..|byt| - 1];
      }
      NoBits(byt);
      if byt == [] { return Cat(0); }
      WordsOfNumber(byt);
      var ws := WordsOf(byt);
      NumberStep(ws);
      if |ws| == 1 && ws[0] < CATS { return Cat(ws[0]); }
      x := Add(Words(ws), Atom(Value(Stream(byt0))), ref, a);
    }
  }

  lemma BuiltSizes(a: Arena, loom: seq<Thing>, nden: seq<Noun>, from: seq<nat>)
    requires Built(a, loom, nden, from)
    ensures |loom| == |nden| == |from|
  {
  }

  lemma DirectFound(a: Arena, loom: seq<Thing>, nden: seq<Noun>, ref: nat)
    requires Sound(a) && ref < CATS
    ensures Found(a, loom, nden, ref, Cat(ref))
  {
  }

  lemma DirectStands(a: Arena, ref: nat)
    requires Sound(a) && RefTag(ref) == 0
    ensures Stands(a, ref, Atom(ref)) && ref < TAG
  {
  }

  lemma TwoWords(ref: nat)
    requires CATS <= ref < TAG
    ensures
      var ws := if ref / WORDS == 0 then [ref % WORDS] else [ref % WORDS, ref / WORDS];
      Normal(ws) && Number(ws) == ref
  {
    var ws := if ref / WORDS == 0 then [ref % WORDS] else [ref % WORDS, ref / WORDS];
    NumberStep(ws);
    if |ws| == 2 { NumberStep(ws[1..]); }
  }

  lemma MappedNew(h: Hash, a: Arena, loom: seq<Thing>, nden: seq<Noun>, from: seq<nat>, m: map<nat,
          Entry<Lom>>, ref: nat)
    requires Mapped(h, a, loom, nden, from, m) && ref !in m && RefTag(ref) == 0
    ensures ref !in from
  {
    hide Found, BytesOf, MugBytes;
  }

  lemma MappedAt(h: Hash, a: Arena, loom: seq<Thing>, nden: seq<Noun>, from: seq<nat>, m: map<nat, Entry<Lom>>,
          ref: nat)
    requires Mapped(h, a, loom, nden, from, m) && ref in m
    ensures m[ref].mug == MugBytes(h, BytesOf(ref)) && Found(a, loom, nden, ref, m[ref].val)
  {
  }

  lemma ListedAt(a: Arena, loom: seq<Thing>, nden: seq<Noun>, base: nat, l: seq<Lom>, i: nat)
    requires Listed(a, loom, nden, base, l) && i < |l|
    ensures Found(a, loom, nden, base + i, l[i])
  {
  }

  lemma SameBuilt(loom: seq<Thing>, nden: seq<Noun>, from: seq<nat>, ref: nat)
    requires |loom| == |nden| == |from|
    ensures OneMore(loom, nden, from, loom, nden, from, ref)
  {
  }

  /** The loom word for a reference, allocating it if it is a direct atom of more than 31 bits not met
      before (`_cu_ref_to_noun`). */
  method RefToNoun(root: Root, b: Builder, dict: Dict<Lom>, vat: seq<Lom>, cel: seq<Lom>,
          ref: nat) returns (ok: bool, x: Lom)
    requires root.Valid() && b.Valid(root.a) && dict.Valid() && Mapped(root.h, root.a, b.loom, b.nden, b.from, dict.m)
    requires Listed(root.a, b.loom, b.nden, TAG, vat) && Listed(root.a, b.loom, b.nden, 2 * TAG, cel)
    requires Live(root.a, ref) && |vat| == |root.a.bytes| && (RefTag(ref) == 2 ==> Index(ref) < |cel|)
    modifies b, dict
    ensures b.Valid(root.a) && dict.Valid() && OneMore(old(b.loom), old(b.nden), old(b.from), b.loom, b.nden, b.from, ref)
    ensures RefTag(ref) != 0 ==> b.from == old(b.from)
    ensures ok ==> Found(root.a, b.loom, b.nden, ref, x) && Mapped(root.h, root.a, b.loom, b.nden, b.from, dict.m)
    ensures ok ==> dict.m.Keys == old(dict.m).Keys + Kept(ref)
    ensures !ok ==> Kept(ref) == {ref} && ref !in dict.m && Crowded(dict.m, MugBytes(root.h, BytesOf(ref)))
    ensures !ok ==> dict.m == old(dict.m)
  {
    hide Represents, Healthy, Built, Listed, Mapped, Found, Stands, Number, Normal, MugBytes, BytesOf, OneMore, Crowded;
    HealthySound(root.h, root.a);
    BuiltSizes(root.a, b.loom, b.nden, b.from);
    ghost var l, n, f, m := b.loom, b.nden, b.from, dict.m;
    SameBuilt(l, n, f, ref);
    assert ref == TAG * RefTag(ref) + Index(ref);
    if RefTag(ref) == 1 {
      ListedAt(root.a, l, n, TAG, vat, Index(ref));
      return true, vat[Index(ref)];
    }
    if RefTag(ref) == 2 {
      ListedAt(root.a, l, n, 2 * TAG, cel, Index(ref));
      return true, cel[Index(ref)];
    }
    DirectStands(root.a, ref);
    if ref <= 0x7fff_ffff {
      DirectFound(root.a, l, n, ref);
      return true, Cat(ref);
    }
    var mug := MugBytes(root.h, BytesOf(ref));
    if ref in m { MappedAt(root.h, root.a, l, n, f, m, ref); }
    var got := dict.Get(ref, mug);
    if got.Some? { return true, got.value; }
    MappedNew(root.h, root.a, l, n, f, m, ref);
    TwoWords(ref);
    var ws := if ref / WORDS == 0 then [ref % WORDS] else [ref % WORDS, ref / WORDS];
    x := b.Add(Words(ws), Atom(ref), ref, root.a);
    ok := dict.Put(ref, mug, x);
    if ok { MappedKept(root.h, root.a, l, n, f, b.loom, b.nden, b.from, ref, m, dict.m); }
  }

  /** The keys a reference brings to the dictionary: itself, if it is a direct atom of more than 31 bits. */
  function Kept(ref: nat): set<nat> { if CATS <= ref < TAG then {ref} else {} }

  /** The atoms that fit a reference but no loom word. */
  ghost function Middle(ns: set<Noun>): set<Noun> { set n | n in ns && n.Atom? && CATS <= n.value < TAG }

  /** The first `k` cells bring the keys of the dictionary. */
  ghost predicate Keyed(a: Arena, m: map<nat, Entry<Lom>>, k: nat)
    requires k <= |a.heads| == |a.tails|
  {
    && (forall r | r in m :: CATS <= r < TAG && PartOf(a, r))
    && (forall i | 0 <= i < k :: Kept(a.heads[i]) <= m.Keys && Kept(a.tails[i]) <= m.Keys)
  }

  ghost predicate PartOf(a: Arena, r: nat)
    requires |a.heads| == |a.tails|
  {
    exists i :: 0 <= i < |a.heads| && (a.heads[i] == r || a.tails[i] == r)
  }

  lemma KeyedMore(a: Arena, m: map<nat, Entry<Lom>>, k: nat, r: nat, m': map<nat, Entry<Lom>>)
    requires k <= |a.heads| == |a.tails| && Keyed(a, m, k) && PartOf(a, r) && m'.Keys == m.Keys + Kept(r)
    ensures Keyed(a, m', k)
  {
  }

  /** The middle atoms of `ns` are those that are parts of cells. */
  ghost predicate Parted(a: Arena, ns: set<Noun>)
    requires |a.heads| == |a.tails|
  {
    forall r: nat | CATS <= r < TAG :: PartOf(a, r) <==> Atom(r) in ns
  }

  lemma DirectEntry(h: Hash, a: Arena, m: map<nat, Entry<Lom>>, r: nat)
    requires Sound(a) && r in m && CATS <= r < TAG && m[r].mug == MugBytes(h, BytesOf(r))
    ensures EntryOf(h, a, m, r) && Denote(a, r) == Atom(r)
  {
    hide MugBytes, BytesOf;
  }

  /** No room for a middle atom: eleven of them have one mug. */
  lemma KeysCrowd(h: Hash, a: Arena, loom: seq<Thing>, nden: seq<Noun>, from: seq<nat>, m: map<nat, Entry<Lom>>,
          k: nat, ref: nat, ns: set<Noun>)
    requires Healthy(h, a) && Mapped(h, a, loom, nden, from, m) && k <= |a.heads| && Keyed(a, m, k) && Parted(a, ns)
    requires PartOf(a, ref) && Kept(ref) == {ref} && ref !in m && Crowded(m, MugBytes(h, BytesOf(ref)))
    ensures Collision(h, Middle(ns))
  {
    hide Found, MugBytes, BytesOf, Crowded, Unique, Hashed, Denote, Live, EntryOf, Sound, PartOf;
    HealthySound(h, a);
    forall r | r in m ensures EntryOf(h, a, m, r) && Live(a, r) && Denote(a, r) == Atom(r) && Atom(r) in Middle(ns) {
      MappedAt(h, a, loom, nden, from, m, r);
      DirectEntry(h, a, m, r);
      EntryLive(h, a, m, r);
    }
    CrowdedNouns(h, a, m, Middle(ns), Atom(ref));
  }

  lemma EntryLive(h: Hash, a: Arena, m: map<nat, Entry<Lom>>, r: nat)
    requires Sound(a) && r in m && EntryOf(h, a, m, r)
    ensures Live(a, r)
  {
  }

  /** Every middle atom has its entry. */
  lemma KeysHeld(h: Hash, a: Arena, loom: seq<Thing>, nden: seq<Noun>, from: seq<nat>, t: Table<Lom>,
          m: map<nat, Entry<Lom>>, ns: set<Noun>)
    requires Healthy(h, a) && Represents(t, m) && Mapped(h, a, loom, nden, from, m) && Keyed(a, m, |a.heads|) && Parted(a, ns)
    ensures !Collision(h, Middle(ns))
  {
    hide Found, MugBytes, BytesOf, Unique, Hashed, Denote, Live, EntryOf, Sound, Represents;
    HealthySound(h, a);
    forall r | r in m ensures EntryOf(h, a, m, r) && Live(a, r) && Denote(a, r) == Atom(r) {
      MappedAt(h, a, loom, nden, from, m, r);
      DirectEntry(h, a, m, r);
      EntryLive(h, a, m, r);
    }
    forall n | n in Middle(ns) ensures Entered(a, m, n) {
      assert PartOf(a, n.value);
      assert n.value in m;
    }
    EnteredNouns(h, a, t, m, Middle(ns));
  }

  /** Objects so far are for direct references, atoms below `atoms`, and cells below `cells`. */
  predicate Sofar(from: seq<nat>, atoms: nat, cells: nat) { forall k | 0 <= k < |from| :: SofarAt(from[k],
          atoms, cells) }

  predicate SofarAt(ref: nat, atoms: nat, cells: nat) {
    RefTag(ref) == 0 || (RefTag(ref) == 1 && Index(ref) < atoms) || (RefTag(ref) == 2 && Index(ref) < cells)
  }

  lemma SofarMore(loom: seq<Thing>, nden: seq<Noun>, from: seq<nat>, loom': seq<Thing>, nden': seq<Noun>,
          from': seq<nat>, ref: nat, atoms: nat, cells: nat, atoms': nat, cells': nat)
    requires OneMore(loom, nden, from, loom', nden', from', ref) && Sofar(from, atoms, cells) && atoms <= atoms' && cells <= cells'
    requires from' == from || SofarAt(ref, atoms', cells')
    ensures Sofar(from', atoms', cells')
  {
    forall k | 0 <= k < |from'| ensures SofarAt(from'[k], atoms', cells') { if k < |from| { assert SofarAt(from[k], atoms, cells); } }
  }

  lemma SofarNot(from: seq<nat>, atoms: nat, cells: nat, ref: nat)
    requires Sofar(from, atoms, cells) && !SofarAt(ref, atoms, cells)
    ensures ref !in from
  {
  }

  lemma AtomRef(a: Arena, i: nat)
    requires Sound(a) && i < |a.bytes| <= TAG
    ensures RefTag(TAG + i) == 1 && Index(TAG + i) == i && Stands(a, TAG + i, Atom(Value(Stream(a.bytes[i])))) && AreBytes(a.bytes[i])
  {
  }

  lemma CellRef(a: Arena, i: nat)
    requires Sound(a) && i < |a.heads| <= TAG
    ensures RefTag(2 * TAG + i) == 2 && Index(2 * TAG + i) == i && Live(a, a.heads[i]) && Live(a, a.tails[i])
    ensures Ok(a, a.heads[i], i) && Ok(a, a.tails[i], i)
    ensures Stands(a, 2 * TAG + i, Cell(Denote(a, a.heads[i]), Denote(a, a.tails[i])))
  {
  }

  lemma FoundIs(a: Arena, loom: seq<Thing>, nden: seq<Noun>, ref: nat, x: Lom)
    requires Found(a, loom, nden, ref, x)
    ensures On(loom, x) && Stands(a, ref, N(nden, x))
  {
  }

  lemma ListedPush(a: Arena, loom: seq<Thing>, nden: seq<Noun>, base: nat, l: seq<Lom>, x: Lom)
    requires Listed(a, loom, nden, base, l) && Found(a, loom, nden, base + |l|, x)
    ensures Listed(a, loom, nden, base, l + [x])
  {
    hide Found;
    forall i | 0 <= i < |l + [x]| ensures Found(a, loom, nden, base + i, (l + [x])[i]) { if i < |l| { ListedAt(a, loom, nden, base, l, i); } }
  }

  lemma Nothing(h: Hash, a: Arena, base: nat)
    ensures Built(a, [], [], []) && Listed(a, [], [], base, []) && Mapped(h, a, [], [], [], map[])
  {
  }

  /** Allocate every stored atom (`_cu_all_to_loom`, first loop). */
  method AtomsToLoom(root: Root, b: Builder) returns (vat: seq<Lom>)
    requires root.Valid() && b.loom == [] && b.nden == [] && b.from == []
    modifies b
    ensures b.Valid(root.a) && |vat| == |root.a.bytes| && Listed(root.a, b.loom, b.nden, TAG, vat) && Sofar(b.from, |vat|, 0)
    ensures forall k | 0 <= k < |b.from| :: RefTag(b.from[k]) != 0
  {
    hide Represents, Healthy, Built, Listed, Found, Stands, OneMore, Value, Stream;
    HealthySound(root.h, root.a);
    Nothing(root.h, root.a, TAG);
    vat := [];
    for i := 0 to |root.a.bytes|
      invariant b.Valid(root.a) && |vat| == i && Listed(root.a, b.loom, b.nden, TAG, vat) && Sofar(b.from, i, 0)
      invariant forall k | 0 <= k < |b.from| :: RefTag(b.from[k]) != 0
    {
      ghost var l, n, f := b.loom, b.nden, b.from;
      AtomRef(root.a, i);
      SofarNot(f, i, 0, TAG + i);
      var x := b.IBytes(root.a.bytes[i], TAG + i, root.a);
      ListedKept(root.a, l, n, f, b.loom, b.nden, b.from, TAG + i, TAG, vat);
      ListedPush(root.a, b.loom, b.nden, TAG, vat, x);
      SofarMore(l, n, f, b.loom, b.nden, b.from, TAG + i, i, 0, i + 1, 0);
      OneTag(l, n, f, b.loom, b.nden, b.from, TAG + i);
      vat := vat + [x];
    }
  }

  lemma OneTag(loom: seq<Thing>, nden: seq<Noun>, from: seq<nat>, loom': seq<Thing>, nden': seq<Noun>,
          from': seq<nat>, ref: nat)
    requires OneMore(loom, nden, from, loom', nden', from', ref) && RefTag(ref) != 0 && forall k | 0 <= k < |from| :: RefTag(from[k]) != 0
    ensures forall k | 0 <= k < |from'| :: RefTag(from'[k]) != 0
  {
  }

  /** Allocate every cell, its parts before it (`_cu_all_to_loom`, second loop). It succeeds if and
      only if no eleven of the direct atoms of more than 31 bits have one mug. */
  method CellsToLoom(root: Root, b: Builder, dict: Dict<Lom>, vat: seq<Lom>, ghost ns: set<Noun>) returns (ok: bool, cel: seq<Lom>)
    requires root.Valid() && b.Valid(root.a) && dict.Valid() && Mapped(root.h, root.a, b.loom, b.nden, b.from, dict.m)
    requires |vat| == |root.a.bytes| && Listed(root.a, b.loom, b.nden, TAG, vat) && Sofar(b.from, |vat|, 0)
    requires dict.m == map[] && Sound(root.a) && Parted(root.a, ns)
    modifies b, dict
    ensures b.Valid(root.a) && dict.Valid()
    ensures ok ==> |cel| == |root.a.heads| && Listed(root.a, b.loom, b.nden, 2 * TAG, cel)
    ensures ok <==> !Collision(root.h, Middle(ns))
  {
    hide Represents, Healthy, Built, Listed, Mapped, Found, Stands, OneMore, MugBytes, BytesOf, Crowded, Keyed, Kept, Parted, Collision,
      Denote, N, On, Normal, Middle, Loomed, RefTag, Index;
    HealthySound(root.h, root.a);
    NoKeys(root.a);
    cel := [];
    NoneListed(root.a, b.loom, b.nden, 2 * TAG);
    for i := 0 to |root.a.heads|
      invariant b.Valid(root.a) && dict.Valid() && Mapped(root.h, root.a, b.loom, b.nden, b.from, dict.m)
      invariant Listed(root.a, b.loom, b.nden, TAG, vat) && |cel| == i && Listed(root.a, b.loom, b.nden, 2 * TAG, cel)
      invariant Sofar(b.from, |vat|, i) && Keyed(root.a, dict.m, i)
    {
      CellRef(root.a, i);
      ghost var a, hed, tal := root.a, root.a.heads[i], root.a.tails[i];
      ghost var l0, n0, f0 := b.loom, b.nden, b.from;
      ghost var m0 := dict.m;
      assert PartOf(a, hed) && PartOf(a, tal);
      var h, t;
      ok, h := RefToNoun(root, b, dict, vat, cel, root.a.heads[i]);
      if !ok {
        KeysCrowd(root.h, a, l0, n0, f0, m0, i, hed, ns);
        return;
      }
      ghost var m1 := dict.m;
      KeyedMore(a, m0, i, hed, m1);
      ghost var l1, n1, f1 := b.loom, b.nden, b.from;
      AllKept(a, l0, n0, f0, l1, n1, f1, hed, vat, cel, i);
      ok, t := RefToNoun(root, b, dict, vat, cel, root.a.tails[i]);
      if !ok {
        KeysCrowd(root.h, a, l1, n1, f1, m1, i, tal, ns);
        return;
      }
      KeyedMore(a, m1, i, tal, dict.m);
      KeyedNext(a, m0, m1, dict.m, i);
      ghost var l2, n2, f2 := b.loom, b.nden, b.from;
      AllKept(a, l1, n1, f1, l2, n2, f2, tal, vat, cel, i);
      FoundKept(a, l1, n1, f1, l2, n2, f2, tal, hed, h);
      FoundIs(a, l2, n2, hed, h);
      FoundIs(a, l2, n2, tal, t);
      SofarNot(f2, |vat|, i, 2 * TAG + i);
      PartsAre(a, hed, tal, N(n2, h), N(n2, t));
      var x := b.Add(Pair(h, t), Cell(N(n2, h), N(n2, t)), 2 * TAG + i, a);
      AllKept(a, l2, n2, f2, b.loom, b.nden, b.from, 2 * TAG + i, vat, cel, i);
      MappedKept(root.h, a, l2, n2, f2, b.loom, b.nden, b.from, 2 * TAG + i, dict.m, dict.m);
      ListedPush(a, b.loom, b.nden, 2 * TAG, cel, x);
      cel := cel + [x];
    }
    KeysHeld(root.h, root.a, b.loom, b.nden, b.from, dict.table, dict.m, ns);
    ok := true;
  }

  lemma NoKeys(a: Arena)
    requires |a.heads| == |a.tails|
    ensures Keyed(a, map[], 0)
  {
  }

  lemma KeyedNext(a: Arena, m0: map<nat, Entry<Lom>>, m1: map<nat, Entry<Lom>>, m2: map<nat, Entry<Lom>>, k: nat)
    requires k < |a.heads| == |a.tails| && Keyed(a, m2, k)
    requires m1.Keys == m0.Keys + Kept(a.heads[k]) && m2.Keys == m1.Keys + Kept(a.tails[k])
    ensures Keyed(a, m2, k + 1)
  {
  }

  lemma PartsAre(a: Arena, hed: nat, tal: nat, h: Noun, t: Noun)
    requires Stands(a, hed, h) && Stands(a, tal, t)
    ensures Sound(a) && Live(a, hed) && Live(a, tal) && Cell(Denote(a, hed), Denote(a, tal)) == Cell(h, t)
  {
  }

  lemma NoneListed(a: Arena, loom: seq<Thing>, nden: seq<Noun>, base: nat)
    ensures Listed(a, loom, nden, base, [])
  {
  }

  lemma AllKept(a: Arena, loom: seq<Thing>, nden: seq<Noun>, from: seq<nat>, loom': seq<Thing>,
          nden': seq<Noun>, from': seq<nat>, ref: nat, vat: seq<Lom>, cel: seq<Lom>, i: nat)
    requires OneMore(loom, nden, from, loom', nden', from', ref) && Listed(a, loom, nden, TAG, vat) && Listed(a, loom, nden, 2 * TAG, cel)
    requires Sofar(from, |vat|, i) && (from' == from || RefTag(ref) == 0 || ref == 2 * TAG + i) && i < TAG
    ensures Listed(a, loom', nden', TAG, vat) && Listed(a, loom', nden', 2 * TAG, cel)
    ensures Sofar(from', |vat|, if RefTag(ref) == 2 then i + 1 else i)
  {
    hide Listed, Sofar, OneMore;
    ListedKept(a, loom, nden, from, loom', nden', from', ref, TAG, vat);
    ListedKept(a, loom, nden, from, loom', nden', from', ref, 2 * TAG, cel);
    SofarMore(loom, nden, from, loom', nden', from', ref, |vat|, i, |vat|, if RefTag(ref) == 2 then i + 1 else i);
  }

  // ---- the whole meld ----

  /** On a loom built from an arena, every noun is one word: what is equal is shared. */
  lemma AllShared(a: Arena, loom: seq<Thing>, nden: seq<Noun>, from: seq<nat>, x: Lom, y: Lom)
    requires Built(a, loom, nden, from) && Sound(a) && Unique(a) && Canonical(a) && On(loom, x) && On(loom, y)
    ensures N(nden, x) == N(nden, y) <==> x == y
  {
    hide Unique, Canonical, Denote, Normal, Number, Sound, Live;
    if x.Dog? { assert Stands(a, from[x.i], nden[x.i]) && ThingIs(loom, nden, x.i); NotCat(loom, nden, x.i); }
    if y.Dog? { assert Stands(a, from[y.i], nden[y.i]) && ThingIs(loom, nden, y.i); NotCat(loom, nden, y.i); }
    if x.Dog? && y.Dog? && nden[x.i] == nden[y.i] {
      RefsUnique(a, from[x.i], from[y.i]);
    }
  }

  /** An object is no direct atom. */
  lemma NotCat(loom: seq<Thing>, nden: seq<Noun>, i: nat)
    requires i < |loom| == |nden| && ThingIs(loom, nden, i)
    ensures nden[i].Atom? ==> nden[i].value >= CATS
  {
    hide Normal, Number;
    if loom[i].kind.Words? { NumberLarge(loom[i].kind.ws); }
  }

  /** What is in the nouns of the roots. */
  ghost function Reached(lden: seq<Noun>, roots: seq<Lom>): set<Noun> {
    if roots == [] then {} else Reached(lden, roots[..|roots| - 1]) + Subnouns(N(lden, roots[|roots| - 1]))
  }

  /** Too much for the arena, or eleven middle atoms with one mug. */
  ghost predicate TooMuch(h: Hash, ns: set<Noun>) { Overfull(h, ns) || Collision(h, Middle(ns)) }

  lemma {:induction false} ReachedAt(lden: seq<Noun>, roots: seq<Lom>, k: nat)
    requires k < |roots|
    ensures Subnouns(N(lden, roots[k])) <= Reached(lden, roots)
  {
    if k < |roots| - 1 { ReachedAt(lden, roots[..|roots| - 1], k); }
  }

  lemma {:induction false} ReachedFrom(lden: seq<Noun>, roots: seq<Lom>, n: Noun) returns (k: nat)
    requires n in Reached(lden, roots)
    ensures k < |roots| && n in Subnouns(N(lden, roots[k]))
  {
    if n in Subnouns(N(lden, roots[|roots| - 1])) { k := |roots| - 1; } else { k := ReachedFrom(lden, roots[..|roots| - 1], n); }
  }

  /** What is in the nouns of the roots is known to an arena that has references for them. */
  lemma AllKnown(a: Arena, lden: seq<Noun>, roots: seq<Lom>, refs: seq<nat>, n: Noun)
    requires Sound(a) && |refs| == |roots| && (forall r | 0 <= r < |refs| :: Stands(a, refs[r], N(lden, roots[r]))) && n in Reached(lden, roots)
    ensures Knows(a, n)
  {
    hide N, Denote, Sound, Live;
    var k := ReachedFrom(lden, roots, n);
    assert Stands(a, refs[k], N(lden, roots[k]));
    KnowsInside(a, n, N(lden, roots[k]));
  }

  /** A proper part of a noun is a part of one of its cells. */
  lemma {:induction false} PartOfCell(p: Noun, n: Noun) returns (c: Noun)
    requires p in Subnouns(n) && p != n
    ensures c in Subnouns(n) && c.Cell? && (c.head == p || c.tail == p)
  {
    if p == n.head || p == n.tail {
      c := n;
    } else if p in Subnouns(n.head) {
      c := PartOfCell(p, n.head);
    } else {
      c := PartOfCell(p, n.tail);
    }
  }

  lemma DirectRef(a: Arena, ref: nat, v: nat)
    requires Sound(a) && Canonical(a) && Live(a, ref) && Denote(a, ref) == Atom(v) && v < TAG
    ensures ref == v
  {
    hide Value, Stream;
  }

  /** The middle atoms are parts of the cells stored. */
  lemma AllParted(h: Hash, a0: Arena, a: Arena, lden: seq<Noun>, roots: seq<Lom>, refs: seq<nat>)
    requires Healthy(h, a) && Canonical(a) && a0.bytes == [] && a0.heads == [] && Adds(a0, a, Reached(lden, roots))
    requires |refs| == |roots| && forall r | 0 <= r < |refs| :: Stands(a, refs[r], N(lden, roots[r]))
    requires forall r | 0 <= r < |roots| :: N(lden, roots[r]).Cell?
    ensures Sound(a) && Parted(a, Reached(lden, roots))
  {
    hide N, Denote, Live, Canonical, Hashed, Unique, Stands, Reached, Subnouns, Value, Stream, Knows, Sound;
    HealthySound(h, a);
    var ns := Reached(lden, roots);
    forall r: nat | CATS <= r < TAG ensures PartOf(a, r) <==> Atom(r) in ns {
      if PartOf(a, r) {
        var i: nat :| i < |a.heads| && (a.heads[i] == r || a.tails[i] == r);
        PartIn(a0, a, lden, roots, i);
        DirectIs(a, r);
      }
      if Atom(r) in ns {
        var k := ReachedFrom(lden, roots, Atom(r));
        var c := PartOfCell(Atom(r), N(lden, roots[k]));
        ReachedAt(lden, roots, k);
        AllKnown(a, lden, roots, refs, c);
        KnownStored(h, a, c);
        var i: nat :| i < |a.heads| && CellsIn(a)[i] == c;
        PartsLive(a, i);
        if c.head == Atom(r) { DirectRef(a, a.heads[i], r); } else { DirectRef(a, a.tails[i], r); }
      }
    }
  }

  lemma PartsLive(a: Arena, i: nat)
    requires Sound(a) && i < |a.heads|
    ensures Live(a, a.heads[i]) && Live(a, a.tails[i])
  {
  }

  /** The parts of a stored cell are in the nouns of the roots. */
  lemma PartIn(a0: Arena, a: Arena, lden: seq<Noun>, roots: seq<Lom>, i: nat)
    requires Sound(a) && a0.heads == [] && Adds(a0, a, Reached(lden, roots)) && i < |a.heads|
    ensures Denote(a, a.heads[i]) in Reached(lden, roots) && Denote(a, a.tails[i]) in Reached(lden, roots)
  {
    hide N, Value, Stream, Reached, Denote;
    var c := Cell(Denote(a, a.heads[i]), Denote(a, a.tails[i]));
    var k := ReachedFrom(lden, roots, c);
    ReachedAt(lden, roots, k);
    SubnounsInside(c, N(lden, roots[k]));
    PartOfSelf(c.head);
    PartOfSelf(c.tail);
    assert c.head in Subnouns(c) && c.tail in Subnouns(c);
  }

  /** Rebuild the loom with every noun on it once: the roots, which are cells, denote what they did.
      It succeeds if and only if the nouns of the roots are not too many for the indices, and no eleven
      of one kind have one mug. */
  method MeldAll(loom: array<Thing>, roots: seq<Lom>, h: Hash, ghost lden: seq<Noun>)
    returns (ok: bool, loom': seq<Thing>, roots': seq<Lom>, ghost nden: seq<Noun>)
    requires Loomed(loom[..], lden) && (forall i | 0 <= i < loom.Length :: loom[i].gone == None)
    requires forall r | 0 <= r < |roots| :: On(loom[..], roots[r]) && N(lden, roots[r]).Cell?
    modifies loom
    ensures ok ==> Loomed(loom', nden) && |roots'| == |roots|
    ensures ok ==> forall r | 0 <= r < |roots| :: On(loom', roots'[r]) && N(nden, roots'[r]) == N(lden, roots[r])
    ensures ok ==> forall x, y | On(loom', x) && On(loom', y) :: N(nden, x) == N(nden, y) <==> x == y
    ensures ok <==> !TooMuch(h, Reached(lden, roots))
  {
    hide Represents, Healthy, Canonical, Melting, Stands, Denote, Live, Sound, Grows, N, On, Built, Listed, Mapped, Loomed,
      Adds, Stopped, Overfull, Collision, Middle, Reached, Subnouns, Parted, AtomMap, CellMap;
    loom', roots', nden := [], [], [];
    var root := new Root(h, FIB11, FIB12);
    var refs;
    ghost var a0 := root.a;
    ok, refs := MeltAll(root, loom, roots, lden);
    if !ok { return; }
    ghost var a, ns := root.a, Reached(lden, roots);
    HealthySound(root.h, a);
    AllParted(h, a0, a, lden, roots, refs);
    forall n | n in ns ensures Knows(a, n) { AllKnown(a, lden, roots, refs, n); }
    HeldNotOver(h, a, root.atoms, root.cells, ns);
    var b := new Builder();
    var dict := new Dict<Lom>(FIB11, FIB12);
    var vat := AtomsToLoom(root, b);
    NoDirects(root.h, root.a, b.loom, b.nden, b.from);
    var cel;
    ok, cel := CellsToLoom(root, b, dict, vat, ns);
    if !ok { return; }
    loom', nden := b.loom, b.nden;
    ghost var from := b.from;
    BuiltLoomed(a, loom', nden, from);
    while |roots'| < |roots|
      invariant |roots'| <= |roots|
      invariant forall r | 0 <= r < |roots'| :: On(loom', roots'[r]) && N(nden, roots'[r]) == N(lden, roots[r])
    {
      var ref := refs[|roots'|];
      CellAt(a, ref, N(lden, roots[|roots'|]));
      ListedAt(a, loom', nden, 2 * TAG, cel, Index(ref));
      FoundIs(a, loom', nden, ref, cel[Index(ref)]);
      StandsOnce(a, ref, N(nden, cel[Index(ref)]), N(lden, roots[|roots'|]));
      roots' := roots' + [cel[Index(ref)]];
    }
    HealthyUnique(h, a);
    forall x, y | On(loom', x) && On(loom', y) ensures N(nden, x) == N(nden, y) <==> x == y {
      AllShared(a, loom', nden, from, x, y);
    }
  }

  lemma HealthyUnique(h: Hash, a: Arena)
    requires Healthy(h, a)
    ensures Sound(a) && Unique(a)
  {
  }

  /** Move all the roots off the loom into an empty arena. */
  method MeltAll(root: Root, loom: array<Thing>, roots: seq<Lom>, ghost lden: seq<Noun>) returns (ok: bool, refs: seq<nat>)
    requires root.Valid() && root.a.bytes == [] && root.a.heads == []
    requires Loomed(loom[..], lden) && (forall i | 0 <= i < loom.Length :: loom[i].gone == None)
    requires forall r | 0 <= r < |roots| :: On(loom[..], roots[r])
    modifies root, loom
    ensures root.Valid() && Canonical(root.a) && Adds(old(root.a), root.a, Reached(lden, roots))
    ensures ok ==> |refs| == |roots| && forall r | 0 <= r < |refs| :: Stands(root.a, refs[r], N(lden, roots[r]))
    ensures !ok ==> Overfull(root.h, Reached(lden, roots))
  {
    hide Represents, Healthy, Canonical, Melting, Stands, Denote, Live, Sound, Grows, N, On, Loomed, Adds, Stopped, Overfull, Reached, Subnouns;
    ghost var a0, l0, ns := root.a, loom[..], Reached(lden, roots);
    HealthySound(root.h, a0);
    StartMelt(a0, l0, lden);
    AddsNone(a0);
    AddsMore(a0, a0, {}, ns);
    refs := [];
    ok := true;
    while ok && |refs| < |roots|
      invariant root.Valid() && Canonical(root.a) && |refs| <= |roots| && SameKinds(l0, loom[..]) && Adds(a0, root.a, ns)
      invariant ok ==> Melting(root.a, loom[..], lden)
      invariant !ok ==> Stopped(root.h, root.a, ns)
      invariant ok ==> forall r | 0 <= r < |refs| :: Stands(root.a, refs[r], N(lden, roots[r]))
      decreases ok, |roots| - |refs|
    {
      ghost var l, a := loom[..], root.a;
      var k := |refs|;
      var ref;
      OnSame(l0, l, roots[k]);
      ok, ref := FromLoom(root, loom, roots[k], lden);
      KindsTwice(l0, l, loom[..]);
      HealthySound(root.h, root.a);
      ReachedAt(lden, roots, k);
      AddsMore(a, root.a, Subnouns(N(lden, roots[k])), ns);
      AddsTwice(a0, a, root.a, ns);
      if !ok { StoppedMore(root.h, root.a, Subnouns(N(lden, roots[k])), ns); }
      forall r | 0 <= r < |refs| ensures Stands(root.a, refs[r], N(lden, roots[r])) { StandsStays(a, root.a, refs[r], N(lden, roots[r])); }
      refs := refs + [ref];
    }
    if !ok { StoppedOver(root.h, a0, root.a, ns); }
  }

  lemma StartMelt(a: Arena, loom: seq<Thing>, lden: seq<Noun>)
    requires Loomed(loom, lden) && (forall i | 0 <= i < |loom| :: loom[i].gone == None) && a.bytes == []
    ensures Melting(a, loom, lden) && Canonical(a) && SameKinds(loom, loom)
  {
    hide Normal, Number, N;
  }

  lemma OnSame(loom: seq<Thing>, loom': seq<Thing>, x: Lom)
    requires On(loom, x) && SameKinds(loom, loom')
    ensures On(loom', x)
  {
  }

  lemma KindsTwice(a: seq<Thing>, b: seq<Thing>, c: seq<Thing>)
    requires SameKinds(a, b) && SameKinds(b, c)
    ensures SameKinds(a, c)
  {
  }

  lemma NoDirects(h: Hash, a: Arena, loom: seq<Thing>, nden: seq<Noun>, from: seq<nat>)
    requires forall k | 0 <= k < |from| :: RefTag(from[k]) != 0
    ensures Mapped(h, a, loom, nden, from, map[])
  {
  }

  lemma BuiltLoomed(a: Arena, loom: seq<Thing>, nden: seq<Noun>, from: seq<nat>)
    requires Built(a, loom, nden, from)
    ensures Loomed(loom, nden)
  {
  }

  /** A cell's reference is tagged as one. */
  lemma CellAt(a: Arena, ref: nat, n: Noun)
    requires Stands(a, ref, n) && n.Cell?
    ensures RefTag(ref) == 2 && Index(ref) < |a.heads| && 2 * TAG + Index(ref) == ref
  {
    hide Value, Stream;
    assert ref == TAG * RefTag(ref) + Index(ref);
  }

  lemma StandsOnce(a: Arena, ref: nat, n: Noun, m: Noun)
    requires Stands(a, ref, n) && Stands(a, ref, m)
    ensures n == m
  {
  }
}
