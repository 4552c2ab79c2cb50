/** The allocator of a road, on either kind of road (pkg/urbit/noun/allocate.c:43-307, 340-694, 709-870). */
module Allocator {
  import opened BoxHeap
  import Bits

  // ---- alignment ----

  /** The last multiple of `ald` up to `off`; the source masks, as `ald` is a power of two. */
  function Orp(off: int, ald: nat): int
    requires ald > 0
  {
    off - off % ald
  }

  lemma OrpIs(off: nat, ald: nat, alp: nat)
    requires alp < ald
    ensures (Orp(off, ald) + alp) % ald == alp
  {
    assert off == ald * (off / ald) + off % ald;
    Bits.DivUnique(Orp(off, ald) + alp, ald, off / ald, alp);
  }

  /** Words from `pos` to the next point at `alp` modulo `ald` (`_me_align_pad`). */
  function AlignPad(pos: nat, ald: nat, alp: nat): (pad: nat)
    requires alp < ald
    ensures pad < ald && (pos + pad) % ald == alp
  {
    var off := pos + (ald - (alp + 1));
    OrpIs(off, ald, alp);
    Orp(off, ald) + alp - pos
  }

  /** Words from `pos` back to the last such point (`_me_align_dap`). */
  function AlignDap(pos: int, ald: nat, alp: nat): (pad: nat)
    requires alp < ald
    ensures pad < ald && (pad <= pos ==> (pos - pad) % ald == alp)
  {
    if pos >= alp then OrpIs(pos - alp, ald, alp); pos - (Orp(pos - alp, ald) + alp)
    else OrpBelow(pos - alp, ald); pos - (Orp(pos - alp, ald) + alp)
  }

  lemma OrpBelow(off: int, ald: nat)
    requires off < 0 < ald
    ensures Orp(off, ald) + ald <= 0
  {
    var q := off / ald;
    assert off == ald * q + off % ald;
    if q < 0 { NegMul(ald, q); }
  }

  lemma NegMul(d: nat, q: int)
    requires q < 0
    ensures d * q + d <= 0
  {
    if q < -1 { Bits.MulMono(d, 1, -q); assert d * q == -(d * -q); }
  }

  // ---- the cell cache ----

  /** The cached cells: boxes in use once each, linked through the word that `nex_p` takes. */
  predicate Chain(m: Mem, g: Map, x: nat, l: seq<nat>)
    decreases |l|
  {
    if l == [] then x == 0
    else x == l[0] && x > 0 && x !in l[1..] && Used(m, g, x) && m.At(x + 1) == 1 && m.At(x) >= MINIMUM && Chain(m, g, m.At(x + 3), l[1..])
  }

  lemma {:induction false} ChainSame(m: Mem, g: Map, m': Mem, g': Map, x: nat, l: seq<nat>, but: set<nat>)
    requires Chain(m, g, x, l) && Same(m, g, m', g', but) && forall b | b in l :: b !in but
    ensures Chain(m', g', x, l)
    decreases |l|
  {
    if l != [] {
      assert Intact(m, m', x);
      ChainSame(m, g, m', g', m.At(x + 3), l[1..], but);
    }
  }

  /** In use, and a client's. */
  predicate Held(m: Mem, g: Map, l: seq<nat>, b: nat) { Used(m, g, b) && b !in l }

  /** Clients' boxes stay theirs, word for word, but for those in `but`. */
  ghost predicate Client(m: Mem, g: Map, l: seq<nat>, m': Mem, g': Map, l': seq<nat>, but: set<nat>) {
    && |m'.w| == |m.w|
    && (forall b | b !in but :: Held(m, g, l, b) <==> Held(m', g', l', b))
    && (forall b | b !in but && Held(m, g, l, b) :: Intact(m, m', b))
  }

  lemma ClientTwice(m: Mem, g: Map, l: seq<nat>, m1: Mem, g1: Map, l1: seq<nat>, m2: Mem, g2: Map,
          l2: seq<nat>, a: set<nat>, b: set<nat>)
    requires Client(m, g, l, m1, g1, l1, a) && Client(m1, g1, l1, m2, g2, l2, b)
    ensures Client(m, g, l, m2, g2, l2, a + b)
  {
  }

  lemma ClientSame(m: Mem, g: Map, l: seq<nat>, m': Mem, g': Map, but: set<nat>)
    requires Same(m, g, m', g', but)
    ensures Client(m, g, l, m', g', l, but)
  {
  }

  class Road {
    const loom: array<nat>
    const fre: array<nat>
    var rut: nat
    var hat: nat
    var cap: nat
    var cel: nat
    ghost var g: Map
    ghost var cels: seq<nat>

    function M(): (m: Mem)
      reads loom, fre
    {
      Mem(loom[..], fre[..])
    }

    /** `u3a_is_north`. */
    predicate North()
      reads this`cap, this`hat
    {
      cap > hat
    }

    /** The heap lies between the road's rut and its hat, and opens towards its cap. */
    ghost predicate Placed()
      reads this, loom, fre
    {
      && Fit(M(), g) && loom != fre && cap <= loom.Length
      && if North() then g.low == rut && g.high == hat else g.low == hat && g.high == rut
    }

    ghost predicate Valid()
      reads this, loom, fre
    {
      Placed() && g.out == {} && Chain(M(), g, cel, cels)
    }

    /** An empty road. */
    constructor (size: nat, rut_: nat, cap_: nat)
      requires 0 < rut_ <= size && cap_ <= size && rut_ != cap_
      ensures Valid() && rut == hat == rut_ && cap == cap_ && loom.Length == size && g.starts == {} && cels == [] && Merged(M(), g, North())
      ensures fresh(loom) && fresh(fre)
    {
      loom := new nat[size](_ => 0);
      fre := new nat[LISTS](_ => 0);
      rut, hat, cap, cel := rut_, rut_, cap_, 0;
      g, cels := Map(rut_, rut_, {}, {}, map[], 0), [];
    }

    // ---- boxes ----

    method BoxMake(b: nat, siz: nat, use: nat)
      requires siz >= MINIMUM && b + siz <= loom.Length && loom != fre
      modifies loom
      ensures M() == Made(old(M()), b, siz, use)
    {
      loom[b] := siz;
      loom[b + siz - 1] := siz;
      loom[b + 1] := use;
    }

    /** Put a box on the free list for its size. */
    method BoxAttach(b: nat)
      requires b > 0 && b + 3 < loom.Length && fre.Length == LISTS && loom != fre
      requires var nex := M().Head(Slot(loom[b])); nex != 0 ==> nex + 2 < loom.Length
      modifies loom, fre
      ensures M() == Attached(old(M()), b)
    {
      hide SlotFrom;
      ghost var m := M();
      var sel := BoxSlot(loom[b]);
      var nex := fre[sel];
      loom[b + 2] := 0;
      loom[b + 3] := nex;
      if loom[b + 3] != 0 { loom[loom[b + 3] + 2] := b; }
      fre[sel] := b;
    }

    /** Take a box off its free list; its neighbours there are never found corrupt. */
    method BoxDetach(b: nat)
      requires Fit(M(), g) && On(M(), g, b) && loom != fre
      modifies loom, fre
      ensures M() == Detached(old(M()), b)
    {
      hide SlotFrom, Fit;
      ghost var m := M();
      IsLinked(m, g, b);
      InLoom(b);
      var pre, nex := loom[b + 2], loom[b + 3];
      if nex != 0 { InLoom(nex); }
      if pre != 0 { InLoom(pre); }
      SizesOf(m, g);
      FitTiled(m, g);
      if nex != 0 {
        Apart(m, g, nex, 2, b, 0);
        assert loom[nex + 2] == b;
        loom[nex + 2] := pre;
      }
      if pre != 0 {
        assert loom[pre + 3] == b;
        loom[pre + 3] := nex;
      } else {
        var sel := BoxSlot(loom[b]);
        assert b == fre[sel];
        fre[sel] := nex;
      }
    }

    lemma InLoom(b: nat)
      requires Fit(M(), g) && b in g.starts
      ensures 0 < b && b + MINIMUM <= b + M().At(b) <= g.high <= loom.Length && loom[b] == M().At(b) && fre.Length == LISTS
    {
      BoxRoom(M(), g, b);
    }

    lemma Loom(k: int)
      ensures 0 <= k < loom.Length ==> loom[k] == M().At(k)
    {
    }

    /** Let a loose box join the box below it, if that is unused. */
    method JoinBelow(box: nat, ghost top: bool) returns (f: nat)
      requires Fit(M(), g) && loom != fre && g.out == {box} && box != g.low
      modifies loom, fre, this`g
      ensures Fit(M(), g) && g.out == {f} && Same(old(M()), old(g), M(), g, {}) && g.low == old(g.low) && g.high == old(g.high)
      ensures f + M().At(f) == box + old(M()).At(box)
      ensures forall hi :: old(Settled(M(), g, top, box, false, hi)) ==> Settled(M(), g, top, f, true, hi) && (top || f != g.low)
    {
      hide Fit, Same, Settled, Made, Detached, Mem.At, M;
      ghost var m, g0 := M(), g;
      LooseIs(m, g, box);
      FitTiled(m, g);
      InLoom(box);
      ghost var q := PrevIs(m, g, box);
      InLoom(q);
      Loom(box - 1);
      Loom(q + 1);
      var laz := loom[box - 1];
      var pox := box - laz;
      if loom[pox + 1] == 0 {
        JoinFacts(m, g, q, box, box);
        JoinFit(m, g, q, box, box, top);
        forall hi | Settled(m, g, top, box, false, hi) && !top ensures q != g.low { SettledBox(m, g, top, box, false, hi, q); }
        BoxDetach(pox);
        Loom(box);
        var siz := laz + loom[box];
        BoxMake(pox, siz, 0);
        g := g.(starts := g.starts - {box}, out := {pox});
        f := pox;
      } else {
        f := box;
        SameHere(m, g);
        forall hi | Settled(m, g, top, box, false, hi) ensures Settled(m, g, top, box, true, hi) { SettledLow(m, g, top, q, box, hi); }
      }
    }

    /** Let a loose box be joined by the box above it, if that is unused. */
    method JoinAbove(box: nat, ghost top: bool)
      requires Fit(M(), g) && loom != fre && g.out == {box} && box + M().At(box) != g.high
      modifies loom, fre, this`g
      ensures Fit(M(), g) && g.out == {box} && Same(old(M()), old(g), M(), g, {}) && g.low == old(g.low) && g.high == old(g.high)
      ensures
        forall lo :: old(Settled(M(), g, top, box, lo, false)) ==>
          Settled(M(), g, top, box, lo, true) && (top ==> box + M().At(box) != g.high)
    {
      hide Fit, Same, Settled, Made, Detached, Mem.At, M;
      ghost var m := M();
      LooseIs(m, g, box);
      FitTiled(m, g);
      InLoom(box);
      BoxIs(m, g, box);
      var nox := box + loom[box];
      InLoom(nox);
      Loom(nox + 1);
      if loom[nox + 1] == 0 {
        JoinFacts(m, g, box, nox, box);
        JoinFit(m, g, box, nox, box, top);
        forall lo | Settled(m, g, top, box, lo, false) && top ensures nox + m.At(nox) != g.high { SettledBox(m, g, top, box, lo, false, nox); }
        BoxDetach(nox);
        Loom(box);
        Loom(nox);
        BoxMake(box, loom[box] + loom[nox], 0);
        g := g.(starts := g.starts - {nox}, out := {box});
      } else {
        SameHere(m, g);
        forall lo | Settled(m, g, top, box, lo, false) ensures Settled(m, g, top, box, lo, true) { SettledHigh(m, g, top, box, lo); }
      }
    }

    /** Put a loose box, on no list and with no unused neighbours, on its list. */
    method Rest(f: nat, ghost top: bool, ghost was: bool)
      requires Fit(M(), g) && loom != fre && g.out == {f}
      requires was ==> Settled(M(), g, top, f, true, true) && if top then f + M().At(f) != g.high else f != g.low
      modifies loom, fre, this`g
      ensures Fit(M(), g) && g.out == {} && Same(old(M()), old(g), M(), g, {}) && g.low == old(g.low) && g.high == old(g.high)
      ensures was ==> Merged(M(), g, top)
    {
      hide Fit, Same, Settled, Merged, Mem.At, Attached, Slot;
      ghost var m, g0 := M(), g;
      LooseIs(m, g, f);
      FitTiled(m, g);
      InLoom(f);
      Loom(f);
      AttachFit(m, g, f);
      SlotBound(loom[f]);
      if m.Head(Slot(loom[f])) != 0 { HeadIs(m, g, Slot(loom[f])); InLoom(m.Head(Slot(loom[f]))); }
      BoxAttach(f);
      g := AttachedMap(g, f);
      if was {
        SettledAll(m, g0, top, f);
        MergedSame(m, g0, M(), g, top);
      }
    }

    method ReleaseNorth(box: nat)
      requires Placed() && North() && g.out == {box}
      modifies loom, fre, this`g, this`hat
      ensures Placed() && North() && g.out == {} && Same(old(M()), old(g), M(), g, {})
      ensures old(Settled(M(), g, true, box, false, false)) ==> Merged(M(), g, true)
    {
      hide Fit, Same, Settled, Merged, Mem.At, M;
      ghost var m0, g0 := M(), g;
      LooseIs(m0, g0, box);
      InLoom(box);
      var f := box;
      SameHere(m0, g0);
      if box != rut { f := JoinBelow(box, true); } else { LowestSettled(m0, g0, true, box, false); }
      ghost var m1, g1 := M(), g;
      LooseIs(m1, g1, f);
      InLoom(f);
      FitTiled(m1, g1);
      if f + loom[f] == hat {
        ShrinkFit(m1, g1, f, true);
        if Settled(m1, g1, true, f, true, false) { SettledEnd(m1, g1, true, f); }
        hat := f;
        g := Shrunk(m1, g1, f, true);
        SameAgain(m0, g0, m1, g1, M(), g);
      } else {
        JoinAbove(f, true);
        ghost var m2, g2 := M(), g;
        SameAgain(m0, g0, m1, g1, m2, g2);
        Rest(f, true, Settled(m1, g1, true, f, true, false));
        SameAgain(m0, g0, m2, g2, M(), g);
      }
    }

    method ReleaseSouth(box: nat)
      requires Placed() && !North() && g.out == {box}
      modifies loom, fre, this`g, this`hat
      ensures Placed() && !North() && g.out == {} && Same(old(M()), old(g), M(), g, {})
      ensures old(Settled(M(), g, false, box, false, false)) ==> Merged(M(), g, false)
    {
      hide Fit, Same, Settled, Merged, Mem.At, M;
      ghost var m0, g0 := M(), g;
      LooseIs(m0, g0, box);
      InLoom(box);
      SameHere(m0, g0);
      if box + loom[box] != rut { JoinAbove(box, false); } else { HighestSettled(m0, g0, false, box, false); }
      ghost var m1, g1 := M(), g;
      LooseIs(m1, g1, box);
      InLoom(box);
      FitTiled(m1, g1);
      if box == hat {
        ShrinkFit(m1, g1, box, false);
        if Settled(m1, g1, false, box, false, true) { SettledEnd(m1, g1, false, box); }
        hat := box + loom[box];
        g := Shrunk(m1, g1, box, false);
        SameAgain(m0, g0, m1, g1, M(), g);
      } else {
        var f := JoinBelow(box, false);
        ghost var m2, g2 := M(), g;
        SameAgain(m0, g0, m1, g1, m2, g2);
        Rest(f, false, Settled(m1, g1, false, box, false, true));
        SameAgain(m0, g0, m2, g2, M(), g);
      }
    }

    /** `_box_free`: give up a use; a box with no uses left is joined with unused neighbours, and put
        on a free list, or given back if it is at the open end of the heap. */
    method BoxFree(box: nat)
      requires Valid() && Used(M(), g, box) && box !in cels
      modifies loom, fre, this`g, this`hat
      ensures Valid() && North() == old(North()) && Same(old(M()), old(g), M(), g, {box})
      ensures
        var use := old(M()).At(box + 1) - 1;
        if use == 0 then !Used(M(), g, box) else Used(M(), g, box) && M() == old(M()).Put(box + 1, use) && g == old(g)
      ensures old(Merged(M(), g, North())) ==> Merged(M(), g, North())
    {
      hide Fit, Same, Settled, Merged, Mem.At, Chain;
      ghost var m0, g0 := M(), g;
      UsedIs(m0, g0, box);
      InLoom(box);
      Loom(box + 1);
      UseFit(m0, g0, box, loom[box + 1] - 1);
      loom[box + 1] := loom[box + 1] - 1;
      ghost var m1 := M();
      assert m1 == m0.Put(box + 1, m0.At(box + 1) - 1);
      Loom(box + 1);
      if loom[box + 1] != 0 {
        assert g0.out - {box} == {};
        ChainSame(m0, g0, m1, g0, cel, cels, {box});
        if Merged(m0, g0, North()) { SettledIn(m0, g0, m1, g0, North(), box); }
        return;
      }
      g := g0.(out := g0.out + {box});
      assert g.out == {box};
      ghost var g1 := g;
      if Merged(m0, g0, North()) { SettledOut(m0, g0, m1, g1, North(), box); }
      NotUsed(m1, g1, box);
      if North() { ReleaseNorth(box); } else { ReleaseSouth(box); }
      SameFreed(m0, g0, m1, g1, M(), g, box);
      ChainSame(m0, g0, M(), g, cel, cels, {box});
    }

    /** The open end has room for an aligned box of `siz` words. */
    predicate HatRoom(siz: nat, ald: nat, alp: nat)
      requires alp < ald
      reads this`hat, this`cap
    {
      HatNeeds(North(), hat, siz, ald, alp) < if North() then cap - hat else hat - cap
    }

    /** A listed box, or the open end, has room for `len` words at the alignment that is tried first. */
    ghost predicate FirstTry(len: nat, ald: nat, alp: nat)
      requires alp < ald
      reads this, loom, fre
    {
      !NoneRoomy(M(), g, len, ald, (alp + 2) % ald) || HatRoom(BoxSize(len), ald, (alp + 2) % ald)
    }

    // ---- finding a box ----

    /** The first box, on the lists from `first` on, with room for `siz` words once aligned; and where
        the pointer to it is: in box `pre`, or at the head of its list. */
    method Search(siz: nat, first: nat, ald: nat, alp: nat) returns (box: nat, pre: nat, sel: nat)
      requires Fit(M(), g) && g.out == {} && loom != fre && first < LISTS && alp < ald
      ensures box != 0 ==> On(M(), g, box) && first <= sel == Slot(M().At(box)) && Roomy(M(), siz, ald, alp, box) && pre == M().At(box + 2)
      ensures forall b: nat | On(M(), g, b) && first <= Slot(M().At(b)) && (box == 0 || Slot(M().At(b)) < sel) :: !Roomy(M(), siz, ald, alp, b)
    {
      hide Fit, Mem.At, Slot, AlignPad, On;
      ghost var m := M();
      SizesHere();
      sel, pre := first, 0;
      while sel < LISTS
        invariant first <= sel <= LISTS
        invariant forall b: nat | On(m, g, b) && first <= Slot(m.At(b)) < sel :: !Roomy(m, siz, ald, alp, b)
      {
        ListHead(m, g, sel);
        forall b: nat | On(m, g, b) && Slot(m.At(b)) == sel ensures b in ListFrom(m, g, m.Head(sel)) { ListHas(m, g, b); }
        box, pre := fre[sel], 0;
        assert box == m.Head(sel);
        while box != 0
          invariant box != 0 ==> On(m, g, box) && Slot(m.At(box)) == sel && box in g.born && pre == m.At(box + 2)
          invariant forall b: nat | On(m, g, b) && Slot(m.At(b)) == sel :: (if box == 0 then false else b in ListFrom(m, g, box)) || !Roomy(m, siz, ald, alp, b)
          decreases if box == 0 then 0 else g.born[box] + 1
        {
          OnHere(box);
          NextOn(m, g, box);
          Loom(box);
          Loom(box + 3);
          if siz + AlignPad(box, ald, alp) <= loom[box] { return; }
          pre := box;
          box := loom[box + 3];
        }
        sel := sel + 1;
      }
      box := 0;
      forall b: nat | On(m, g, b) && first <= Slot(m.At(b)) ensures !Roomy(m, siz, ald, alp, b) { SlotBound(m.At(b)); }
    }

    /** Take a box found: off its list, and cut off what `siz` leaves over if that makes a box. */
    method Take(box: nat, pre: nat, sel: nat, siz: nat, ghost top: bool)
      requires Fit(M(), g) && g.out == {} && loom != fre && On(M(), g, box)
      requires sel == Slot(M().At(box)) && pre == M().At(box + 2) && MINIMUM <= siz <= M().At(box)
      modifies loom, fre, this`g
      ensures Fit(M(), g) && g.out == {} && Same(old(M()), old(g), M(), g, {box}) && g.low == old(g.low) && g.high == old(g.high)
      ensures Used(M(), g, box) && M().At(box + 1) == 1 && M().At(box) >= siz
      ensures old(Merged(M(), g, top)) ==> Merged(M(), g, top)
    {
      hide Fit, Same, Merged, Mem.At, Slot, Made, Attached, Divided, Settled;
      ghost var m0, g0 := M(), g;
      DetachFit(m0, g0, box);
      Unlink(box, pre, sel);
      g := g.(out := {box});
      ghost var m1, g1 := M(), g;
      assert g1 == g0.(out := g0.out + {box});
      DetachedSized(m0, g0, box);
      FitTiled(m1, g1);
      OnFacts(m0, g0, box);
      InLoom(box);
      Loom(box);
      if Merged(m0, g0, top) { MergedSame(m0, g0, m1, g1, top); }
      if siz + MINIMUM <= loom[box] {
        TakeFront(box, siz);
        ghost var m2, g2 := Divided(m1, box, siz, 1), DividedMap(g1, box, box + siz);
        DivideFit(m1, g1, box, siz, 1);
        DivideHere(m1, g1, box, siz, 1);
        if Merged(m1, g1, top) { LooseIs(m1, g1, box); SettledDivide(m1, g1, top, box, siz, 1); }
        AttachFit(m2, g2, box + siz);
        g := AttachedMap(g2, box + siz);
        FitTiled(m2, g2);
        SizedAt(m2, M(), box);
        if Merged(m2, g2, top) { MergedSame(m2, g2, M(), g, top); }
        SameTwice(m0, g0, m1, g1, m2, g2, {}, {box});
        SameTwice(m0, g0, m2, g2, M(), g, {box}, {});
      } else {
        LooseIs(m1, g1, box);
        Loom(box + 1);
        loom[box + 1] := 1;
        UseFit(m1, g1, box, 1);
        assert M() == m1.Put(box + 1, 1);
        g := g1.(out := {});
        assert g == g1.(out := g1.out - {box});
        if Merged(m1, g1, top) { SettledIn(m1, g1, M(), g, top, box); }
        SameTwice(m0, g0, m1, g1, M(), g, {}, {box});
      }
      assert {} + {box} == {box} && {box} + {} == {box};
    }

    /** Take a box off its list through the pointer to it. */
    method Unlink(box: nat, pre: nat, sel: nat)
      requires Fit(M(), g) && On(M(), g, box) && loom != fre && sel == Slot(M().At(box)) && pre == M().At(box + 2)
      modifies loom, fre
      ensures M() == Detached(old(M()), box)
    {
      hide SlotFrom, Fit;
      ghost var m := M();
      IsLinked(m, g, box);
      InLoom(box);
      var nex := loom[box + 3];
      if nex != 0 { InLoom(nex); }
      if pre != 0 { InLoom(pre); }
      SizesOf(m, g);
      FitTiled(m, g);
      assert pre != 0 ==> loom[pre + 3] == box;
      assert nex != 0 ==> loom[nex + 2] == box;
      if nex != 0 {
        Apart(m, g, nex, 2, box, 3);
        loom[nex + 2] := loom[box + 2];
      }
      if pre == 0 { fre[sel] := loom[box + 3]; } else { loom[pre + 3] := loom[box + 3]; }
    }

    /** Cut off the end of a loose box, put it on its list, and make the front a box in use. */
    method TakeFront(box: nat, siz: nat)
      requires Fit(M(), g) && g.out == {box} && loom != fre && MINIMUM <= siz && siz + MINIMUM <= M().At(box)
      modifies loom, fre
      ensures M() == Attached(Divided(old(M()), box, siz, 1), box + siz)
    {
      hide Fit, Mem.At, Slot, Attached;
      ghost var m := M();
      LooseIs(m, g, box);
      InLoom(box);
      Loom(box);
      var end, lef := box + siz, loom[box] - siz;
      BoxMake(end, lef, 0);
      ghost var m1 := M();
      EndSize(m, end, lef);
      EndHead(m, m1, g, box, end);
      Loom(end);
      BoxAttach(end);
      AttachEarly(m1, box, siz, 1, end);
      BoxMake(box, siz, 1);
      DividedIs(m, box, siz, 1);
    }

    // ---- the open end of the heap ----

    /** A new box at the open end, if the road has more than its room to spare; 0 if not
        (`_ca_box_make_hat`). Its box is aligned, or will be with its padding. */
    method MakeHat(len: nat, ald: nat, alp: nat) returns (box: nat, ghost pad: nat)
      requires Valid() && len >= MINIMUM && alp < ald
      modifies loom, this`hat, this`g
      ensures Valid() && North() == old(North()) && pad < ald
      ensures box == 0 <==> !old(HatRoom(len, ald, alp))
      ensures box == 0 ==> M() == old(M()) && g == old(g) && hat == old(hat) && (if North() then cap - hat else hat - cap) <= len + ald
      ensures box != 0 ==> Given(old(M()), old(g), cels, M(), g, cels, box) && M().At(box) >= len + pad && (box + pad) % ald == alp
      ensures old(Merged(M(), g, North())) ==> Merged(M(), g, North())
    {
      hide Fit, Same, Merged, Mem.At, Made, AlignPad, AlignDap, Chain, Grown, NewAt, Client;
      ghost var m, g0, top := M(), g, North();
      HeapBounds(m, g);
      var all, siz: nat;
      if North() {
        pad := AlignPad(hat, ald, alp);
        siz := len + AlignPad(hat, ald, alp);
        if siz >= cap - hat { return 0, 0; }
        all := hat;
        hat := hat + siz;
      } else {
        pad := 0;
        siz := len + AlignDap(hat - len, ald, alp);
        if siz >= hat - cap { return 0, 0; }
        all := hat - siz;
        hat := all;
      }
      GrowFit(m, g0, siz, top);
      GrowIs(m, g0, siz, top);
      if Merged(m, g0, top) { SettledGrow(m, g0, siz, top); }
      BoxMake(all, siz, 1);
      box := all;
      g := Grown(g0, siz, top);
      GrowHere(m, g0, siz, top);
      NotCached(m, g0, cel, cels, box);
      ChainSame(m, g0, M(), g, cel, cels, {box});
      ClientSame(m, g0, cels, M(), g, {box});
    }

    /** Give cached cells back to the heap, 1024 at most (`u3a_reflux`). */
    method Reflux()
      requires Valid()
      modifies loom, fre, this`g, this`hat, this`cel, this`cels
      ensures Valid() && North() == old(North()) && Client(old(M()), old(g), old(cels), M(), g, cels, {})
      ensures |cels| == if |old(cels)| > 1024 then |old(cels)| - 1024 else 0
      ensures old(Merged(M(), g, North())) ==> Merged(M(), g, North())
    {
      hide Fit, Same, Merged, Mem.At, Chain, Client, Intact;
      ghost var m0, g0, l0 := M(), g, cels;
      ClientSelf(m0, g0, l0);
      for i := 0 to 1024
        invariant Valid() && North() == old(North()) && Client(m0, g0, l0, M(), g, cels, {})
        invariant |cels| == |l0| - i
        invariant old(Merged(M(), g, North())) ==> Merged(M(), g, North())
      {
        ChainFirst(M(), g, cel, cels);
        if cel == 0 { return; }
        ghost var m, g1, l := M(), g, cels;
        var box := cel;
        InLoom(box);
        Loom(box + 3);
        cel := loom[box + 3];
        cels := cels[1..];
        BoxFree(box);
        CacheFreed(m, g1, l, M(), g, box);
        ClientBoth(m0, g0, l0, m, g1, l, M(), g, cels);
      }
    }

    /** A box for `len` words of data, aligned so that they can begin at `alp` modulo `ald`
        (`_ca_willoc`); 0 if there is none, which ends the computation. When the heap is full it is
        tried again with the cells of the cache, having put the header into `alp` once more. */
    method Willoc(len: nat, ald: nat, alp: nat) returns (box: nat, ghost pad: nat, ghost tries: nat)
      requires Valid() && alp < ald
      modifies loom, fre, this`g, this`hat, this`cel, this`cels
      ensures Valid() && North() == old(North()) && pad < ald
      ensures
        box == 0 ==>
          && Client(old(M()), old(g), old(cels), M(), g, cels, {}) && cels == []
          && NoneRoomy(M(), g, len, ald, (alp + 2 + 2 * tries) % ald) && !HatRoom(BoxSize(len), ald, (alp + 2 + 2 * tries) % ald)
          && (if North() then cap - hat else hat - cap) <= BoxSize(len) + ald
      ensures tries == 0 <==> old(FirstTry(len, ald, alp)) || old(cels) == []
      ensures old(FirstTry(len, ald, alp)) ==> box != 0
      ensures |cels| == (if |old(cels)| > 1024 * tries then |old(cels)| - 1024 * tries else 0) && 1024 * tries < |old(cels)| + 1024
      ensures tries == 0 && box != 0 && !old(On(M(), g, box)) ==> NoneRoomy(old(M()), old(g), len, ald, (alp + 2) % ald)
      ensures box != 0 ==> Given(old(M()), old(g), old(cels), M(), g, cels, box)
      ensures box != 0 ==> M().At(box) >= len + 3 + pad && M().At(box) >= MINIMUM + pad
      ensures box != 0 ==> (box + 2 + pad) % ald == (alp + 4 + 2 * tries) % ald
      ensures old(Merged(M(), g, North())) ==> Merged(M(), g, North())
      decreases |cels|
    {
      hide Fit, Same, Merged, Mem.At, Chain, Client, Intact, Given, Roomy, On, Slot, Used, Settled, NoneRoomy, HatRoom, HatNeeds,
        AlignPad, AlignDap, Held;
      ghost var m, g0, l := M(), g, cels;
      var siz := BoxSize(len);
      var sel := BoxSlot(siz);
      if sel != 0 && sel != LISTS - 1 { sel := sel + 1; }
      var alp1 := (alp + 2) % ald;
      tries := 0;
      var pre, at: nat;
      box, pre, at := Search(siz, sel, ald, alp1);
      if box != 0 {
        pad := AlignPad(box, ald, alp1);
        RoomyIs(m, siz, ald, alp1, box);
        SomeRoomy(m, g0, len, ald, alp1, box);
        Take(box, pre, at, siz + AlignPad(box, ald, alp1), North());
        TakenGiven(m, g0, cel, l, M(), g, box);
        Realigned(box + pad, ald, alp);
        return;
      }
      assert sel == FirstList(BoxSize(len)) && M() == m;
      NoneRoomyIs(m, g0, len, ald, alp1);
      box, pad := MakeHat(siz, ald, alp1);
      if box != 0 {
        Realigned(box + pad, ald, alp);
        return;
      }
      ClientSelf(m, g0, l);
      ChainFirst(M(), g, cel, cels);
      if cel == 0 { return 0, 0, 0; }
      Reflux();
      ghost var m1, g1, l1 := M(), g, cels;
      box, pad, tries := Willoc(len, ald, alp1);
      tries := tries + 1;
      if box == 0 {
        ClientBoth(m, g0, l, m1, g1, l1, M(), g, cels);
        RetriedAt(ald, alp, tries);
      } else {
        GivenLater(m, g0, l, m1, g1, l1, M(), g, cels, box);
        Retried(ald, alp, tries);
      }
    }

    // ---- byte allocation ----

    /** Words at a multiple of four (`u3a_malloc`), with how far they are into their box just below
        them. They fit the box if the first try finds one, which it does whenever there is room at its
        alignment; on an odd retry the alignment asked for and the one used differ by two. */
    method Malloc(len: nat) returns (out: nat, ghost box: nat, ghost pad: nat, ghost tries: nat)
      requires Valid()
      modifies loom, fre, this`g, this`hat, this`cel, this`cels
      ensures Valid() && North() == old(North()) && pad < 4
      ensures out == 0 ==> Client(old(M()), old(g), old(cels), M(), g, cels, {}) && cels == []
      ensures out != 0 ==> Given(old(M()), old(g), old(cels), M(), g, cels, box) && out % 4 == 0 && M().At(out - 1) == out - 3 - box
      ensures out != 0 ==> box + 3 <= out < box + 7 && M().At(box) >= len + 4 + pad
      ensures tries == 0 <==> old(FirstTry(len + 1, 4, 3)) || old(cels) == []
      ensures old(FirstTry(len + 1, 4, 3)) ==> out != 0
      ensures |cels| == (if |old(cels)| > 1024 * tries then |old(cels)| - 1024 * tries else 0) && 1024 * tries < |old(cels)| + 1024
      ensures out != 0 && (tries % 2 == 0 || old(FirstTry(len + 1, 4, 3))) ==> out + len <= box + M().At(box) - 1
      ensures out == 0 ==> !HatRoom(BoxSize(len + 1), 4, (5 + 2 * tries) % 4)
      ensures out != 0 && M().At(box) == len + 4 + pad ==> (out + len <= box + M().At(box) - 1 <==> tries % 2 == 0 || pad >= 2)
      ensures old(Merged(M(), g, North())) ==> Merged(M(), g, North())
    {
      hide Fit, Merged, Mem.At, Chain, Client, Intact, Given, AlignPad, FirstTry, HatRoom, HatNeeds, NoneRoomy, Same, Slot;
      ghost var m, g0, l := M(), g, cels;
      box, pad, tries := 0, 0, 0;
      var b: nat;
      b, pad, tries := Willoc(len + 1, 4, 3);
      box := b;
      if b == 0 { return 0, 0, 0, tries; }
      ghost var m1 := M();
      HeldIs(m, g0, l, m1, g, cels, b);
      HeldNot(b);
      InLoom(b);
      var ptr := b + 2;
      var pad2 := AlignPad(ptr, 4, 3);
      out := ptr + pad2 + 1;
      PadAgain(ptr, pad, pad2, tries);
      Note(b, out - 1, pad2);
      GivenWritten(m, g0, l, m1, g, cels, M(), b);
    }

    /** Write a word of a client's data. */
    method Note(b: nat, at: nat, pad: nat)
      requires Valid() && Used(M(), g, b) && b !in cels && b + 2 <= at < b + M().At(b) - 1
      modifies loom
      ensures Valid() && Same(old(M()), g, M(), g, {b}) && M() == old(M()).Put(at, pad)
      ensures M().At(b) == old(M()).At(b) && M().At(b + 1) == old(M()).At(b + 1) && M().At(at) == pad
      ensures old(Merged(M(), g, North())) ==> Merged(M(), g, North())
    {
      hide Fit, Merged, Chain, Mem.At, Same;
      ghost var m := M();
      InLoom(b);
      DataFit(m, g, b, at, pad);
      loom[at] := pad;
      assert M() == m.Put(at, pad);
      ChainSame(m, g, M(), g, cel, cels, {b});
      if Merged(m, g, North()) { MergedSame(m, g, M(), g, North()); }
    }

    lemma HeldNot(b: nat)
      requires Held(M(), g, cels, b)
      ensures b !in cels
    {
    }

    /** `u3a_free`. */
    method Free(out: nat)
      requires Valid()
      requires out != 0 ==> out >= 3 + M().At(out - 1) && out <= loom.Length && Held(M(), g, cels, out - 3 - M().At(out - 1))
      modifies loom, fre, this`g, this`hat
      ensures Valid() && North() == old(North())
      ensures out == 0 ==> M() == old(M()) && g == old(g) && hat == old(hat)
      ensures
        out != 0 ==>
          var box := out - 3 - old(M()).At(out - 1);
          && Same(old(M()), old(g), M(), g, {box})
          && (old(M()).At(box + 1) == 1 ==> !Used(M(), g, box))
      ensures old(Merged(M(), g, North())) ==> Merged(M(), g, North())
    {
      if out == 0 { return; }
      hide Fit, Merged, Same, Chain;
      var pad := loom[out - 1];
      var org := out - (pad + 1);
      BoxFree(org - 2);
    }

    // ---- cells ----

    /** One more cell at the open end, put on the cache. */
    method NewCell(at: nat, c: nat, ghost top: bool)
      requires loom != fre && Fit(M(), g) && g.out == {} && Growable(M(), g, MINIMUM, top) && at == NewAt(g, MINIMUM, top)
      requires Chain(M(), g, c, cels)
      modifies loom, this`g, this`cels
      ensures Fit(M(), g) && g.out == {} && Chain(M(), g, at, cels) && cels == [at] + old(cels)
      ensures if top then g.low == old(g.low) && g.high == old(g.high) + MINIMUM else g.low == old(g.low) - MINIMUM && g.high == old(g.high)
      ensures Client(old(M()), old(g), old(cels), M(), g, cels, {})
      ensures old(Merged(M(), g, top)) ==> Merged(M(), g, top)
    {
      hide Fit, Merged, Mem.At, Chain, Client, Grown, NewAt, Growable, Same;
      ghost var m, g0, l := M(), g, cels;
      GrowFit(m, g0, MINIMUM, top);
      GrowRoom(m, g0, MINIMUM, top);
      GrowIs(m, g0, MINIMUM, top);
      if Merged(m, g0, top) { SettledGrow(m, g0, MINIMUM, top); }
      BoxMake(at, MINIMUM, 1);
      g := Grown(g0, MINIMUM, top);
      ghost var m1 := M();
      GrowHere(m, g0, MINIMUM, top);
      NotIn(m, g0, at);
      NotCached(m, g0, c, l, at);
      ChainSame(m, g0, m1, g, c, l, {at});
      DataFit(m1, g, at, at + 3, c);
      loom[at + 3] := c;
      assert M() == m1.Put(at + 3, c);
      ChainSame(m1, g, M(), g, c, l, {at});
      if Merged(m1, g, top) { MergedSame(m1, g, M(), g, top); }
      cels := [at] + l;
      Cached(m, g0, l, m1, M(), g, at, c);
    }

    /** Add a block of cells at the open end to the cache, if there is room for all of them. */
    method CellBlock(num: nat) returns (ok: bool)
      requires Valid()
      modifies loom, this`g, this`hat, this`cel, this`cels
      ensures Valid() && North() == old(North()) && Client(old(M()), old(g), old(cels), M(), g, cels, {})
      ensures ok <==> if old(North()) then cap > old(hat) + num * MINIMUM else cap + num * MINIMUM < old(hat)
      ensures if !ok then hat == old(hat) else if old(North()) then hat == old(hat) + num * MINIMUM else hat + num * MINIMUM == old(hat)
      ensures |cels| == |old(cels)| + if ok then num else 0
      ensures old(Merged(M(), g, North())) ==> Merged(M(), g, North())
    {
      hide Fit, Merged, Mem.At, Chain, Client, Grown;
      ghost var m0, g0, l0 := M(), g, cels;
      ClientSelf(m0, g0, l0);
      HeapBounds(m0, g0);
      var h: nat, c: nat := hat, cel;
      if North() {
        if cap <= hat + num * MINIMUM { return false; }
        for i := 0 to num
          modifies loom, this`g, this`cels
          invariant loom != fre && Fit(M(), g) && g.out == {} && g.low == rut && g.high == h && h == hat + i * MINIMUM
          invariant Chain(M(), g, c, cels) && Client(m0, g0, l0, M(), g, cels, {}) && |cels| == |l0| + i
          invariant Merged(m0, g0, true) ==> Merged(M(), g, true)
        {
          ghost var m, g1, l := M(), g, cels;
          NewCell(h, c, true);
          c, h := h, h + MINIMUM;
          ClientBoth(m0, g0, l0, m, g1, l, M(), g, cels);
        }
      } else {
        if cap + num * MINIMUM >= hat { return false; }
        for i := 0 to num
          modifies loom, this`g, this`cels
          invariant loom != fre && Fit(M(), g) && g.out == {} && g.high == rut && g.low == h && h == hat - i * MINIMUM
          invariant Chain(M(), g, c, cels) && Client(m0, g0, l0, M(), g, cels, {}) && |cels| == |l0| + i
          invariant Merged(m0, g0, false) ==> Merged(M(), g, false)
        {
          ghost var m, g1, l := M(), g, cels;
          NewCell(h - MINIMUM, c, false);
          c, h := h - MINIMUM, h - MINIMUM;
          ClientBoth(m0, g0, l0, m, g1, l, M(), g, cels);
        }
      }
      hat, cel := h, c;
      ok := true;
    }

    /** A box for a cell, from the cache if there is one (`u3a_celloc`); the home road has no cache. */
    method Celloc(home: bool, block: nat) returns (box: nat)
      requires Valid() && block > 0
      modifies loom, fre, this`g, this`hat, this`cel, this`cels
      ensures Valid() && North() == old(North())
      ensures box == 0 ==> Client(old(M()), old(g), old(cels), M(), g, cels, {}) && cels == []
      ensures box != 0 ==> Given(old(M()), old(g), old(cels), M(), g, cels, box) && M().At(box) >= MINIMUM
      ensures old(cels) != [] ==> box == old(cel) && M() == old(M()) && g == old(g) && hat == old(hat)
      ensures old(Merged(M(), g, North())) ==> Merged(M(), g, North())
    {
      hide Fit, Merged, Mem.At, Chain, Client, Given;
      ghost var m, g0, l := M(), g, cels;
      ClientSelf(m, g0, l);
      ChainFirst(m, g0, cel, l);
      if cel == 0 {
        var more := false;
        if !home { more := CellBlock(block); }
        if !more {
          ghost var m1, g1, l1 := M(), g, cels;
          ghost var pad, tries;
          box, pad, tries := Willoc(3, 1, 0);
          if box == 0 { ClientBoth(m, g0, l, m1, g1, l1, M(), g, cels); } else { GivenLater(m, g0, l, m1, g1, l1, M(), g, cels, box); }
          return;
        }
      }
      ghost var m1, g1, l1 := M(), g, cels;
      ChainFirst(m1, g1, cel, l1);
      box := cel;
      InLoom(box);
      Loom(box + 1);
      Loom(box + 3);
      loom[box + 1] := 1;
      assert loom[..] == m1.w;
      assert M() == m1;
      cel := loom[box + 3];
      cels := cels[1..];
      Uncached(m1, g1, l1, box);
      GivenLater(m, g0, l, m1, g1, l1, M(), g, cels, box);
    }

    /** Give a cell up, to the cache or, on the home road, to the heap (`u3a_cfree`). */
    method Cfree(box: nat, home: bool)
      requires Valid() && Held(M(), g, cels, box) && M().At(box + 1) == 1
      modifies loom, fre, this`g, this`hat, this`cel, this`cels
      ensures Valid() && North() == old(North()) && Client(old(M()), old(g), old(cels), M(), g, cels, {box}) && !Held(M(), g, cels, box)
      ensures !home ==> cels == [box] + old(cels) && Used(M(), g, box)
      ensures old(Merged(M(), g, North())) ==> Merged(M(), g, North())
    {
      hide Fit, Merged, Mem.At, Chain, Client;
      ghost var m, g0, l := M(), g, cels;
      HeldNot(box);
      if home {
        BoxFree(box);
        ClientSame(m, g0, l, M(), g, {box});
        return;
      }
      InLoom(box);
      DataFit(m, g, box, box + 3, cel);
      loom[box + 3] := cel;
      assert M() == m.Put(box + 3, cel);
      ChainSame(m, g, M(), g, cel, l, {box});
      if Merged(m, g, North()) { MergedSame(m, g, M(), g, North()); }
      ClientSame(m, g, l, M(), g, {box});
      CachedToo(m, g, l, M(), box, cel);
      cel := box;
      cels := [box] + cels;
    }

    // ---- giving back the end of a box ----

    /** Make the end of a box in use a box of its own, on its list, and cut the box short. */
    method CutEnd(box: nat, asz: nat)
      requires Fit(M(), g) && loom != fre && Used(M(), g, box) && MINIMUM <= asz && asz + MINIMUM <= M().At(box)
      modifies loom, fre
      ensures M() == Attached(Divided(old(M()), box, asz, old(M()).At(box + 1)), box + asz)
    {
      hide Fit, Mem.At, Attached, Made, Slot;
      ghost var m := M();
      InLoom(box);
      Loom(box);
      var end, bsz := box + asz, loom[box] - asz;
      ghost var use := m.At(box + 1);
      FitTiled(m, g);
      BoxMake(end, bsz, 0);
      ghost var m1 := M();
      EndSize(m, end, bsz);
      EndHead(m, m1, g, box, end);
      Loom(end);
      BoxAttach(end);
      AttachEarly(m1, box, asz, use, end);
      DividedIs(m, box, asz, use);
      KeepWord(m, end, bsz, box + 1);
      MadeUse(Attached(m1, end), box, asz, use);
      loom[box] := asz;
      loom[box + asz - 1] := asz;
      assert M() == Attached(m1, end).Put(box, asz).Put(box + asz - 1, asz);
    }

    /** `u3a_wtrim`: keep the first `len` of `old_` words of data, and give the rest back as a box of its
        own if they make one. It is not joined with what follows it. */
    method Trim(box: nat, old_: nat, len: nat)
      requires Valid() && Held(M(), g, cels, box) && old_ + 3 <= M().At(box) && len + 3 >= MINIMUM
      modifies loom, fre, this`g
      ensures Valid() && North() == old(North()) && Client(old(M()), old(g), cels, M(), g, cels, {box}) && Held(M(), g, cels, box)
      ensures
        if old_ >= len + MINIMUM then M().At(box) == len + 3 && On(M(), g, box + len + 3) && g.starts == old(g.starts) + {box + len + 3}
        else M() == old(M()) && g == old(g)
      ensures M().At(box + 1) == old(M()).At(box + 1) && forall k: nat | box + 2 <= k < box + 2 + len && k < box + M().At(box) - 1 :: M().At(k) == old(M()).At(k)
    {
      hide Fit, Mem.At, Chain, Client, Attached, Divided, Same, On;
      ghost var m, g0 := M(), g;
      HeldNot(box);
      ClientNone(m, g, cels, {box});
      if old_ > len && old_ - len >= MINIMUM {
        var asz := len + 3;
        ghost var end, use := box + asz, m.At(box + 1);
        DivideFit(m, g, box, asz, use);
        DivideHere(m, g, box, asz, use);
        ghost var m2, g2 := Divided(m, box, asz, use), DividedMap(g0, box, end);
        AttachFit(m2, g2, end);
        CutEnd(box, asz);
        g := AttachedMap(g2, end);
        TrimSame(m, g0, m2, g2, M(), g, box, end);
        ChainSame(m, g0, M(), g, cel, cels, {box});
        ClientSame(m, g0, cels, M(), g, {box});
      }
    }

    lemma SizesHere()
      requires Fit(M(), g)
      ensures fre.Length == LISTS
    {
    }

    lemma OnHere(b: nat)
      requires Fit(M(), g) && On(M(), g, b)
      ensures 0 < b && b + MINIMUM <= b + M().At(b) <= g.high <= loom.Length
    {
      InLoom(b);
    }
  }

  /** The box has room for `siz` words from where they would be aligned. */
  predicate Roomy(m: Mem, siz: nat, ald: nat, alp: nat, b: nat)
    requires alp < ald
  {
    siz + AlignPad(b, ald, alp) <= m.At(b)
  }

  lemma ListHead(m: Mem, g: Map, k: nat)
    requires Fit(m, g) && k < LISTS
    ensures
      var h := m.Head(k);
      h != 0 ==> On(m, g, h) && Slot(m.At(h)) == k && m.At(h + 2) == 0 && h in g.born
  {
    hide Fit, Slot;
    if m.Head(k) != 0 { HeadIs(m, g, k); }
  }

  lemma NextOn(m: Mem, g: Map, b: nat)
    requires Fit(m, g) && On(m, g, b)
    ensures
      var n := m.At(b + 3);
      && b in g.born && ListFrom(m, g, b) == [b] + (if n == 0 then [] else assert On(m, g, n) by { IsLinked(m, g, b); } ListFrom(m, g, n))
      && (n != 0 ==> On(m, g, n) && Slot(m.At(n)) == Slot(m.At(b)) && m.At(n + 2) == b && n in g.born && g.born[n] < g.born[b])
  {
    hide Fit, Slot;
    IsLinked(m, g, b);
  }

  lemma OnFacts(m: Mem, g: Map, b: nat)
    requires On(m, g, b)
    ensures b in g.starts && b !in g.out && m.At(b + 1) == 0
  {
  }

  lemma DetachedSized(m: Mem, g: Map, x: nat)
    requires Fit(m, g) && On(m, g, x)
    ensures forall b | b in g.starts :: Sized(m, Detached(m, x), b)
    ensures Detached(m, x).At(x) == m.At(x)
  {
    hide Fit, Detached;
    forall b | b in g.starts ensures Sized(m, Detached(m, x), b) { DetachSized(m, g, x, b); }
    DetachSized(m, g, x, x);
  }

  lemma SizedAt(m: Mem, m': Mem, b: nat)
    requires Sized(m, m', b)
    ensures m'.At(b) == m.At(b) && m'.At(b + 1) == m.At(b + 1)
  {
  }

  lemma EndSize(m: Mem, end: nat, lef: nat)
    requires end + lef <= |m.w| && lef >= MINIMUM
    ensures Made(m, end, lef, 0).At(end) == lef && |Made(m, end, lef, 0).w| == |m.w| && Made(m, end, lef, 0).fre == m.fre
  {
  }

  /** The list a box's end goes to is headed by another box. */
  lemma EndHead(m: Mem, m1: Mem, g: Map, box: nat, end: nat)
    requires Fit(m, g) && box in g.starts && !On(m, g, box) && box < end && end + MINIMUM <= box + m.At(box) && m1.fre == m.fre
    ensures |m.fre| == LISTS
    ensures
      var nex := m1.Head(Slot(m1.At(end)));
      nex != 0 ==> nex + 2 < |m.w| && nex + 2 != box && nex + 2 != box + 1 && nex + 2 != end - 1
  {
    hide Fit, Slot;
    SizesOf(m, g);
    FitTiled(m, g);
    BoxRoom(m, g, box);
    var k := Slot(m1.At(end));
    SlotBound(m1.At(end));
    var nex := m1.Head(k);
    if nex != 0 {
      assert nex == m.Head(k);
      HeadIs(m, g, k);
      BoxRoom(m, g, nex);
      Apart(m, g, nex, 2, box, 0);
      Apart(m, g, nex, 2, box, 1);
      Apart(m, g, nex, 2, box, end - 1 - box);
    }
  }

  lemma DividedIs(m: Mem, x: nat, a: nat, use: nat)
    requires a <= m.At(x)
    ensures Divided(m, x, a, use) == Made(Made(m, x + a, m.At(x) - a, 0), x, a, use)
  {
  }

  /** A box that no client had is given to one; the others keep theirs. */
  ghost predicate Given(m: Mem, g: Map, l: seq<nat>, m': Mem, g': Map, l': seq<nat>, box: nat) {
    box > 0 && !Held(m, g, l, box) && Held(m', g', l', box) && m'.At(box + 1) == 1 && Client(m, g, l, m', g', l', {box})
  }

  lemma HeapBounds(m: Mem, g: Map)
    requires Fit(m, g)
    ensures 0 < g.low <= g.high <= |m.w|
  {
  }

  lemma GrowIs(m: Mem, g: Map, siz: nat, top: bool)
    requires siz < g.low || top
    ensures NewAt(g, siz, top) == if top then g.high else g.low - siz
    ensures var g' := Grown(g, siz, top); g'.out == g.out && (if top then g'.low == g.low && g'.high == g.high + siz else g'.low == g.low - siz && g'.high == g.high)
  {
  }

  /** What is not in use is not in the cell cache. */
  lemma {:induction false} NotCached(m: Mem, g: Map, x: nat, l: seq<nat>, b: nat)
    requires Chain(m, g, x, l) && !Used(m, g, b)
    ensures b !in l
    decreases |l|
  {
    if l != [] { NotCached(m, g, m.At(x + 3), l[1..], b); }
  }

  lemma ClientSelf(m: Mem, g: Map, l: seq<nat>)
    ensures Client(m, g, l, m, g, l, {})
  {
  }

  lemma ClientBoth(m: Mem, g: Map, l: seq<nat>, m1: Mem, g1: Map, l1: seq<nat>, m2: Mem, g2: Map, l2: seq<nat>)
    requires Client(m, g, l, m1, g1, l1, {}) && Client(m1, g1, l1, m2, g2, l2, {})
    ensures Client(m, g, l, m2, g2, l2, {})
  {
    ClientTwice(m, g, l, m1, g1, l1, m2, g2, l2, {}, {});
  }

  /** The first cached cell is a box in use, and no other cached one. */
  lemma ChainFirst(m: Mem, g: Map, x: nat, l: seq<nat>)
    requires Chain(m, g, x, l)
    ensures x == 0 <==> l == []
    ensures x != 0 ==> l[0] == x && Used(m, g, x) && x in g.starts && m.At(x + 1) == 1 && x !in l[1..] && Chain(m, g, m.At(x + 3), l[1..])
  {
  }

  /** A cached cell was freed. */
  lemma CacheFreed(m: Mem, g: Map, l: seq<nat>, m': Mem, g': Map, box: nat)
    requires Same(m, g, m', g', {box}) && !Used(m', g', box) && l != [] && l[0] == box
    ensures Client(m, g, l, m', g', l[1..], {})
  {
  }

  lemma RoomyIs(m: Mem, siz: nat, ald: nat, alp: nat, b: nat)
    requires alp < ald && Roomy(m, siz, ald, alp, b)
    ensures siz + AlignPad(b, ald, alp) <= m.At(b)
  {
  }

  /** A listed box that was taken is given. */
  lemma TakenGiven(m: Mem, g: Map, x: nat, l: seq<nat>, m': Mem, g': Map, box: nat)
    requires Fit(m, g) && On(m, g, box) && Chain(m, g, x, l) && Same(m, g, m', g', {box}) && Used(m', g', box) && m'.At(box + 1) == 1
    ensures Given(m, g, l, m', g', l, box) && Chain(m', g', x, l)
  {
    hide Fit, Chain;
    NotUsed(m, g, box);
    NotCached(m, g, x, l, box);
    ChainSame(m, g, m', g', x, l, {box});
    ClientSame(m, g, l, m', g', {box});
    IsLinked(m, g, box);
  }

  lemma GivenLater(m: Mem, g: Map, l: seq<nat>, m1: Mem, g1: Map, l1: seq<nat>, m2: Mem, g2: Map, l2: seq<nat>,
          box: nat)
    requires Client(m, g, l, m1, g1, l1, {}) && Given(m1, g1, l1, m2, g2, l2, box)
    ensures Given(m, g, l, m2, g2, l2, box)
  {
    ClientTwice(m, g, l, m1, g1, l1, m2, g2, l2, {}, {box});
    assert {} + {box} == {box};
  }

  lemma ModAdd(a: nat, b: nat, d: nat)
    requires d > 0
    ensures (a % d + b) % d == (a + b) % d
  {
    var q, r := a / d, a % d;
    var q2, r2 := (r + b) / d, (r + b) % d;
    assert a + b == d * q + d * q2 + r2;
    assert d * q + d * q2 == d * (q + q2);
    Bits.DivUnique(a + b, d, q + q2, r2);
  }

  /** A point at `alp` and the header is, past the header, at `alp` and the header twice. */
  lemma Realigned(p: nat, ald: nat, alp: nat)
    requires alp < ald && p % ald == (alp + 2) % ald
    ensures (p + 2) % ald == (alp + 4) % ald
  {
    ModAdd(p, 2, ald);
    ModAdd(alp + 2, 2, ald);
  }

  lemma Retried(ald: nat, alp: nat, tries: nat)
    requires alp < ald && tries > 0
    ensures ((alp + 2) % ald + 4 + 2 * (tries - 1)) % ald == (alp + 4 + 2 * tries) % ald
  {
    ModAdd(alp + 2, 4 + 2 * (tries - 1), ald);
  }

  lemma HeldIs(m: Mem, g: Map, l: seq<nat>, m': Mem, g': Map, l': seq<nat>, box: nat)
    requires Given(m, g, l, m', g', l', box)
    ensures Held(m', g', l', box) && box in g'.starts && box > 0 && m'.At(box + 1) == 1
  {
  }

  lemma GivenWritten(m: Mem, g: Map, l: seq<nat>, m1: Mem, g1: Map, l1: seq<nat>, m2: Mem, box: nat)
    requires Given(m, g, l, m1, g1, l1, box) && Same(m1, g1, m2, g1, {box}) && m2.At(box + 1) == 1
    ensures Given(m, g, l, m2, g1, l1, box)
  {
  }

  lemma NotIn(m: Mem, g: Map, b: nat)
    requires b !in g.starts
    ensures !Used(m, g, b)
  {
  }

  /** A new box is put on the cell cache. */
  lemma Cached(m: Mem, g: Map, l: seq<nat>, m1: Mem, m2: Mem, g2: Map, at: nat, c: nat)
    requires Same(m, g, m1, g2, {at}) && Same(m1, g2, m2, g2, {at}) && !Used(m, g, at) && at !in l && at > 0 && Used(m2, g2, at)
    requires m2.At(at + 1) == 1 && m2.At(at) >= MINIMUM && m2.At(at + 3) == c && Chain(m2, g2, c, l)
    ensures Client(m, g, l, m2, g2, [at] + l, {}) && Chain(m2, g2, at, [at] + l)
  {
    SameTwice(m, g, m1, g2, m2, g2, {at}, {at});
    assert ([at] + l)[1..] == l;
  }

  lemma Uncached(m: Mem, g: Map, l: seq<nat>, box: nat)
    requires l != [] && box == l[0] && box !in l[1..] && Used(m, g, box) && m.At(box + 1) == 1 && box > 0
    ensures Given(m, g, l, m, g, l[1..], box)
  {
    assert l == [box] + l[1..];
  }

  /** The padding found by `u3a_malloc` is that of its box, or after an odd number of retries two off. */
  lemma PadAgain(ptr: nat, pad: nat, pad2: nat, tries: nat)
    requires pad < 4 && pad2 < 4 && (ptr + pad) % 4 == (3 + 4 + 2 * tries) % 4 && (ptr + pad2) % 4 == 3
    ensures pad2 == if tries % 2 == 0 then pad else (pad + 2) % 4
  {
  }

  lemma CachedToo(m: Mem, g: Map, l: seq<nat>, m2: Mem, box: nat, c: nat)
    requires Client(m, g, l, m2, g, l, {box}) && Held(m2, g, l, box) && box > 0
    requires m2.At(box + 1) == 1 && m2.At(box) >= MINIMUM && m2.At(box + 3) == c && Chain(m2, g, c, l)
    ensures Client(m, g, l, m2, g, [box] + l, {box}) && Chain(m2, g, box, [box] + l)
  {
    assert ([box] + l)[1..] == l;
  }

  /** Without alignment, every box on a later list than the size's own has room for it. */
  lemma LaterRoomy(m: Mem, siz: nat, b: nat)
    requires Slot(m.At(b)) > Slot(siz)
    ensures Roomy(m, siz, 1, 0, b)
  {
    hide Slot;
    if m.At(b) < siz { SlotOrder(m.At(b), siz); }
  }

  /** A road whose one box lies where a cached cell is. */
  lemma OneBox(m: Mem, g: Map, x: nat, l: seq<nat>)
    requires Fit(m, g) && Chain(m, g, x, l) && |l| == 1 && g.high == g.low + MINIMUM
    ensures forall b :: !On(m, g, b) && !Held(m, g, l, b)
  {
    hide Fit;
    FitTiled(m, g);
    ChainFirst(m, g, x, l);
    BoxRoom(m, g, x);
    forall b ensures !On(m, g, b) && !Held(m, g, l, b) {
      if b in g.starts { BoxRoom(m, g, b); }
    }
  }

  /** Where no box is in use, none is left once all are merged. */
  lemma NoneLeft(m: Mem, g: Map)
    requires Fit(m, g) && Merged(m, g, true) && forall b :: !Used(m, g, b)
    ensures g.low == g.high
  {
    hide Fit, Settled;
    if g.low != g.high {
      FitTiled(m, g);
      var q := PrevIs(m, g, g.high);
      assert !Used(m, g, q);
      SettledBox(m, g, true, -1, true, true, q);
    }
  }

  /** The retry that hands out a block two words short: an empty road of 13 words, with one cell in its
      cache, is asked for 8. The open end has no room until the cell is given back; then the box is
      found with the header in the alignment twice. */
  method RetryShort() returns (road: Road, out: nat, ghost box: nat)
    ensures road.Valid() && road.North() && Held(road.M(), road.g, road.cels, box)
    ensures out != 0 && out % 4 == 0 && box + 3 <= out && out + 8 == box + road.M().At(box) - 1 + 2
  {
    hide Fit, Merged, Chain, Client, AlignPad, AlignDap, Given, Slot;
    road := new Road(16, 3, 16);
    ghost var m0, g0, l0 := road.M(), road.g, road.cels;
    var more := road.CellBlock(1);
    ghost var m, g, l := road.M(), road.g, road.cels;
    OneBox(m, g, road.cel, l);
    NoneOn(m, g, 9, 4, 1);
    ghost var pad, tries;
    out, box, pad, tries := road.Malloc(8);
    ClientNever(m, g, l, road.M(), road.g, road.cels);
    if out == 0 {
      NoneUsed(road.M(), road.g);
      NoneLeft(road.M(), road.g);
    } else {
      FitTiled(road.M(), road.g);
      HeldIs(m, g, l, road.M(), road.g, road.cels, box);
      BoxRoom(road.M(), road.g, box);
    }
  }

  lemma NoneOn(m: Mem, g: Map, len: nat, ald: nat, alp: nat)
    requires alp < ald && forall b :: !On(m, g, b)
    ensures NoneRoomy(m, g, len, ald, alp)
  {
  }

  lemma ClientNever(m: Mem, g: Map, l: seq<nat>, m': Mem, g': Map, l': seq<nat>)
    requires forall b :: !Held(m, g, l, b)
    ensures Client(m, g, l, m', g', l', {}) ==> forall b :: !Held(m', g', l', b)
  {
  }

  lemma NoneUsed(m: Mem, g: Map)
    requires forall b :: !Held(m, g, [], b)
    ensures forall b :: !Used(m, g, b)
  {
    forall b ensures !Used(m, g, b) { assert !Held(m, g, [], b); }
  }

  lemma KeepWord(m: Mem, end: nat, siz: nat, k: nat)
    requires siz >= MINIMUM && k < end
    requires var m1 := Made(m, end, siz, 0); var nex := m1.Head(Slot(m1.At(end))); nex != 0 ==> nex + 2 != k
    ensures Attached(Made(m, end, siz, 0), end).At(k) == m.At(k)
  {
    hide Slot;
  }

  /** Writing a box's size alone makes it with the use count it has. */
  lemma MadeUse(m: Mem, x: nat, a: nat, use: nat)
    requires m.At(x + 1) == use && a >= MINIMUM && x + a <= |m.w|
    ensures m.Put(x, a).Put(x + a - 1, a) == Made(m, x, a, use)
  {
    assert m.Put(x, a).Put(x + a - 1, a).w == Made(m, x, a, use).w;
  }

  lemma TrimSame(m: Mem, g: Map, m2: Mem, g2: Map, m3: Mem, g3: Map, box: nat, end: nat)
    requires Same(m, g, m2, g2, {box}) && Same(m2, g2, m3, g3, {}) && Used(m2, g2, box) && m2.At(box) >= MINIMUM && end in g2.starts && m2.At(end + 1) == 0
    requires g3 == AttachedMap(g2, end) && Sized(m2, m3, end)
    ensures Same(m, g, m3, g3, {box}) && Used(m3, g3, box) && m3.At(box) == m2.At(box) && On(m3, g3, end)
    ensures forall k: nat | box <= k < box + m2.At(box) :: m3.At(k) == m2.At(k)
  {
    SameTwice(m, g, m2, g2, m3, g3, {box}, {});
    assert {box} + {} == {box};
    assert Intact(m2, m3, box);
  }

  lemma ClientNone(m: Mem, g: Map, l: seq<nat>, but: set<nat>)
    ensures Client(m, g, l, m, g, l, but)
  {
  }

  /** The words that an aligned box of `siz` words takes at the open end. */
  function HatNeeds(top: bool, hat: nat, siz: nat, ald: nat, alp: nat): nat
    requires alp < ald
  {
    siz + if top then AlignPad(hat, ald, alp) else AlignDap(hat - siz, ald, alp)
  }

  /** The size of a box for `len` words of data. */
  function BoxSize(len: nat): nat { if MINIMUM <= len + 3 then len + 3 else MINIMUM }

  /** The first list searched for a box of a size: the one after its own, but for the last. */
  function FirstList(siz: nat): nat { if Slot(siz) != 0 && Slot(siz) != LISTS - 1 then Slot(siz) + 1 else Slot(siz) }

  /** No box on the lists searched has room. */
  ghost predicate NoneRoomy(m: Mem, g: Map, len: nat, ald: nat, alp: nat)
    requires alp < ald
  {
    forall b: nat | On(m, g, b) && FirstList(BoxSize(len)) <= Slot(m.At(b)) :: !Roomy(m, BoxSize(len), ald, alp, b)
  }

  lemma SomeRoomy(m: Mem, g: Map, len: nat, ald: nat, alp: nat, b: nat)
    requires alp < ald && On(m, g, b) && FirstList(BoxSize(len)) <= Slot(m.At(b)) && Roomy(m, BoxSize(len), ald, alp, b)
    ensures !NoneRoomy(m, g, len, ald, alp)
  {
  }

  lemma NoneRoomyIs(m: Mem, g: Map, len: nat, ald: nat, alp: nat)
    requires alp < ald
    requires forall b: nat | On(m, g, b) && FirstList(BoxSize(len)) <= Slot(m.At(b)) :: !Roomy(m, BoxSize(len), ald, alp, b)
    ensures NoneRoomy(m, g, len, ald, alp)
  {
  }

  lemma RetriedAt(ald: nat, alp: nat, tries: nat)
    requires alp < ald && tries > 0
    ensures ((alp + 2) % ald + 2 + 2 * (tries - 1)) % ald == (alp + 2 + 2 * tries) % ald
  {
    ModAdd(alp + 2, 2 + 2 * (tries - 1), ald);
  }

  lemma HighestSettled(m: Mem, g: Map, top: bool, f: nat, lo: bool)
    requires Fit(m, g) && f + m.At(f) == g.high
    ensures Settled(m, g, top, f, lo, false) ==> Settled(m, g, top, f, lo, true)
  {
    if Settled(m, g, top, f, lo, false) {
      if g.high in g.starts { BoxRoom(m, g, g.high); }
      SettledHigh(m, g, top, f, lo);
    }
  }

  lemma NotUsed(m: Mem, g: Map, b: nat)
    requires m.At(b + 1) == 0
    ensures !Used(m, g, b)
  {
  }

  /** A box that went out of use stays so. */
  lemma SameFreed(m: Mem, g: Map, m1: Mem, g1: Map, m2: Mem, g2: Map, box: nat)
    requires Same(m, g, m1, g1, {box}) && Same(m1, g1, m2, g2, {}) && !Used(m1, g1, box)
    ensures Same(m, g, m2, g2, {box}) && !Used(m2, g2, box)
  {
    SameTwice(m, g, m1, g1, m2, g2, {box}, {});
    assert {box} + {} == {box};
  }

  lemma MergedSame(m: Mem, g: Map, m': Mem, g': Map, top: bool)
    requires Merged(m, g, top) && g'.starts == g.starts && g'.low == g.low && g'.high == g.high
    requires forall b | b in g.starts :: Sized(m, m', b)
    ensures Merged(m', g', top)
  {
    SettledSame(m, g, m', g', top, -1, true, true);
  }

  lemma SameAgain(m: Mem, g: Map, m1: Mem, g1: Map, m2: Mem, g2: Map)
    requires Same(m, g, m1, g1, {}) && Same(m1, g1, m2, g2, {})
    ensures Same(m, g, m2, g2, {})
  {
    SameTwice(m, g, m1, g1, m2, g2, {}, {});
  }

  lemma LowestSettled(m: Mem, g: Map, top: bool, f: nat, hi: bool)
    requires Fit(m, g) && f == g.low
    ensures Settled(m, g, top, f, false, hi) ==> Settled(m, g, top, f, true, hi)
  {
    if Settled(m, g, top, f, false, hi) { SettledLowest(m, g, top, f, hi); }
  }

  lemma UsedIs(m: Mem, g: Map, b: nat)
    requires Used(m, g, b)
    ensures b in g.starts && m.At(b + 1) > 0
  {
  }

  lemma SameHere(m: Mem, g: Map)
    ensures Same(m, g, m, g, {})
  {
  }
}
