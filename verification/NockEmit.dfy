/** The compiler in the form it is written: recursive procedures that push instructions onto a
    reversed list through a pointer (pkg/urbit/noun/nock.c, `_n_emit`, `_n_apen`, `_n_comp`, `_n_bint`). */
module NockEmit {
  import opened Nouns
  import opened NockSpec
  import opened Opcodes
  import opened NockComp

  function Reversed(c: Code): (r: Code)
    ensures |r| == |c|
  {
    if c == [] then [] else Reversed(c[1..]) + [c[0]]
  }

  lemma {:induction false} ReversedCat(a: Code, b: Code)
    ensures Reversed(a + b) == Reversed(b) + Reversed(a)
  {
    if a == [] {
      assert a + b == b;
    } else {
      assert (a + b)[1..] == a[1..] + b;
      ReversedCat(a[1..], b);
    }
  }

  /** `now` is `before` with the code `c` emitted onto it. */
  predicate Wrote(before: Code, c: Code, now: Code) { now == Reversed(c) + before }

  lemma WroteThen(l0: Code, a: Code, l1: Code, b: Code, l2: Code)
    requires Wrote(l0, a, l1) && Wrote(l1, b, l2)
    ensures Wrote(l0, a + b, l2)
  {
    ReversedCat(a, b);
  }

  /** Kicks in a noun: what bounds the one formula that is compiled by way of a larger one. */
  function Kicks(f: Noun): nat {
    match f
    case Atom(_) => 0
    case Cell(h, t) => (if h == Atom(9) then 1 else 0) + Kicks(h) + Kicks(t)
  }

  function Size(f: Noun): nat {
    match f
    case Atom(_) => 1
    case Cell(h, t) => 1 + Size(h) + Size(t)
  }

  lemma Smaller(f: Noun)
    ensures f.Cell? ==> Kicks(f.head) <= Kicks(f) && Size(f.head) < Size(f)
    ensures f.Cell? ==> Kicks(f.tail) <= Kicks(f) && Size(f.tail) < Size(f)
  {
  }

  /** A list of instructions, the last emitted first. */
  class OpList {
    var ops: Code

    constructor ()
      ensures ops == []
    {
      ops := [];
    }

    method Emit(op: Op)
      modifies this
      ensures ops == [op] + old(ops)
      ensures Wrote(old(ops), [op], ops)
    {
      ops := [op] + ops;
    }

    /** Weld `src` in front. */
    method Apen(src: OpList, ghost c: Code)
      requires Wrote([], c, src.ops)
      modifies this
      ensures this != src ==> src.ops == old(src.ops)
      ensures Wrote(old(ops), c, ops)
    {
      ops := src.ops + ops;
    }
  }

  /** Compile and emit `fol`, then one instruction. */
  method CompThen(ops: OpList, fol: Noun, los: bool, op: Op) returns (ok: bool, tot: nat)
    modifies ops
    ensures ok <==> Comp(fol, los, false).Some?
    ensures ok ==> Wrote(old(ops.ops), Comp(fol, los, false).value + [op], ops.ops)
    ensures ok ==> tot == |Comp(fol, los, false).value| + 1
    decreases Kicks(fol), Size(fol), 2
  {
    hide Bint;
    ok, tot := NComp(ops, fol, los, false);
    if ok {
      ghost var mid := ops.ops;
      ops.Emit(op);
      WroteThen(old(ops.ops), Comp(fol, los, false).value, mid, [op], ops.ops);
      tot := tot + 1;
    }
  }

  /** `hed`, a swap, `tal` and one instruction. */
  method CompPair(ops: OpList, hed: Noun, tal: Noun, op: Op) returns (ok: bool, tot: nat)
    modifies ops
    ensures ok <==> Comp(hed, false, false).Some? && Comp(tal, false, false).Some?
    ensures ok ==>
              Wrote(old(ops.ops), Comp(hed, false, false).value +
                                  ([Plain(SWAP)] + (Comp(tal, false, false).value + [op])), ops.ops)
    ensures ok ==> tot == |Comp(hed, false, false).value| + |Comp(tal, false, false).value| + 2
    decreases Kicks(hed) + Kicks(tal), Size(hed) + Size(tal), 3
  {
    hide Comp;
    ok, tot := CompThen(ops, hed, false, Plain(SWAP));
    if ok {
      ghost var mid := ops.ops;
      var more;
      ok, more := CompThen(ops, tal, false, op);
      if ok {
        WroteThen(old(ops.ops), Comp(hed, false, false).value + [Plain(SWAP)], mid,
                  Comp(tal, false, false).value + [op], ops.ops);
        assert (Comp(hed, false, false).value + [Plain(SWAP)]) + (Comp(tal, false, false).value + [op]) ==
               Comp(hed, false, false).value + ([Plain(SWAP)] + (Comp(tal, false, false).value + [op]));
        tot := tot + more;
      }
    }
  }

  /** Opcodes 0 and 1: at most one instruction. */
  method CompFlat(ops: OpList, f: Noun, los: bool, tel: bool) returns (ok: bool, tot: nat)
    requires f.Cell? && (f.head == Atom(0) || f.head == Atom(1))
    modifies ops
    ensures ok <==> Comp(f, los, tel).Some?
    ensures ok ==> Wrote(old(ops.ops), Comp(f, los, tel).value, ops.ops) && tot == |Comp(f, los, tel).value|
  {
    ok, tot := false, 0;
    if f.head == Atom(1) {
      ops.Emit(Literal(f.tail, los));
      ok, tot := true, 1;
    } else if f.tail.Atom? {
      ok, tot := true, |Fragment(f.tail.value, los)|;
      if tot > 0 { ops.Emit(Fragment(f.tail.value, los)[0]); }
    }
  }

  /** Opcodes 3 and 4. */
  method CompUnary(ops: OpList, f: Noun, los: bool, tel: bool) returns (ok: bool, tot: nat)
    requires f.Cell? && (f.head == Atom(3) || f.head == Atom(4))
    modifies ops
    ensures ok <==> Comp(f, los, tel).Some?
    ensures ok ==> Wrote(old(ops.ops), Comp(f, los, tel).value, ops.ops) && tot == |Comp(f, los, tel).value|
    decreases Kicks(f), Size(f), 0
  {
    hide Bint;
    Smaller(f);
    ok, tot := CompThen(ops, f.tail, los, if f.head == Atom(3) then Plain(DEEP) else Plain(BUMP));
  }

  /** Opcodes 2, 10, 12 and the pair of formulas. */
  method CompBinary(ops: OpList, f: Noun, los: bool, tel: bool) returns (ok: bool, tot: nat)
    requires f.Cell? && (f.head.Cell? || f.tail.Cell?)
    requires f.head.Cell? || f.head == Atom(2) || f.head == Atom(10) || f.head == Atom(12)
    modifies ops
    ensures ok <==> Comp(f, los, tel).Some?
    ensures ok ==> Wrote(old(ops.ops), Comp(f, los, tel).value, ops.ops) && tot == |Comp(f, los, tel).value|
    decreases Kicks(f), Size(f), 0
  {
    hide Bint;
    var arg := f.tail;
    Smaller(f);
    Smaller(arg);
    if f.head.Cell? {
      ok, tot := CompPair(ops, f.head, arg, Plain(if los then AULT else AUTO));
    } else if f.head == Atom(2) {
      ok, tot := CompPair(ops, arg.head, arg.tail, NockOp(los, tel));
    } else if f.head == Atom(12) {
      ok, tot := CompPair(ops, arg.head, arg.tail, Plain(if los then WILS else WISH));
    } else {
      ok, tot := false, 0;
      if arg.head.Cell? {
        Smaller(arg.head);
        ok, tot := CompPair(ops, arg.tail, arg.head.tail, EditOp(arg.head.head, los));
      }
    }
  }

  /** Opcodes 7 and 8. */
  method CompSeq(ops: OpList, f: Noun, los: bool, tel: bool) returns (ok: bool, tot: nat)
    requires f.Cell? && (f.head == Atom(7) || f.head == Atom(8)) && f.tail.Cell?
    modifies ops
    ensures ok <==> Comp(f, los, tel).Some?
    ensures ok ==> Wrote(old(ops.ops), Comp(f, los, tel).value, ops.ops) && tot == |Comp(f, los, tel).value|
    decreases Kicks(f), Size(f), 0
  {
    hide Bint;
    var hed, tal := f.tail.head, f.tail.tail;
    Smaller(f);
    Smaller(f.tail);
    ghost var l0 := ops.ops;
    ghost var push := [Plain(if los then SNOL else SNOC)];
    if f.head == Atom(7) {
      ok, tot := NComp(ops, hed, los, false);
    } else {
      ok, tot := CompThen(ops, hed, false, Plain(if los then SNOL else SNOC));
    }
    if ok {
      ghost var mid := ops.ops;
      var more;
      ok, more := NComp(ops, tal, true, tel);
      if ok {
        if f.head == Atom(7) {
          WroteThen(l0, Comp(hed, los, false).value, mid, Comp(tal, true, tel).value, ops.ops);
        } else {
          Joined(l0, Comp(hed, false, false).value, push, mid, Comp(tal, true, tel).value, ops.ops);
        }
      }
      tot := tot + more;
    }
  }

  /** Everything else is refused. */
  lemma Refused(f: Noun, los: bool, tel: bool)
    requires f.Atom? || (f.head.Atom? && (f.head.value > 12 ||
               (f.tail.Atom? && f.head.value !in {0, 1, 3, 4}) ||
               (f.head.value == 6 && f.tail.tail.Atom?)))
    ensures Comp(f, los, tel) == None
  {
  }

  lemma HintComp(f: Noun, los: bool, tel: bool)
    requires f.Cell? && f.head == Atom(11) && f.tail.Cell?
    ensures Comp(f, los, tel) == Bint(f.tail.head, f.tail.tail, los, tel)
  {
  }

  /** Equality compiles the same in and out of tail position. */
  lemma SameComp(f: Noun, los: bool, tel: bool)
    requires f.Cell? && f.head == Atom(5)
    ensures Comp(f, los, tel) == Comp(f, los, false)
  {
  }

  /** Emits exactly the code of `fol`, reversed, and returns its length; or bails exactly when
      there is none. */
  method NComp(ops: OpList, fol: Noun, los: bool, tel: bool) returns (ok: bool, tot: nat)
    modifies ops
    ensures ok <==> Comp(fol, los, tel).Some?
    ensures ok ==> Wrote(old(ops.ops), Comp(fol, los, tel).value, ops.ops)
    ensures ok ==> tot == |Comp(fol, los, tel).value|
    decreases Kicks(fol), Size(fol), 1
  {
    hide Comp, Bint;
    ok, tot := false, 0;
    Smaller(fol);
    if fol.Atom? { Refused(fol, los, tel); return; }
    var cod, arg := fol.head, fol.tail;
    Smaller(arg);
    if cod.Cell? {
      ok, tot := CompBinary(ops, fol, los, tel);
    } else if cod.value == 0 || cod.value == 1 {
      ok, tot := CompFlat(ops, fol, los, tel);
    } else if cod.value == 3 || cod.value == 4 {
      ok, tot := CompUnary(ops, fol, los, tel);
    } else if arg.Atom? || cod.value > 12 || (cod.value == 6 && arg.tail.Atom?) {
      Refused(fol, los, tel);
    } else if cod.value == 5 {
      SameComp(fol, los, tel);
      assert fol == Cell(Atom(5), Cell(arg.head, arg.tail));
      ok, tot := CompSame(ops, arg.head, arg.tail, los);
    } else if cod.value == 6 {
      Smaller(arg.tail);
      assert fol == Cell(Atom(6), Cell(arg.head, Cell(arg.tail.head, arg.tail.tail)));
      ok, tot := CompIf(ops, arg.head, arg.tail.head, arg.tail.tail, los, tel);
    } else if cod.value == 7 || cod.value == 8 {
      ok, tot := CompSeq(ops, fol, los, tel);
    } else if cod.value == 9 {
      assert fol == Cell(Atom(9), Cell(arg.head, arg.tail));
      ok, tot := CompKick(ops, arg.head, arg.tail, los, tel);
    } else if cod.value == 11 {
      HintComp(fol, los, tel);
      ok, tot := NBint(ops, arg.head, arg.tail, los, tel);
    } else {
      ok, tot := CompBinary(ops, fol, los, tel);
    }
  }

  method CompSame(ops: OpList, hed: Noun, tal: Noun, los: bool) returns (ok: bool, tot: nat)
    modifies ops
    ensures
      var f := Cell(Atom(5), Cell(hed, tal));
      && (ok <==> Comp(f, los, false).Some?)
      && (ok ==> Wrote(old(ops.ops), Comp(f, los, false).value, ops.ops) && tot == |Comp(f, los, false).value|)
    decreases Kicks(hed) + Kicks(tal), Size(hed) + Size(tal), 4
  {
    hide Bint;
    ok, tot := false, 0;
    if hed.Atom? || tal.Atom? { return; }
    var hec, tec := hed.head == Atom(1), tal.head == Atom(1);
    if hec && tec {
      ops.Emit(Literal(Loob(hed.tail == tal.tail), los));
      ok, tot := true, 1;
    } else if !hec && !tec {
      ok, tot := CompPair(ops, hed, tal, Plain(if los then SALM else SAME));
    } else {
      var lit := if hec then hed.tail else tal.tail;
      ok, tot := CompThen(ops, if hec then tal else hed, los, SameLiteral(lit));
    }
  }

  /** One branch of a conditional, in a list of its own. */
  method CompBranch(g: Noun, los: bool, tel: bool) returns (ok: bool, list: OpList, tot: nat)
    ensures fresh(list)
    ensures ok <==> (Formulaic(g) ==> Comp(g, los, tel).Some?)
    ensures ok ==>
              var c := if Formulaic(g) then Comp(g, los, tel).value else [Plain(BAIL)];
              Wrote([], c, list.ops) && tot == |c|
    decreases Kicks(g), Size(g), 2
  {
    hide Comp;
    list := new OpList();
    if Formulaic(g) {
      ok, tot := NComp(list, g, los, tel);
    } else {
      list.Emit(Plain(BAIL));
      ok, tot := true, 1;
    }
  }

  lemma CompIfIs(hed: Noun, mid: Noun, tal: Noun, los: bool, tel: bool)
    ensures
      var c := Comp(Cell(Atom(6), Cell(hed, Cell(mid, tal))), los, tel);
      var t, y, n := Comp(hed, false, false), BranchCode(mid, los, tel), BranchCode(tal, los, tel);
      c == if t.None? || (!Formulaic(mid) && !Formulaic(tal)) || y.None? || n.None? then None
           else Some(Conditional(t.value, y.value, n.value))
  {
    hide Bint;
  }

  method CompIf(ops: OpList, hed: Noun, mid: Noun, tal: Noun, los: bool, tel: bool) returns (ok: bool, tot: nat)
    modifies ops
    ensures
      var f := Cell(Atom(6), Cell(hed, Cell(mid, tal)));
      && (ok <==> Comp(f, los, tel).Some?)
      && (ok ==> Wrote(old(ops.ops), Comp(f, los, tel).value, ops.ops) && tot == |Comp(f, los, tel).value|)
    decreases Kicks(hed) + Kicks(mid) + Kicks(tal), Size(hed) + Size(mid) + Size(tal), 5
  {
    CompIfIs(hed, mid, tal, los, tel);
    hide Bint, Comp, Formulaic, Wrote;
    ok, tot := NComp(ops, hed, false, false);
    if !ok { return; }
    if !Formulaic(mid) && !Formulaic(tal) { ok := false; return; }
    var list1, list2, yepTot, nopTot;
    ok, list1, yepTot := CompBranch(mid, los, tel);
    if !ok { return; }
    ok, list2, nopTot := CompBranch(tal, los, tel);
    if !ok { return; }
    ghost var l0, test := old(ops.ops), Comp(hed, false, false).value;
    ghost var y := if Formulaic(mid) then Comp(mid, los, tel).value else [Plain(BAIL)];
    ghost var n := if Formulaic(tal) then Comp(tal, los, tel).value else [Plain(BAIL)];
    ghost var y0 := list1.ops;
    list1.Emit(Arg(SBIP, Atom(nopTot)));
    WroteThen([], y, y0, [Arg(SBIP, Atom(nopTot))], list1.ops);
    yepTot := yepTot + 1;
    ghost var l1 := ops.ops;
    ops.Emit(Arg(SBIN, Atom(yepTot)));
    WroteThen(l0, test, l1, [Arg(SBIN, Atom(yepTot))], ops.ops);
    ghost var l2 := ops.ops;
    ops.Apen(list1, y + [Arg(SBIP, Atom(nopTot))]);
    WroteThen(l0, test + [Arg(SBIN, Atom(yepTot))], l2, y + [Arg(SBIP, Atom(nopTot))], ops.ops);
    ghost var l3 := ops.ops;
    ops.Apen(list2, n);
    WroteThen(l0, test + [Arg(SBIN, Atom(yepTot))] + (y + [Arg(SBIP, Atom(nopTot))]), l3, n, ops.ops);
    tot := tot + 1 + yepTot + nopTot;
  }

  lemma MacroKicks(axis: nat, core: Noun)
    requires core.Cell?
    ensures
      var kick := Cell(Atom(2), Cell(Cell(Atom(0), Atom(1)), Cell(Atom(0), Atom(axis))));
      Kicks(Cell(Atom(7), Cell(core, kick))) < 1 + Kicks(core)
  {
    var kick := Cell(Atom(2), Cell(Cell(Atom(0), Atom(1)), Cell(Atom(0), Atom(axis))));
    assert Kicks(Cell(Atom(0), Atom(1))) == 0 == Kicks(Cell(Atom(0), Atom(axis)));
    assert Kicks(Cell(Cell(Atom(0), Atom(1)), Cell(Atom(0), Atom(axis)))) == 0;
    assert Kicks(kick) == 0;
    assert Kicks(Cell(core, kick)) == Kicks(core);
  }

  /** Opcode 9: a call site for an axis in the head, otherwise by way of the formula
      `[7 core 2 [0 1] 0 axis]`. */
  method CompKick(ops: OpList, axis: Noun, core: Noun, los: bool, tel: bool) returns (ok: bool, tot: nat)
    modifies ops
    ensures
      var f := Cell(Atom(9), Cell(axis, core));
      && (ok <==> Comp(f, los, tel).Some?)
      && (ok ==> Wrote(old(ops.ops), Comp(f, los, tel).value, ops.ops) && tot == |Comp(f, los, tel).value|)
    decreases Kicks(core) + 1, 0, 0
  {
    hide Bint;
    ok, tot := false, 0;
    if axis.Cell? || axis.value == 0 || core.Atom? { return; }
    if axis.value == 1 || Cap(axis.value) == 3 {
      var kick := Cell(Atom(2), Cell(Cell(Atom(0), Atom(1)), Cell(Atom(0), axis)));
      MacroKicks(axis.value, core);
      ComputedKickIsMacro(core, axis.value, los, tel);
      ok, tot := NComp(ops, Cell(Atom(7), Cell(core, kick)), los, tel);
    } else {
      ok, tot := CompThen(ops, core, tel || los, Arg(if tel then TICB else KICB, axis));
    }
  }

  /** The before/after protocol around the formula, once the instruction that begins it is emitted. */
  method CompTiming(ops: OpList, nef: Noun, hind: Op, los: bool, ghost l0: Code, ghost fore: Code)
    returns (ok: bool, tot: nat)
    requires Wrote(l0, fore, ops.ops)
    modifies ops
    ensures ok <==> Comp(nef, los, false).Some?
    ensures ok ==>
              var c := Timing(fore, hind, Comp(nef, los, false).value, los);
              Wrote(l0, c, ops.ops) && tot == |c| - |fore|
    decreases Kicks(nef), Size(nef), 2
  {
    hide Comp;
    tot := 0;
    var fen := new OpList();
    var nefTot;
    ok, nefTot := NComp(fen, nef, los, false);
    if !ok { return; }
    ghost var body := Comp(nef, los, false).value;
    ghost var f0 := fen.ops;
    fen.Emit(hind);
    WroteThen([], body, f0, [hind], fen.ops);
    ghost var f1 := fen.ops;
    fen.Emit(Arg(SBIP, Atom(1)));
    WroteThen([], body + [hind], f1, [Arg(SBIP, Atom(1))], fen.ops);
    nefTot := nefTot + 2;
    ghost var l1 := ops.ops;
    ops.Emit(Arg(SBIN, Atom(nefTot)));
    WroteThen(l0, fore, l1, [Arg(SBIN, Atom(nefTot))], ops.ops);
    ghost var l2 := ops.ops;
    ghost var mid := body + [hind] + [Arg(SBIP, Atom(1))];
    ops.Apen(fen, mid);
    WroteThen(l0, fore + [Arg(SBIN, Atom(nefTot))], l2, mid, ops.ops);
    ghost var l3 := ops.ops;
    ops.Emit(Plain(if los then TOSS else SWAP));
    WroteThen(l0, fore + [Arg(SBIN, Atom(nefTot))] + mid, l3, [Plain(if los then TOSS else SWAP)], ops.ops);
    tot := 1 + nefTot + 1;
  }

  lemma SizePlus(hif: Noun, nef: Noun)
    ensures Kicks(Cell(hif, nef)) >= Kicks(hif) + Kicks(nef) && Size(Cell(hif, nef)) == 1 + Size(hif) + Size(nef)
    ensures hif.Cell? ==> Kicks(hif) >= Kicks(hif.tail) && Size(hif.tail) < Size(hif)
  {
  }

  /** A stack-trace hint. */
  method BintPushed(ops: OpList, zep: Noun, hod: Noun, nef: Noun, los: bool, tel: bool) returns (ok: bool, tot: nat)
    requires Pushed(zep)
    modifies ops
    ensures ok <==> Bint(Cell(zep, hod), nef, los, tel).Some?
    ensures ok ==>
              Wrote(old(ops.ops), Bint(Cell(zep, hod), nef, los, tel).value, ops.ops) &&
              tot == |Bint(Cell(zep, hod), nef, los, tel).value|
    decreases Kicks(hod) + Kicks(nef), Size(hod) + Size(nef), 3
  {
    hide Comp;
    ghost var l0 := ops.ops;
    ok, tot := CompThen(ops, hod, false, Arg(BUSH, zep));
    if ok {
      ghost var l1 := ops.ops;
      var more;
      ok, more := CompThen(ops, nef, los, Plain(DROP));
      if ok { Joined(l0, Comp(hod, false, false).value, [Arg(BUSH, zep)], l1, Comp(nef, los, false).value + [Plain(DROP)], ops.ops); }
      tot := tot + more;
    }
  }

  /** A memo hint: the formula goes into a list of its own, whose length the find instruction holds. */
  method BintMemo(ops: OpList, hod: Noun, nef: Noun, los: bool, tel: bool) returns (ok: bool, tot: nat)
    modifies ops
    ensures ok <==> Bint(Cell(MEMO, hod), nef, los, tel).Some?
    ensures ok ==>
              Wrote(old(ops.ops), Bint(Cell(MEMO, hod), nef, los, tel).value, ops.ops) &&
              tot == |Bint(Cell(MEMO, hod), nef, los, tel).value|
    decreases Kicks(hod) + Kicks(nef), Size(hod) + Size(nef), 3
  {
    hide Comp;
    ghost var l0 := ops.ops;
    ok, tot := CompThen(ops, hod, false, Plain(TOSS));
    if ok {
      ghost var l1 := ops.ops;
      var mem := new OpList();
      var memTot;
      ok, memTot := CompThen(mem, nef, true, Plain(SAVE));
      if ok {
        ghost var body := Comp(nef, true, false).value + [Plain(SAVE)];
        var find := Memo(if los then SLIB else SKIB, memTot, nef);
        ops.Emit(find);
        ghost var l2 := ops.ops;
        ops.Apen(mem, body);
        WroteThen(l1, [find], l2, body, ops.ops);
        Joined(l0, Comp(hod, false, false).value, [Plain(TOSS)], l1, [find] + body, ops.ops);
        tot := tot + 1 + memTot;
      }
    }
  }

  /** A hint whose clue is dropped at once. */
  method BintDropped(ops: OpList, zep: Noun, hod: Noun, nef: Noun, los: bool, tel: bool) returns (ok: bool, tot: nat)
    requires !Pushed(zep) && zep != FAST && zep != MEMO && !Timed(zep)
    modifies ops
    ensures ok <==> Bint(Cell(zep, hod), nef, los, tel).Some?
    ensures ok ==>
              Wrote(old(ops.ops), Bint(Cell(zep, hod), nef, los, tel).value, ops.ops) &&
              tot == |Bint(Cell(zep, hod), nef, los, tel).value|
    decreases Kicks(hod) + Kicks(nef), Size(hod) + Size(nef), 3
  {
    hide Comp;
    ghost var l0 := ops.ops;
    var drop := Plain(if zep == LIVE then HECK else if zep == SLOG_TAG then SLOG else TOSS);
    ok, tot := CompThen(ops, hod, false, drop);
    if ok {
      ghost var l1 := ops.ops;
      var more;
      ok, more := NComp(ops, nef, los, tel);
      if ok { Joined(l0, Comp(hod, false, false).value, [drop], l1, Comp(nef, los, tel).value, ops.ops); }
      tot := tot + more;
    }
  }

  method NBint(ops: OpList, hif: Noun, nef: Noun, los: bool, tel: bool) returns (ok: bool, tot: nat)
    modifies ops
    ensures ok <==> Bint(hif, nef, los, tel).Some?
    ensures ok ==>
              Wrote(old(ops.ops), Bint(hif, nef, los, tel).value, ops.ops) && tot == |Bint(hif, nef, los, tel).value|
    decreases Kicks(Cell(hif, nef)), Size(Cell(hif, nef)), 0
  {
    hide Comp;
    SizePlus(hif, nef);
    ghost var l0 := ops.ops;
    if hif.Atom? {
      if Timed(hif) {
        ops.Emit(Arg(HILB, Cell(hif, nef)));
        ok, tot := CompTiming(ops, nef, Plain(if los then HILL else HILK), los, l0, [Arg(HILB, Cell(hif, nef))]);
        tot := tot + 1;
      } else {
        ok, tot := NComp(ops, nef, los, tel);
      }
      return;
    }
    var zep, hod := hif.head, hif.tail;
    assert hif == Cell(zep, hod);
    if Pushed(zep) {
      ok, tot := BintPushed(ops, zep, hod, nef, los, tel);
    } else if zep == FAST {
      ok, tot := CompPair(ops, hod, nef, Plain(if los then BALT else BAST));
    } else if zep == MEMO {
      ok, tot := BintMemo(ops, hod, nef, los, tel);
    } else if Timed(zep) {
      var more;
      ok, tot := CompThen(ops, hod, false, Arg(HINB, Cell(zep, nef)));
      if ok {
        ok, more := CompTiming(ops, nef, Plain(if los then HINL else HINK), los, l0,
                               Comp(hod, false, false).value + [Arg(HINB, Cell(zep, nef))]);
        tot := tot + more;
      }
    } else {
      ok, tot := BintDropped(ops, zep, hod, nef, los, tel);
    }
  }

  lemma Joined(l0: Code, a: Code, b: Code, l1: Code, c: Code, l2: Code)
    requires Wrote(l0, a + b, l1) && Wrote(l1, c, l2)
    ensures Wrote(l0, a + (b + c), l2)
  {
    WroteThen(l0, a + b, l1, c, l2);
    assert a + b + c == a + (b + c);
  }
}
