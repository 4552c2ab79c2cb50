/** The compiler from formulas to instructions (pkg/urbit/noun/nock.c, `_n_comp` and `_n_bint`). */
module NockComp {
  import opened Nouns
  import opened NockSpec
  import opened Opcodes

  /** An instruction as the compiler emits it: a bare opcode, an opcode with an argument noun,
      or a memo instruction with its skip count and key. */
  datatype Op = Plain(code: nat) | Arg(code: nat, arg: Noun) | Memo(code: nat, skip: nat, key: Noun)

  type Code = seq<Op>

  function Emit(op: Op): Option<Code> { Some([op]) }

  function Cat(a: Option<Code>, b: Option<Code>): Option<Code> {
    if a.Some? && b.Some? then Some(a.value + b.value) else None
  }

  /** The three widths of an operand: a byte, a short, or a slot in the literal table. */
  function Sized(byte: nat, short: nat, slot: nat, arg: Noun): Op {
    if arg.Cell? then Arg(slot, arg)
    else if arg.value <= 0xFF then Arg(byte, arg)
    else if arg.value <= 0xFFFF then Arg(short, arg)
    else Arg(slot, arg)
  }

  function Fragment(axis: nat, los: bool): Code {
    if axis == 0 then [Plain(BAIL)]
    else if axis == 1 then if los then [] else [Plain(COPY)]
    else if axis == 2 then [Plain(if los then HELD else HEAD)]
    else if axis == 3 then [Plain(if los then TALL else TAIL)]
    else if los then [Sized(FABL, FASL, FIBL, Atom(axis))]
    else [Sized(FABK, FASK, FIBK, Atom(axis))]
  }

  function Literal(n: Noun, los: bool): Op {
    if n == Atom(0) then Plain(if los then LIL0 else LIT0)
    else if n == Atom(1) then Plain(if los then LIL1 else LIT1)
    else if los then Sized(LILB, LILS, LIBL, n)
    else Sized(LITB, LITS, LIBK, n)
  }

  function SameLiteral(n: Noun): Op {
    if n == Atom(0) then Plain(SAM0)
    else if n == Atom(1) then Plain(SAM1)
    else Sized(SAMB, SAMS, SANB, n)
  }

  function EditOp(axe: Noun, los: bool): Op {
    if axe == Atom(2) then Plain(if los then MUTH else KUTH)
    else if axe == Atom(3) then Plain(if los then MUTT else KUTT)
    else if axe == Atom(6) then Plain(if los then MUSM else KUSM)
    else if los then Sized(MUTB, MUTS, MITB, axe)
    else Sized(KUTB, KUTS, KITB, axe)
  }

  function NockOp(los: bool, tel: bool): Op {
    Plain(if tel then NOCT else if los then NOLK else NOCK)
  }

  /** Jump over the second branch, then the conditional skip over the first branch and that jump. */
  function Conditional(test: Code, yep: Code, nop: Code): Code {
    test + [Arg(SBIN, Atom(|yep| + 1))] + (yep + [Arg(SBIP, Atom(|nop|))]) + nop
  }

  /** The before/after protocol of a timed hint around the code of its formula. */
  function Timing(fore: Code, hind: Op, body: Code, los: bool): Code {
    fore + [Arg(SBIN, Atom(|body| + 2))] + (body + [hind] + [Arg(SBIP, Atom(1))]) +
    [Plain(if los then TOSS else SWAP)]
  }

  /** Code for formula `f`: it leaves the product of `f` on top of the subject, or in its place
      when `los`; `tel` marks tail position. None when the compiler bails. */
  function Comp(f: Noun, los: bool, tel: bool): Option<Code>
    decreases f, 1
  {
    match f
    case Atom(_) => None
    case Cell(Cell(_, _), ar) =>
      Cat(Comp(f.head, false, false), Cat(Emit(Plain(SWAP)),
      Cat(Comp(ar, false, false), Emit(Plain(if los then AULT else AUTO)))))
    case Cell(Atom(op), ar) =>
      if op == 0 then if ar.Atom? then Some(Fragment(ar.value, los)) else None
      else if op == 1 then Emit(Literal(ar, los))
      else if op == 3 then Cat(Comp(ar, los, false), Emit(Plain(DEEP)))
      else if op == 4 then Cat(Comp(ar, los, false), Emit(Plain(BUMP)))
      else if ar.Atom? then None
      else if op == 2 then
        Cat(Comp(ar.head, false, false), Cat(Emit(Plain(SWAP)),
        Cat(Comp(ar.tail, false, false), Emit(NockOp(los, tel)))))
      else if op == 5 then
        if ar.head.Atom? || ar.tail.Atom? then None
        else if ar.head.head == Atom(1) && ar.tail.head == Atom(1) then
          Emit(Literal(Loob(ar.head.tail == ar.tail.tail), los))
        else if ar.head.head == Atom(1) then
          Cat(Comp(ar.tail, los, false), Emit(SameLiteral(ar.head.tail)))
        else if ar.tail.head == Atom(1) then
          Cat(Comp(ar.head, los, false), Emit(SameLiteral(ar.tail.tail)))
        else
          Cat(Comp(ar.head, false, false), Cat(Emit(Plain(SWAP)),
          Cat(Comp(ar.tail, false, false), Emit(Plain(if los then SALM else SAME)))))
      else if op == 6 then
        if ar.tail.Atom? || !(Formulaic(ar.tail.head) || Formulaic(ar.tail.tail)) then None
        else
          var test := Comp(ar.head, false, false);
          var yep := if Formulaic(ar.tail.head) then Comp(ar.tail.head, los, tel) else Emit(Plain(BAIL));
          var nop := if Formulaic(ar.tail.tail) then Comp(ar.tail.tail, los, tel) else Emit(Plain(BAIL));
          if test.Some? && yep.Some? && nop.Some?
          then Some(Conditional(test.value, yep.value, nop.value)) else None
      else if op == 7 then
        Cat(Comp(ar.head, los, false), Comp(ar.tail, true, tel))
      else if op == 8 then
        Cat(Comp(ar.head, false, false), Cat(Emit(Plain(if los then SNOL else SNOC)),
            Comp(ar.tail, true, tel)))
      else if op == 9 then
        if ar.head.Cell? || ar.head.value == 0 then None
        else if ar.head.value == 1 || Cap(ar.head.value) == 3 then
          Cat(Comp(ar.tail, los, false), Some(ComputedKick(ar.head.value, tel)))
        else
          Cat(Comp(ar.tail, tel || los, false), Emit(Arg(if tel then TICB else KICB, ar.head)))
      else if op == 10 then
        if ar.head.Atom? then None
        else
          Cat(Comp(ar.tail, false, false), Cat(Emit(Plain(SWAP)),
          Cat(Comp(ar.head.tail, false, false), Emit(EditOp(ar.head.head, los)))))
      else if op == 11 then Bint(ar.head, ar.tail, los, tel)
      else if op == 12 then
        Cat(Comp(ar.head, false, false), Cat(Emit(Plain(SWAP)),
        Cat(Comp(ar.tail, false, false), Emit(Plain(if los then WILS else WISH)))))
      else None
  }

  /** What opcode 9 compiles to outside the battery: the code of `[2 [0 1] 0 axis]` on the core. */
  function ComputedKick(axis: nat, tel: bool): Code {
    [Plain(COPY), Plain(SWAP)] + Fragment(axis, false) + [NockOp(true, tel)]
  }

  /** Code for formula `nef` under the hint `hif`. */
  function Bint(hif: Noun, nef: Noun, los: bool, tel: bool): Option<Code>
    decreases Cell(hif, nef), 0
  {
    match hif
    case Atom(_) =>
      if Timed(hif) then
        var body := Comp(nef, los, false);
        if body.None? then None
        else Some(Timing([Arg(HILB, Cell(hif, nef))], Plain(if los then HILL else HILK), body.value, los))
      else Comp(nef, los, tel)
    case Cell(zep, hod) =>
      var clue := Comp(hod, false, false);
      if Pushed(zep) then
        Cat(clue, Cat(Emit(Arg(BUSH, zep)), Cat(Comp(nef, los, false), Emit(Plain(DROP)))))
      else if zep == LIVE then Cat(clue, Cat(Emit(Plain(HECK)), Comp(nef, los, tel)))
      else if zep == SLOG_TAG then Cat(clue, Cat(Emit(Plain(SLOG)), Comp(nef, los, tel)))
      else if zep == FAST then
        Cat(clue, Cat(Emit(Plain(SWAP)), Cat(Comp(nef, false, false), Emit(Plain(if los then BALT else BAST)))))
      else if zep == MEMO then
        var body := Cat(Comp(nef, true, false), Emit(Plain(SAVE)));
        if body.None? then None
        else Cat(clue, Cat(Emit(Plain(TOSS)),
                 Cat(Emit(Memo(if los then SLIB else SKIB, |body.value|, nef)), body)))
      else if Timed(zep) then
        var body := Comp(nef, los, false);
        if clue.None? || body.None? then None
        else Some(Timing(clue.value + [Arg(HINB, Cell(zep, nef))],
                         Plain(if los then HINL else HINK), body.value, los))
      else Cat(clue, Cat(Emit(Plain(TOSS)), Comp(nef, los, tel)))
  }

  /** Opcode 9 outside the battery is compiled by way of the formula `[7 core 2 [0 1] 0 axis]`. */
  lemma ComputedKickIsMacro(core: Noun, axis: nat, los: bool, tel: bool)
    requires axis == 1 || (axis > 1 && Cap(axis) == 3)
    ensures Comp(Cell(Atom(9), Cell(Atom(axis), core)), los, tel) ==
            Comp(Cell(Atom(7), Cell(core, Cell(Atom(2), Cell(Cell(Atom(0), Atom(1)), Cell(Atom(0), Atom(axis)))))), los, tel)
  {
    var kick := Cell(Atom(2), Cell(Cell(Atom(0), Atom(1)), Cell(Atom(0), Atom(axis))));
    assert Comp(Cell(Atom(0), Atom(1)), false, false) == Some([Plain(COPY)]);
    assert Comp(Cell(Atom(0), Atom(axis)), false, false) == Some(Fragment(axis, false));
    assert Comp(kick, true, tel).value == ComputedKick(axis, tel);
  }

  /** The compiler accepts exactly the formulas of `Compiles`, whatever the mode. */
  lemma {:induction false} CompilesIff(f: Noun, los: bool, tel: bool)
    ensures Comp(f, los, tel).Some? <==> Compiles(f)
    decreases f, 1
  {
    hide Formulaic, Literal, SameLiteral, EditOp, NockOp, Fragment, Conditional, Timing, ComputedKick, Pushed, Timed;
    match f
    case Atom(_) =>
    case Cell(Cell(_, _), ar) =>
      CompilesIff(f.head, false, false);
      CompilesIff(ar, false, false);
    case Cell(Atom(op), ar) =>
      if op == 3 || op == 4 {
        CompilesIff(ar, los, false);
      } else if ar.Atom? {
      } else if op == 5 {
        SameCompiles(ar, los, tel);
      } else if op == 11 {
        HintCompiles(ar, los, tel);
      } else if op == 2 || op == 12 {
        CompilesIff(ar.head, false, false);
        CompilesIff(ar.tail, false, false);
      } else if op == 6 {
        if ar.tail.Cell? {
          CompilesIff(ar.head, false, false);
          CompilesIff(ar.tail.head, los, tel);
          CompilesIff(ar.tail.tail, los, tel);
        }
      } else if op == 7 || op == 8 {
        CompilesIff(ar.head, op == 7 && los, false);
        CompilesIff(ar.tail, true, tel);
      } else if op == 9 {
        CompilesIff(ar.tail, los, false);
        CompilesIff(ar.tail, tel || los, false);
      } else if op == 10 {
        if ar.head.Cell? { CompilesIff(ar.head.tail, false, false); }
        CompilesIff(ar.tail, false, false);
      }
  }

  lemma {:induction false} SameCompiles(ar: Noun, los: bool, tel: bool)
    requires ar.Cell?
    ensures Comp(Cell(Atom(5), ar), los, tel).Some? <==> Compiles(Cell(Atom(5), ar))
    decreases Cell(Atom(5), ar), 0
  {
    CompilesIff(ar.head, false, false);
    CompilesIff(ar.tail, false, false);
    CompilesIff(ar.head, los, false);
    CompilesIff(ar.tail, los, false);
  }

  lemma {:induction false} HintCompiles(ar: Noun, los: bool, tel: bool)
    requires ar.Cell?
    ensures Comp(Cell(Atom(11), ar), los, tel).Some? <==> Compiles(Cell(Atom(11), ar))
    decreases Cell(Atom(11), ar), 0
  {
    if ar.head.Cell? { CompilesIff(ar.head.tail, false, false); }
    CompilesIff(ar.tail, los, tel);
    CompilesIff(ar.tail, los, false);
    CompilesIff(ar.tail, false, false);
    CompilesIff(ar.tail, true, false);
  }

  /** The code of one branch of a conditional. */
  function BranchCode(g: Noun, los: bool, tel: bool): Option<Code> {
    if Formulaic(g) then Comp(g, los, tel) else Emit(Plain(BAIL))
  }
}
