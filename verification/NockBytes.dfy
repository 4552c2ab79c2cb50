/** The machine over assembled bytes, and its refinement of the machine over instructions. */
module NockBytes {
  import opened Nouns
  import opened NockSpec
  import opened Opcodes
  import opened NockComp
  import opened NockMachine
  import opened NockSim
  import opened NockAsm
  import opened NockTheorems

  // ---- compiled code can be assembled, and its skips stay inside it ----

  /** Instructions the instruction at the head may jump over. */
  function Jump(op: Op): nat {
    if op.Memo? then op.skip else if IsSkip(op) then Number(op.arg) else 0
  }

  predicate Sound(c: Code) {
    forall i: nat | i < |c| :: Encodable(c[i]) && i + 1 + Jump(c[i]) <= |c|
  }

  lemma SoundCat(a: Code, b: Code)
    requires Sound(a) && Sound(b)
    ensures Sound(a + b)
  {
    forall i: nat | i < |a + b| ensures Encodable((a + b)[i]) && i + 1 + Jump((a + b)[i]) <= |a + b| {
      if i < |a| { assert Sound(a) && (a + b)[i] == a[i]; } else { assert (a + b)[i] == b[i - |a|]; }
    }
  }

  /** One instruction before code it may jump into or over. */
  lemma SoundCons(op: Op, b: Code)
    requires Encodable(op) && Jump(op) <= |b| && Sound(b)
    ensures Sound([op] + b)
  {
    forall i: nat | i < |[op] + b| ensures Encodable(([op] + b)[i]) && i + 1 + Jump(([op] + b)[i]) <= |[op] + b| {
      if i > 0 { assert ([op] + b)[i] == b[i - 1]; }
    }
  }

  lemma SoundOne(op: Op)
    requires Encodable(op) && Jump(op) == 0
    ensures Sound([op])
  {
  }

  lemma SoundConditional(test: Code, yep: Code, nop: Code)
    requires Sound(test) && Sound(yep) && Sound(nop)
    ensures Sound(Conditional(test, yep, nop))
  {
    var sbin, sbip := Arg(SBIN, Atom(|yep| + 1)), Arg(SBIP, Atom(|nop|));
    SoundCons(sbip, nop);
    SoundCat(yep, [sbip] + nop);
    SoundCons(sbin, yep + ([sbip] + nop));
    SoundCat(test, [sbin] + (yep + ([sbip] + nop)));
    assert Conditional(test, yep, nop) == test + ([sbin] + (yep + ([sbip] + nop)));
  }

  lemma SoundTiming(fore: Code, hind: Op, body: Code, los: bool)
    requires Sound(fore) && Sound(body) && Encodable(hind) && Jump(hind) == 0
    ensures Sound(Timing(fore, hind, body, los))
  {
    var sbin, sbip, last := Arg(SBIN, Atom(|body| + 2)), Arg(SBIP, Atom(1)), Plain(if los then TOSS else SWAP);
    SoundOne(last);
    SoundCons(sbip, [last]);
    SoundCons(hind, [sbip] + [last]);
    SoundCat(body, [hind] + ([sbip] + [last]));
    SoundCons(sbin, body + ([hind] + ([sbip] + [last])));
    SoundCat(fore, [sbin] + (body + ([hind] + ([sbip] + [last]))));
    assert Timing(fore, hind, body, los) == fore + ([sbin] + (body + ([hind] + ([sbip] + [last]))));
  }

  lemma SoundFragment(axis: nat, los: bool)
    ensures Sound(Fragment(axis, los))
  {
  }

  /** `a`, one instruction, `b`. */
  lemma SoundAround(a: Code, op: Op, b: Code)
    requires Sound(a) && Sound(b) && Encodable(op) && Jump(op) <= |b|
    ensures Sound(a + ([op] + b))
  {
    SoundCons(op, b);
    SoundCat(a, [op] + b);
  }

  lemma SoundThen(a: Code, op: Op)
    requires Sound(a) && Encodable(op) && Jump(op) == 0
    ensures Sound(a + [op])
  {
    SoundOne(op);
    SoundCat(a, [op]);
  }

  lemma SoundPair(a: Code, b: Code, op: Op)
    requires Sound(a) && Sound(b) && Encodable(op) && Jump(op) == 0
    ensures Sound((a + ([Plain(SWAP)] + b)) + [op])
  {
    SoundAround(a, Plain(SWAP), b);
    SoundThen(a + ([Plain(SWAP)] + b), op);
  }

  lemma SoundKick(axis: nat, tel: bool)
    ensures Sound(ComputedKick(axis, tel))
  {
    SoundFragment(axis, false);
    SoundThen(Fragment(axis, false), NockOp(true, tel));
    SoundCons(Plain(SWAP), Fragment(axis, false) + [NockOp(true, tel)]);
    SoundCons(Plain(COPY), [Plain(SWAP)] + (Fragment(axis, false) + [NockOp(true, tel)]));
    assert ComputedKick(axis, tel) == [Plain(COPY)] + ([Plain(SWAP)] + (Fragment(axis, false) + [NockOp(true, tel)]));
  }

  /** The last instructions of the various formulas, in either mode. */
  lemma LastOps(los: bool, tel: bool)
    ensures forall op | op in {Plain(if los then AULT else AUTO), Plain(if los then WILS else WISH),
                               Plain(if los then SALM else SAME), NockOp(los, tel), Plain(DEEP), Plain(BUMP),
                               Plain(if los then BALT else BAST), Plain(SAVE), Plain(DROP), Plain(TOSS), Plain(BAIL)} ::
              Encodable(op) && Jump(op) == 0
  {
  }

  lemma OperandOps(n: Noun, los: bool, tel: bool)
    ensures Encodable(EditOp(n, los)) && Jump(EditOp(n, los)) == 0
    ensures Encodable(SameLiteral(n)) && Jump(SameLiteral(n)) == 0
    ensures Encodable(Literal(n, los)) && Jump(Literal(n, los)) == 0
    ensures n.Atom? ==> Encodable(KickOp(n.value, tel)) && Jump(KickOp(n.value, tel)) == 0
  {
    EditEncodable(n, los);
    SameEncodable(n);
    LiteralEncodable(n, los);
    if n.Atom? { KickEncodable(n.value, tel); }
    hide *;
  }

  lemma EditEncodable(n: Noun, los: bool)
    ensures Encodable(EditOp(n, los)) && Jump(EditOp(n, los)) == 0
  {
  }

  lemma SameEncodable(n: Noun)
    ensures Encodable(SameLiteral(n)) && Jump(SameLiteral(n)) == 0
  {
  }

  lemma LiteralEncodable(n: Noun, los: bool)
    ensures Encodable(Literal(n, los)) && Jump(Literal(n, los)) == 0
  {
  }

  lemma KickEncodable(axis: nat, tel: bool)
    ensures Encodable(KickOp(axis, tel)) && Jump(KickOp(axis, tel)) == 0
  {
  }

  /** Everything the compiler emits is sound. */
  lemma {:induction false} CompSound(f: Noun, los: bool, tel: bool)
    requires Comp(f, los, tel).Some? && (tel ==> los)
    ensures Sound(Comp(f, los, tel).value)
    decreases f, 1
  {
    hide Comp, Encodable;
    var c := Comp(f, los, tel).value;
    LastOps(los, tel);
    OpcodeKnown(f, los, tel);
    var ar := f.tail;
    if f.head.Cell? || f.head == Atom(10) || f.head == Atom(12) {
      BinaryParts(f, los, tel);
      var a, b := BinaryShape(f, los, tel, c);
      CompSound(First(f), false, false);
      CompSound(Second(f), false, false);
      if f.head == Atom(10) { OperandOps(f.tail.head.head, los, tel); }
      SoundPair(a, b, BinaryOp(f, los));
    } else if f.head.value <= 1 {
      FlatSound(f, los, tel);
    } else if f.head.value == 3 || f.head.value == 4 {
      UnaryShape(f, los, tel);
      CompSound(ar, los, false);
      SoundThen(Comp(ar, los, false).value, Plain(if f.head.value == 3 then DEEP else BUMP));
    } else if f.head.value == 2 {
      var a, b := NockShape(f, los, tel, c);
      CompSound(ar.head, false, false);
      CompSound(ar.tail, false, false);
      SoundPair(a, b, NockOp(los, tel));
    } else if f.head.value == 5 {
      SameSound(f, los, tel);
    } else if f.head.value == 6 {
      var test, yep, nop := IfShape(f, los, tel, c);
      CompSound(ar.head, false, false);
      BranchSound(ar.tail.head, los, tel);
      BranchSound(ar.tail.tail, los, tel);
      SoundConditional(test, yep, nop);
    } else if f.head.value == 7 || f.head.value == 8 {
      var a, b := ThenShape(f, los, tel, c);
      CompSound(ar.head, f.head.value == 7 && los, false);
      CompSound(ar.tail, true, tel);
      BetweenSound(a, f.head.value, los, b);
    } else if f.head.value == 9 {
      KickShape(f, los, tel, c);
      CompSound(ar.tail, los, false);
      OperandOps(ar.head, los, tel);
      if Sited(ar.head.value) {
        SoundThen(Comp(ar.tail, los, false).value, KickOp(ar.head.value, tel));
      } else {
        SoundKick(ar.head.value, tel);
        SoundCat(Comp(ar.tail, los, false).value, ComputedKick(ar.head.value, tel));
      }
    } else {
      HintShape(f, los, tel, c);
      BintSound(ar.head, ar.tail, los, tel);
    }
  }

  lemma OpcodeKnown(f: Noun, los: bool, tel: bool)
    requires Comp(f, los, tel).Some?
    ensures f.Cell? && (f.head.Atom? ==> f.head.value <= 12)
  {
  }

  lemma BinaryParts(f: Noun, los: bool, tel: bool)
    requires Comp(f, los, tel).Some? && f.Cell? && (f.head.Cell? || f.head == Atom(10) || f.head == Atom(12))
    ensures Binary(f)
  {
  }

  lemma FlatSound(f: Noun, los: bool, tel: bool)
    requires Comp(f, los, tel).Some? && f.Cell? && f.head.Atom? && f.head.value <= 1
    ensures Sound(Comp(f, los, tel).value)
  {
    if f.head.value == 0 {
      SoundFragment(f.tail.value, los);
    } else {
      OperandOps(f.tail, los, tel);
      SoundOne(Literal(f.tail, los));
    }
  }

  lemma UnaryShape(f: Noun, los: bool, tel: bool)
    requires Comp(f, los, tel).Some? && f.Cell? && (f.head == Atom(3) || f.head == Atom(4))
    ensures Comp(f.tail, los, false).Some?
    ensures Comp(f, los, tel).value == Comp(f.tail, los, false).value + [Plain(if f.head == Atom(3) then DEEP else BUMP)]
  {
  }

  lemma BetweenSound(a: Code, op: nat, los: bool, b: Code)
    requires Sound(a) && Sound(b)
    ensures Sound(a + (Between(op, los) + b))
  {
    if op == 7 {
      assert Between(op, los) + b == b;
      SoundCat(a, b);
    } else {
      SoundAround(a, Plain(if los then SNOL else SNOC), b);
    }
  }

  lemma {:induction false} BranchSound(g: Noun, los: bool, tel: bool)
    requires BranchCode(g, los, tel).Some? && (tel ==> los)
    ensures Sound(BranchCode(g, los, tel).value)
    decreases g, 2
  {
    hide Comp;
    if Formulaic(g) { CompSound(g, los, tel); } else { SoundOne(Plain(BAIL)); }
  }

  lemma {:induction false} SameSound(f: Noun, los: bool, tel: bool)
    requires Comp(f, los, tel).Some? && f.Cell? && f.head == Atom(5)
    ensures Sound(Comp(f, los, tel).value)
    decreases f, 0
  {
    hide Comp, Encodable;
    LastOps(los, tel);
    SameShape(f, los, tel, Comp(f, los, tel).value);
    var b, d := f.tail.head, f.tail.tail;
    if IsConst(b) && IsConst(d) {
      OperandOps(Loob(b.tail == d.tail), los, tel);
      SoundOne(Literal(Loob(b.tail == d.tail), los));
    } else if IsConst(b) {
      CompSound(d, los, false);
      OperandOps(b.tail, los, tel);
      SoundThen(Comp(d, los, false).value, SameLiteral(b.tail));
    } else if IsConst(d) {
      CompSound(b, los, false);
      OperandOps(d.tail, los, tel);
      SoundThen(Comp(b, los, false).value, SameLiteral(d.tail));
    } else {
      CompSound(b, false, false);
      CompSound(d, false, false);
      SoundPair(Comp(b, false, false).value, Comp(d, false, false).value, Plain(if los then SALM else SAME));
    }
  }

  /** A timed hint around sound code, static or dynamic. */
  lemma TimedSound(tag: Noun, nef: Noun, dynamic: bool, body: Code, los: bool)
    requires Sound(body)
    ensures Sound(Timing([Arg(if dynamic then HINB else HILB, Cell(tag, nef))],
                         Plain(if dynamic then if los then HINL else HINK else if los then HILL else HILK), body, los))
  {
    SoundOne(Arg(if dynamic then HINB else HILB, Cell(tag, nef)));
    SoundTiming([Arg(if dynamic then HINB else HILB, Cell(tag, nef))],
                Plain(if dynamic then if los then HINL else HINK else if los then HILL else HILK), body, los);
  }

  lemma MemoSound(nef: Noun, body: Code, los: bool)
    requires Sound(body)
    ensures Sound([Plain(TOSS)] + ([Memo(if los then SLIB else SKIB, |body|, nef)] + body))
  {
    SoundCons(Memo(if los then SLIB else SKIB, |body|, nef), body);
    SoundCons(Plain(TOSS), [Memo(if los then SLIB else SKIB, |body|, nef)] + body);
  }

  lemma HintOps(zep: Noun)
    ensures Encodable(Arg(BUSH, zep)) && Jump(Arg(BUSH, zep)) == 0
    ensures Encodable(DropOp(zep)) && Jump(DropOp(zep)) == 0
    ensures Encodable(Plain(SWAP)) && Jump(Plain(SWAP)) == 0
  {
  }

  lemma {:induction false} CluedSound(zep: Noun, nef: Noun, los: bool, tel: bool)
    requires CluedCode(zep, nef, los, tel).Some? && (tel ==> los)
    ensures Sound(CluedCode(zep, nef, los, tel).value)
    decreases nef, 2
  {
    hide Comp, Encodable;
    LastOps(los, tel);
    HintOps(zep);
    if Pushed(zep) {
      CompSound(nef, los, false);
      SoundThen(Comp(nef, los, false).value, Plain(DROP));
      SoundCons(Arg(BUSH, zep), Comp(nef, los, false).value + [Plain(DROP)]);
    } else if zep == FAST {
      CompSound(nef, false, false);
      SoundThen(Comp(nef, false, false).value, Plain(if los then BALT else BAST));
      SoundCons(Plain(SWAP), Comp(nef, false, false).value + [Plain(if los then BALT else BAST)]);
    } else if zep == MEMO {
      CompSound(nef, true, false);
      SoundThen(Comp(nef, true, false).value, Plain(SAVE));
      MemoSound(nef, Comp(nef, true, false).value + [Plain(SAVE)], los);
    } else if Timed(zep) {
      CompSound(nef, los, false);
      TimedSound(zep, nef, true, Comp(nef, los, false).value, los);
    } else {
      CompSound(nef, los, tel);
      SoundCons(DropOp(zep), Comp(nef, los, tel).value);
    }
  }

  lemma {:induction false} BintSound(hif: Noun, nef: Noun, los: bool, tel: bool)
    requires Bint(hif, nef, los, tel).Some? && (tel ==> los)
    ensures Sound(Bint(hif, nef, los, tel).value)
    decreases Cell(hif, nef), 0
  {
    hide Comp, Encodable, Sound;
    match hif
    case Atom(_) =>
      if Timed(hif) {
        CompSound(nef, los, false);
        TimedSound(hif, nef, false, Comp(nef, los, false).value, los);
      } else {
        CompSound(nef, los, tel);
      }
    case Cell(zep, hod) =>
      ClueShape(zep, hod, nef, los, tel, Bint(hif, nef, los, tel).value);
      CompSound(hod, false, false);
      CluedSound(zep, nef, los, tel);
      SoundCat(Comp(hod, false, false).value, CluedCode(zep, nef, los, tel).value);
  }

  // ---- the machine over bytes ----

  /** Aborted: the assembler met one of its limits. */
  datatype ByteMachine = Up(m: Machine) | Aborted

  function ByteStep(cfg: Config, b: ByteMachine): ByteMachine {
    if b.Aborted? || !b.m.Running? then b
    else match Program(b.m.fol)
      case None => Up(Bailed)
      case Some(code) => if Fits(code) then Up(Execute(cfg, Assemble(code), b.m)) else Aborted
  }

  /** One instruction of an assembled program. */
  function Execute(cfg: Config, p: Prog, m: Machine): Machine
    requires m.Running?
  {
    match Fetch(p, m.ip)
    case None => Return(m)
    case Some((act, next)) => Perform(cfg, m.(ip := next), act)
  }

  function ByteRun(cfg: Config, n: nat, b: ByteMachine): ByteMachine {
    if n == 0 then b else ByteRun(cfg, n - 1, ByteStep(cfg, b))
  }

  /** The byte offset of an instruction of the program of `fol`. */
  function Off(fol: Noun, ip: nat): nat {
    match Program(fol)
    case None => ip
    case Some(code) => Span(code, ip)
  }

  function LiftStack(s: Stack): Stack {
    match s
    case Bottom => Bottom
    case Item(n, r) => Item(n, LiftStack(r))
    case Frame(fol, ip, r) => Frame(fol, Off(fol, ip), LiftStack(r))
  }

  /** A state over instructions, with every instruction pointer turned into a byte offset. */
  function Lift(m: Machine): Machine {
    if m.Running? then m.(ip := Off(m.fol, m.ip), stack := LiftStack(m.stack)) else m
  }

  predicate InCode(fol: Noun, ip: nat) {
    Program(fol).Some? ==> ip <= |Program(fol).value|
  }

  predicate FramesOk(s: Stack) {
    match s
    case Bottom => true
    case Item(_, r) => FramesOk(r)
    case Frame(fol, ip, r) => InCode(fol, ip) && FramesOk(r)
  }

  /** Every instruction pointer, of the machine and of its frames, lies in its program. */
  predicate WellPlaced(m: Machine) {
    m.Running? ==> InCode(m.fol, m.ip) && FramesOk(m.stack)
  }

  lemma OffZero(fol: Noun)
    ensures Off(fol, 0) == 0 && InCode(fol, 0)
  {
    hide Comp;
  }

  lemma OffAt(fol: Noun, code: Code)
    requires Program(fol) == Some(code)
    ensures forall ip: nat :: Off(fol, ip) == Span(code, ip)
  {
    hide Comp;
  }

  lemma InCodeAt(fol: Noun, code: Code)
    requires Program(fol) == Some(code)
    ensures forall ip: nat :: InCode(fol, ip) <==> ip <= |code|
  {
    hide Comp;
  }

  /** Skips of an action. */
  function Reach(act: Act): nat {
    match act
    case Skip(n) => n
    case Skin(n) => n
    case Find(n, _, _) => n
    case _ => 0
  }

  lemma ReachIsJump(c: Code, i: nat)
    requires i < |c| && Encodable(c[i])
    ensures Reach(ActAt(c, i)) == Jump(c[i])
  {
  }

  lemma Unfold()
    ensures forall n, r :: LiftStack(Item(n, r)) == Item(n, LiftStack(r)) && (FramesOk(Item(n, r)) <==> FramesOk(r))
    ensures forall fol, ip, r :: LiftStack(Frame(fol, ip, r)) == Frame(fol, Off(fol, ip), LiftStack(r))
    ensures forall fol, ip, r :: FramesOk(Frame(fol, ip, r)) <==> InCode(fol, ip) && FramesOk(r)
  {
    hide Program, Span;
  }

  /** Actions that move control. */
  predicate Moves(act: Act) { act.Skip? || act.Skin? || act.Find? || act.Nocks? || act.Kick? }

  lemma PerformLiftMoving(cfg: Config, m: Machine, code: Code, i: nat, act: Act)
    requires m.Running? && Program(m.fol) == Some(code) && i < |code| && m.ip == i + 1 && Moves(act)
    requires FramesOk(m.stack) && i + 1 + Reach(act) <= |code|
    ensures Perform(cfg, Lift(m), InBytes(code, i, act)) == Lift(Perform(cfg, m, act))
    ensures WellPlaced(Perform(cfg, m, act))
  {
    hide Comp, Program, Span, At, Edit, SitesIn, ActAt, PlainAct;
    OffAt(m.fol, code);
    InCodeAt(m.fol, code);
    Unfold();
    SpanPlus(code, i + 1, Reach(act));
    if act.Nocks? && m.stack.Item? { OffZero(m.stack.noun); }
    if act.Kick? && m.stack.Item? && m.stack.noun.Cell? {
      var g := Lock(m.caches, (m.fol, act.site), act.axis, m.stack.noun);
      if g.Some? { OffZero(g.value); }
    }
  }

  lemma PerformLiftStill(cfg: Config, m: Machine, code: Code, i: nat, act: Act)
    requires m.Running? && Program(m.fol) == Some(code) && i < |code| && m.ip == i + 1 && !Moves(act)
    requires FramesOk(m.stack)
    ensures Perform(cfg, Lift(m), InBytes(code, i, act)) == Lift(Perform(cfg, m, act))
    ensures WellPlaced(Perform(cfg, m, act))
  {
    hide Comp, Program, Span, At, Edit, SitesIn, ActAt, PlainAct, Lock;
    InCodeAt(m.fol, code);
    Unfold();
  }

  /** Performing an action commutes with turning pointers into offsets. */
  lemma PerformLift(cfg: Config, m: Machine, code: Code, i: nat, act: Act)
    requires m.Running? && Program(m.fol) == Some(code) && i < |code| && m.ip == i + 1
    requires FramesOk(m.stack) && i + 1 + Reach(act) <= |code|
    ensures Perform(cfg, Lift(m), InBytes(code, i, act)) == Lift(Perform(cfg, m, act))
    ensures WellPlaced(Perform(cfg, m, act))
  {
    hide *;
    if Moves(act) { PerformLiftMoving(cfg, m, code, i, act); } else { PerformLiftStill(cfg, m, code, i, act); }
  }

  /** After the last instruction comes the halt. */
  lemma HaltAtEnd(c: Code)
    ensures Fetch(Assemble(c), Span(c, |c|)) == None
  {
    Layout(c, |c|);
    assert c[|c|..] == [];
    assert Bytes(c)[Span(c, |c|)..] == [HALT];
  }

  lemma ReturnLift(cfg: Config, m: Machine)
    requires m.Running? && FramesOk(m.stack)
    ensures Return(Lift(m)) == Lift(Return(m)) && WellPlaced(Return(m))
  {
    hide Program, Comp;
    Unfold();
  }

  /** The machine over bytes and the machine over instructions go in step, unless the assembler
      meets a limit. In particular every skip, at any of its widths, lands on the instruction
      the compiler counted to. */
  lemma Lockstep(cfg: Config, m: Machine)
    requires WellPlaced(m)
    ensures ByteStep(cfg, Up(Lift(m))) == Aborted || ByteStep(cfg, Up(Lift(m))) == Up(Lift(Step(cfg, m)))
    ensures WellPlaced(Step(cfg, m))
  {
    hide Comp, Perform, ActAt, Fetch, Span, Encodable, InBytes;
    if m.Running? && Program(m.fol).Some? {
      var code := Program(m.fol).value;
      OffAt(m.fol, code);
      InCodeAt(m.fol, code);
      CompSound(m.fol, true, true);
      if m.ip < |code| {
        ReachIsJump(code, m.ip);
        PerformLift(cfg, m.(ip := m.ip + 1), code, m.ip, ActAt(code, m.ip));
        if Fits(code) { FetchBack(code, m.ip); }
      } else {
        HaltAtEnd(code);
        ReturnLift(cfg, m);
      }
    }
  }

  lemma {:induction false} LockstepRun(cfg: Config, n: nat, m: Machine)
    requires WellPlaced(m)
    ensures ByteRun(cfg, n, Up(Lift(m))) == Aborted || ByteRun(cfg, n, Up(Lift(m))) == Up(Lift(Run(cfg, n, m)))
    decreases n
  {
    hide Lift, Step, ByteStep;
    if n > 0 {
      Lockstep(cfg, m);
      if ByteStep(cfg, Up(Lift(m))) == Aborted {
        AbortedStays(cfg, n - 1);
      } else {
        LockstepRun(cfg, n - 1, Step(cfg, m));
      }
    }
  }

  lemma {:induction false} AbortedStays(cfg: Config, n: nat)
    ensures ByteRun(cfg, n, Aborted) == Aborted
  {
    if n > 0 { AbortedStays(cfg, n - 1); }
  }

  // ---- end to end ----

  /** The machine over bytes, started on `f` and `s`, ends with product `p` within `n` steps. */
  predicate BurnsIn(cfg: Config, n: nat, s: Noun, f: Noun, cs: Caches, p: Noun) {
    var b := ByteRun(cfg, n, Up(Start(s, f, cs)));
    b.Up? && b.m.Halted? && b.m.product == p
  }

  predicate AbortsIn(cfg: Config, n: nat, s: Noun, f: Noun, cs: Caches) {
    ByteRun(cfg, n, Up(Start(s, f, cs))).Aborted?
  }

  lemma StartLifts(s: Noun, f: Noun, cs: Caches)
    ensures Lift(Start(s, f, cs)) == Start(s, f, cs) && WellPlaced(Start(s, f, cs))
  {
    hide Comp, Program, Span;
    OffZero(f);
    Unfold();
    assert LiftStack(Bottom) == Bottom && FramesOk(Bottom);
  }

  /** Compile, assemble and run: a product the bytes give is the evaluator's, and a product of
      the evaluator is given by the bytes unless a program on the way exceeds the assembler's limits. */
  lemma BytecodeCorrect(cfg: Config, s: Noun, f: Noun, cs: Caches, p: Noun)
    requires CachesOk(cs)
    ensures (exists n: nat :: BurnsIn(cfg, n, s, f, cs, p)) ==> Yields(Live, s, f, p) && Yields(Spec, s, f, p)
    ensures Yields(Live, s, f, p) ==>
              exists n: nat :: BurnsIn(cfg, n, s, f, cs, p) || AbortsIn(cfg, n, s, f, cs)
    ensures Yields(Clean, s, f, p) ==>
              exists n: nat :: BurnsIn(cfg, n, s, f, cs, p) || AbortsIn(cfg, n, s, f, cs)
  {
    hide Comp, Run, ByteRun, Eval;
    var m := Start(s, f, cs);
    StartLifts(s, f, cs);
    CompilerCorrect(cfg, s, f, cs, p);
    if exists n: nat :: BurnsIn(cfg, n, s, f, cs, p) {
      var n: nat :| BurnsIn(cfg, n, s, f, cs, p);
      LockstepRun(cfg, n, m);
      assert HaltsIn(cfg, n, s, f, cs, p);
      NeverWrong(cfg, s, f, cs, p);
    }
    if Yields(Clean, s, f, p) { CleanIsComplete(cfg, s, f, cs, p); }
    if Halts(cfg, s, f, cs, p) {
      var n: nat :| HaltsIn(cfg, n, s, f, cs, p);
      LockstepRun(cfg, n, m);
      assert BurnsIn(cfg, n, s, f, cs, p) || AbortsIn(cfg, n, s, f, cs);
    }
  }
}
