/** Forward simulation: the code of a formula, run on the machine, follows the evaluator. */
module NockSim {
  import opened Nouns
  import opened NockSpec
  import opened Opcodes
  import opened NockComp
  import opened NockMachine

  // ---- cache invariants ----

  ghost predicate Product(s: Noun, f: Noun, p: Noun) {
    exists k: nat :: Eval(Live, k, s, f) == Some(p)
  }

  predicate IsSite(op: Op) { op.Arg? && (op.code == KICB || op.code == TICB) }

  /** Whatever the payload, the instruction that owns the site would find the remembered formula. */
  ghost predicate SiteSound(id: (Noun, nat), site: Site) {
    Program(id.0).Some? ==>
      var code := Program(id.0).value;
      forall ip: nat | ip < |code| && IsSite(code[ip]) && SitesIn(code[ip + 1..]) == id.1 ::
        forall t: Noun :: AtNoun(code[ip].arg, Cell(site.bat, t)) == Some(site.fol)
  }

  /** Every memo entry is the product of its subject and formula; every site is sound. */
  ghost predicate CachesOk(cs: Caches) {
    && (forall k | k in cs.memo :: k.Cell? && Product(k.head, k.tail, cs.memo[k]))
    && (forall id | id in cs.sites :: SiteSound(id, cs.sites[id]))
  }

  lemma {:induction false} SitesInSuffix(code: Code, i: nat, j: nat)
    requires i <= j <= |code|
    ensures SitesIn(code[i..]) >= SitesIn(code[j..])
    decreases j - i
  {
    if i < j {
      assert code[i..][1..] == code[i + 1..];
      SitesInSuffix(code, i + 1, j);
    }
  }

  /** Distinct call sites of a program have distinct indices. */
  lemma SiteIndexUnique(code: Code, i: nat, j: nat)
    requires i < |code| && j < |code| && IsSite(code[i]) && IsSite(code[j])
    requires SitesIn(code[i + 1..]) == SitesIn(code[j + 1..])
    ensures i == j
  {
    var a, b := if i < j then i else j, if i < j then j else i;
    if a < b {
      assert code[b..][1..] == code[b + 1..];
      SitesInSuffix(code, a + 1, b);
    }
  }

  /** An axis in the head does not see the tail. */
  lemma HeadAxis(axis: nat, h: Noun, t: Noun, u: Noun)
    requires axis > 1 && Cap(axis) == 2
    ensures At(axis, Cell(h, t)) == At(axis, Cell(h, u))
  {
    AtFromRoot(axis, Cell(h, t));
    AtFromRoot(axis, Cell(h, u));
  }

  /** A call site keyed by the battery alone runs the formula at its axis, and stays sound,
      because only axes in the head get a site. */
  lemma LockSound(cs: Caches, fol: Noun, code: Code, ip: nat, core: Noun)
    requires CachesOk(cs) && core.Cell? && Program(fol) == Some(code)
    requires ip < |code| && IsSite(code[ip]) && code[ip].arg.Atom?
    requires code[ip].arg.value > 1 && Cap(code[ip].arg.value) == 2
    ensures
      var id := (fol, SitesIn(code[ip + 1..]));
      var got := Lock(cs, id, code[ip].arg, core);
      && got == AtNoun(code[ip].arg, core)
      && (got.Some? ==> CachesOk(cs.(sites := cs.sites[id := Site(core.head, got.value)])))
  {
    var axis := code[ip].arg;
    var id := (fol, SitesIn(code[ip + 1..]));
    if id in cs.sites && cs.sites[id].bat == core.head {
      assert SiteSound(id, cs.sites[id]);
    }
    var got := Lock(cs, id, axis, core);
    if got.Some? {
      var site := Site(core.head, got.value);
      forall jp: nat | jp < |code| && IsSite(code[jp]) && SitesIn(code[jp + 1..]) == id.1
        ensures forall t: Noun :: AtNoun(code[jp].arg, Cell(site.bat, t)) == Some(site.fol)
      {
        SiteIndexUnique(code, ip, jp);
        forall t: Noun ensures AtNoun(axis, Cell(site.bat, t)) == Some(site.fol) {
          HeadAxis(axis.value, core.head, core.tail, t);
        }
      }
    }
  }

  // ---- code positions ----

  predicate CodeAt(code: Code, ip: nat, c: Code) { ip + |c| <= |code| && code[ip..ip + |c|] == c }

  lemma Split(code: Code, ip: nat, a: Code, b: Code)
    requires CodeAt(code, ip, a + b)
    ensures CodeAt(code, ip, a) && CodeAt(code, ip + |a|, b)
  {
    var c := code[ip..ip + |a + b|];
    assert code[ip..ip + |a|] == c[..|a|];
    assert code[ip + |a|..ip + |a| + |b|] == c[|a|..];
  }

  /** One step of the machine at an instruction that is known. */
  lemma StepAt(cfg: Config, m: Machine, code: Code, op: Op)
    requires m.Running? && Program(m.fol) == Some(code) && CodeAt(code, m.ip, [op])
    ensures code[m.ip] == op
    ensures Run(cfg, 1, m) == Perform(cfg, m.(ip := m.ip + 1), ActAt(code, m.ip))
  {
    hide Comp, Perform, ActAt;
    assert code[m.ip] == code[m.ip..m.ip + 1][0];
    assert Run(cfg, 1, m) == Run(cfg, 0, Step(cfg, m));
  }

  // ---- what the simulation reports ----

  /** Finish: after `n` steps the machine is at `end` with product `p`, which the evaluator
      yields with fuel `k`. Stall: the evaluator has no product with the given fuel, and after
      `n` steps the machine has bailed, or `n` is at least that fuel and it is still running. */
  datatype Report = Finish(n: nat, p: Noun, k: nat, end: Machine) | Stall(n: nat)

  predicate Stalls(cfg: Config, m: Machine, n: nat, fuel: nat) {
    Run(cfg, n, m).Bailed? || (n >= fuel && Run(cfg, n, m).Running?)
  }

  predicate AtEnd(m: Machine) {
    m.Running? && Program(m.fol).Some? && m.ip == |Program(m.fol).value|
  }

  /** Control is right after the code that began at `m`, or, from tail position, at the end
      of some program. */
  predicate Arrived(m: Machine, len: nat, tel: bool, end: Machine)
    requires m.Running? && end.Running?
  {
    (end.fol == m.fol && end.ip == m.ip + len) || (tel && AtEnd(end))
  }

  ghost predicate Leaves(cfg: Config, m: Machine, n: nat, end: Machine, p: Noun, rest: Stack) {
    m.Running? && Run(cfg, n, m) == end && end.Running? && end.trace == m.trace &&
    CachesOk(end.caches) && end.stack == Item(p, rest)
  }

  ghost predicate Reports(cfg: Config, m: Machine, s: Noun, f: Noun, len: nat, tel: bool, rest: Stack,
                          fuel: nat, r: Report)
  {
    match r
    case Finish(n, p, k, end) =>
      Leaves(cfg, m, n, end, p, rest) && Arrived(m, len, tel, end) && Eval(Live, k, s, f) == Some(p)
    case Stall(n) => Eval(Live, fuel, s, f) == None && Stalls(cfg, m, n, fuel)
  }

  function Max(a: nat, b: nat): nat { if a < b then b else a }

  function Size(f: Noun): nat {
    match f
    case Atom(_) => 1
    case Cell(h, t) => 1 + Size(h) + Size(t)
  }

  lemma SizePair(f: Noun)
    requires f.Cell? && f.tail.Cell?
    ensures Size(f) == 2 + Size(f.head) + Size(f.tail.head) + Size(f.tail.tail)
  {
    assert Size(f.tail) == 1 + Size(f.tail.head) + Size(f.tail.tail);
  }

  /** What is under the product: the rest, with the subject kept on it or not. */
  function Under(los: bool, s: Noun, rest: Stack): Stack { if los then rest else Item(s, rest) }

  /** Preconditions shared by the simulation lemmas. */
  ghost predicate Ready(m: Machine, s: Noun, rest: Stack, code: Code, c: Code) {
    m.Running? && Program(m.fol) == Some(code) && m.stack == Item(s, rest) && CachesOk(m.caches) &&
    CodeAt(code, m.ip, c)
  }

  /** A stall after `a` steps that lead from `m` to `m1`. */
  lemma StallLater(cfg: Config, m: Machine, a: nat, m1: Machine, b: nat, fuel: nat)
    requires Run(cfg, a, m) == m1 && Stalls(cfg, m1, b, fuel)
    ensures Stalls(cfg, m, a + b, fuel)
  {
    hide Comp, Perform, ActAt;
    RunPlus(cfg, a, b, m);
  }

  /** If a sub-formula has product `p` with some fuel, then with `fuel` it has that one or none. */
  lemma SameOrNone(k: nat, fuel: nat, s: Noun, f: Noun, p: Noun)
    requires Eval(Live, k, s, f) == Some(p)
    ensures Eval(Live, fuel, s, f) == None || Eval(Live, fuel, s, f) == Some(p)
  {
    if Eval(Live, fuel, s, f).Some? { EvalUnique(Live, k, fuel, s, f); }
  }

  // ---- the simulation ----

  /** The code of a formula, started on its subject, does what the evaluator says. */
  lemma {:induction false} Sim(cfg: Config, m: Machine, s: Noun, f: Noun, los: bool, tel: bool, rest: Stack,
                               code: Code, c: Code, fuel: nat) returns (r: Report)
    requires tel ==> los
    requires Comp(f, los, tel) == Some(c) && Ready(m, s, rest, code, c)
    ensures Reports(cfg, m, s, f, |c|, tel, Under(los, s, rest), fuel, r)
    decreases fuel, Size(f), 2
  {
    hide Perform, ActAt, Eval;
    var ar := f.tail;
    if f.head.Cell? {
      r := SimBinary(cfg, m, s, f, los, rest, code, c, fuel);
    } else {
      var op := f.head.value;
      if op == 0 {
        assert f == Cell(Atom(0), Atom(ar.value));
        r := SimFragment(cfg, m, s, ar.value, los, rest, code, fuel);
      } else if op == 1 {
        ConstEval(s, ar, 0);
        r := SimLiteral(cfg, m, s, f, ar, los, rest, code, fuel);
      } else if op == 3 || op == 4 {
        r := SimUnary(cfg, m, s, f, los, rest, code, c, fuel);
      } else if op == 2 {
        r := SimNock(cfg, m, s, f, los, tel, rest, code, c, fuel);
      } else if op == 5 {
        r := SimSame(cfg, m, s, f, los, rest, code, c, fuel);
      } else if op == 6 {
        r := SimIf(cfg, m, s, f, los, tel, rest, code, c, fuel);
      } else if op == 7 || op == 8 {
        r := SimThen(cfg, m, s, f, los, tel, rest, code, c, fuel);
      } else if op == 9 {
        r := SimKick(cfg, m, s, f, los, tel, rest, code, c, fuel);
      } else if op == 11 {
        r := SimHint(cfg, m, s, f, los, tel, rest, code, c, fuel);
      } else {
        r := SimBinary(cfg, m, s, f, los, rest, code, c, fuel);
      }
    }
  }

  lemma SimFragment(cfg: Config, m: Machine, s: Noun, axis: nat, los: bool, rest: Stack, code: Code, fuel: nat)
    returns (r: Report)
    requires Ready(m, s, rest, code, Fragment(axis, los))
    ensures Reports(cfg, m, s, Cell(Atom(0), Atom(axis)), |Fragment(axis, los)|, false, Under(los, s, rest), fuel, r)
    ensures r.Finish? ==> r.n <= 1 && r.end.caches == m.caches && r.end.fol == m.fol && r.end.ip == m.ip + |Fragment(axis, los)|
    ensures r.Stall? ==> r.n == 1 && Run(cfg, 1, m) == Bailed
  {
    assert At(1, s) == Some(s);
    FragmentEval(s, axis, 0);
    FragmentEval(s, axis, fuel);
    if !(axis == 1 && los) { FragmentAct(axis, los, code, m.ip); }
    hide Comp, Eval, At, Perform, ActAt, PlainAct;
    if axis == 1 && los {
      r := Finish(0, s, 0, m);
    } else {
      StepAt(cfg, m, code, Fragment(axis, los)[0]);
      FragmentPerform(cfg, m.(ip := m.ip + 1), axis, los, s, rest);
      if At(axis, s).Some? {
        r := Finish(1, At(axis, s).value, 0, Run(cfg, 1, m));
      } else {
        r := Stall(1);
      }
    }
  }

  /** What an axis instruction does, special forms included. */
  function FragAct(axis: nat, los: bool): Act {
    if axis == 0 then Bail else if axis == 1 then Copy else if axis == 2 then Head(los)
    else if axis == 3 then Tails(los) else Frag(Atom(axis), los)
  }

  lemma FragmentAct(axis: nat, los: bool, code: Code, ip: nat)
    requires CodeAt(code, ip, Fragment(axis, los)) && !(axis == 1 && los)
    ensures ip < |code| && code[ip] == Fragment(axis, los)[0] && |Fragment(axis, los)| == 1 && ActAt(code, ip) == FragAct(axis, los)
  {
    hide Comp, SitesIn;
    assert code[ip..ip + 1][0] == code[ip];
  }

  lemma FragmentPerform(cfg: Config, m: Machine, axis: nat, los: bool, s: Noun, rest: Stack)
    requires m.Running? && m.stack == Item(s, rest) && !(axis == 1 && los)
    ensures Perform(cfg, m, FragAct(axis, los)) ==
            (match At(axis, s)
             case Some(x) => m.(stack := Item(x, Under(los, s, rest)))
             case None => Bailed)
  {
    assert At(1, s) == Some(s);
    assert At(2, s) == (match s case Cell(h, _) => Some(h) case _ => None);
    assert At(3, s) == (match s case Cell(_, t) => Some(t) case _ => None);
    hide Comp, At;
  }

  lemma SimLiteral(cfg: Config, m: Machine, s: Noun, f: Noun, n: Noun, los: bool, rest: Stack, code: Code, fuel: nat)
    returns (r: Report)
    requires Ready(m, s, rest, code, [Literal(n, los)]) && Eval(Live, 0, s, f) == Some(n)
    ensures Reports(cfg, m, s, f, 1, false, Under(los, s, rest), fuel, r)
  {
    hide Comp, Eval, At;
    StepAt(cfg, m, code, Literal(n, los));
    r := Finish(1, n, 0, Run(cfg, 1, m));
  }

  lemma UnaryAct(code: Code, ip: nat, op: Op)
    requires CodeAt(code, ip, [op]) && (op == Plain(DEEP) || op == Plain(BUMP))
    ensures ActAt(code, ip) == if op == Plain(DEEP) then Deep else Bump
  {
    hide Comp, SitesIn;
    assert code[ip..ip + 1][0] == code[ip];
  }

  lemma UnaryPerform(cfg: Config, m: Machine, op: Op, x: Noun, rest: Stack)
    requires m.Running? && m.stack == Item(x, rest)
    ensures Perform(cfg, m, if op == Plain(DEEP) then Deep else Bump) ==
            if op == Plain(DEEP) then m.(stack := Item(Loob(x.Cell?), rest))
            else if x.Atom? then m.(stack := Item(Atom(x.value + 1), rest))
            else Bailed
  {
    hide Comp, At;
  }

  lemma UnaryEval(s: Noun, f: Noun, k: nat)
    requires f.Cell? && (f.head == Atom(3) || f.head == Atom(4))
    ensures
      var v := Eval(Live, k, s, f.tail);
      Eval(Live, k, s, f) ==
      if v == None then None
      else if f.head == Atom(3) then Some(Loob(v.value.Cell?))
      else if v.value.Atom? then Some(Atom(v.value.value + 1))
      else None
  {
    hide Comp, At;
  }

  lemma UnaryStep(cfg: Config, m: Machine, s: Noun, f: Noun, los: bool, rest: Stack, code: Code, op: Op,
                  len: nat, fuel: nat, q: Report) returns (r: Report)
    requires m.Running? && q.Finish? && q.end.Running? && q.end.ip + 1 == m.ip + len && Leaves(cfg, m, q.n, q.end, q.p, Under(los, s, rest)) && q.end.fol == m.fol
    requires f.Cell? && Eval(Live, q.k, s, f.tail) == Some(q.p)
    requires (f.head == Atom(3) && op == Plain(DEEP)) || (f.head == Atom(4) && op == Plain(BUMP))
    requires Program(m.fol) == Some(code) && CodeAt(code, q.end.ip, [op])
    ensures Reports(cfg, m, s, f, len, false, Under(los, s, rest), fuel, r)
  {
    hide Comp, Eval, Perform, ActAt, PlainAct, At, Run;
    UnaryEval(s, f, q.k);
    UnaryEval(s, f, fuel);
    UnaryAct(code, q.end.ip, op);
    UnaryPerform(cfg, q.end.(ip := q.end.ip + 1), op, q.p, Under(los, s, rest));
    SameOrNone(q.k, fuel, s, f.tail, q.p);
    StepAt(cfg, q.end, code, op);
    RunPlus(cfg, q.n, 1, m);
    if f.head == Atom(3) {
      r := Finish(q.n + 1, Loob(q.p.Cell?), q.k, Run(cfg, 1, q.end));
    } else if q.p.Atom? {
      r := Finish(q.n + 1, Atom(q.p.value + 1), q.k, Run(cfg, 1, q.end));
    } else {
      r := Stall(q.n + 1);
    }
  }

  lemma {:induction false} SimUnary(cfg: Config, m: Machine, s: Noun, f: Noun, los: bool, rest: Stack,
                                    code: Code, c: Code, fuel: nat) returns (r: Report)
    requires f.Cell? && (f.head == Atom(3) || f.head == Atom(4))
    requires Comp(f, los, false) == Some(c) && Ready(m, s, rest, code, c)
    ensures Reports(cfg, m, s, f, |c|, false, Under(los, s, rest), fuel, r)
    decreases fuel, Size(f), 1
  {
    var a := Comp(f.tail, los, false).value;
    var op := if f.head == Atom(3) then Plain(DEEP) else Plain(BUMP);
    assert c == a + [op];
    Split(code, m.ip, a, [op]);
    r := Sim(cfg, m, s, f.tail, los, false, rest, code, a, fuel);
    if r.Finish? {
      r := UnaryStep(cfg, m, s, f, los, rest, code, op, |c|, fuel, r);
    }
  }

  // ---- two formulas on the same subject ----

  lemma SwapStep(cfg: Config, m: Machine, code: Code, a: Noun, b: Noun, rest: Stack) returns (m': Machine)
    requires m.Running? && Program(m.fol) == Some(code) && CodeAt(code, m.ip, [Plain(SWAP)])
    requires m.stack == Item(a, Item(b, rest))
    ensures m' == Run(cfg, 1, m) == m.(ip := m.ip + 1, stack := Item(b, Item(a, rest)))
  {
    hide Comp;
    StepAt(cfg, m, code, Plain(SWAP));
    m' := Run(cfg, 1, m);
  }

  /** Two formulas in sequence, with a swap between: both products, around the subject. */
  lemma {:induction false} SimPair(cfg: Config, m: Machine, s: Noun, b: Noun, d: Noun, rest: Stack, code: Code,
                                   cb: Code, cd: Code, fuel: nat) returns (r: Report)
    requires Comp(b, false, false) == Some(cb) && Comp(d, false, false) == Some(cd)
    requires Ready(m, s, rest, code, cb + ([Plain(SWAP)] + cd))
    ensures r.Finish? ==>
              r.p.Cell? && Leaves(cfg, m, r.n, r.end, r.p.tail, Item(s, Item(r.p.head, rest))) &&
              r.end.fol == m.fol && r.end.ip == m.ip + |cb| + 1 + |cd| &&
              Eval(Live, r.k, s, b) == Some(r.p.head) && Eval(Live, r.k, s, d) == Some(r.p.tail)
    ensures r.Stall? ==>
              (Eval(Live, fuel, s, b) == None || Eval(Live, fuel, s, d) == None) && Stalls(cfg, m, r.n, fuel)
    decreases fuel, Size(b) + Size(d), 3
  {
    hide Comp, Perform, ActAt, Eval;
    Split(code, m.ip, cb, [Plain(SWAP)] + cd);
    Split(code, m.ip + |cb|, [Plain(SWAP)], cd);
    var q := Sim(cfg, m, s, b, false, false, rest, code, cb, fuel);
    if q.Finish? {
      var m1 := SwapStep(cfg, q.end, code, q.p, s, rest);
      RunPlus(cfg, q.n, 1, m);
      var q' := Sim(cfg, m1, s, d, false, false, Item(q.p, rest), code, cd, fuel);
      if q'.Finish? {
        RunPlus(cfg, q.n + 1, q'.n, m);
        var k := Max(q.k, q'.k);
        EvalMonotone(Live, q.k, k, s, b);
        EvalMonotone(Live, q'.k, k, s, d);
        r := Finish(q.n + 1 + q'.n, Cell(q.p, q'.p), k, q'.end);
      } else {
        StallLater(cfg, m, q.n + 1, m1, q'.n, fuel);
        r := Stall(q.n + 1 + q'.n);
      }
    } else {
      r := q;
    }
  }

  /** Formulas whose code ends in one instruction on two products: the pair, opcodes 10 and 12. */
  predicate Binary(f: Noun) {
    f.Cell? && (f.head.Cell? || (f.head == Atom(10) && f.tail.Cell? && f.tail.head.Cell?) ||
                (f.head == Atom(12) && f.tail.Cell?))
  }

  /** The formula compiled first. */
  function First(f: Noun): Noun
    requires Binary(f)
  {
    if f.head.Cell? then f.head else if f.head == Atom(10) then f.tail.tail else f.tail.head
  }

  function Second(f: Noun): Noun
    requires Binary(f)
  {
    if f.head.Cell? then f.tail else if f.head == Atom(10) then f.tail.head.tail else f.tail.tail
  }

  function BinaryOp(f: Noun, los: bool): Op
    requires Binary(f)
  {
    if f.head.Cell? then Plain(if los then AULT else AUTO)
    else if f.head == Atom(10) then EditOp(f.tail.head.head, los)
    else Plain(if los then WILS else WISH)
  }

  lemma EditSmall(x: Noun, y: Noun)
    ensures Edit(2, x, y) == (match y case Cell(h, t) => Some(Cell(x, t)) case _ => None)
    ensures Edit(3, x, y) == (match y case Cell(h, t) => Some(Cell(h, x)) case _ => None)
    ensures Edit(6, x, y) == (match y case Cell(h, Cell(_, t)) => Some(Cell(h, Cell(x, t))) case _ => None)
  {
    assert At(1, y) == Some(y);
    assert At(3, y) == (match y case Cell(h, t) => Some(t) case _ => None);
    assert At(2, y) == (match y case Cell(h, t) => Some(h) case _ => None);
    assert At(7, y) == (match y case Cell(h, Cell(_, t)) => Some(t) case _ => None);
    assert forall z :: Edit(1, z, y) == Some(z);
    assert y.Cell? ==> forall z :: Edit(3, z, y) == Some(Cell(y.head, z));
  }

  /** What a binary formula makes of its two products. */
  function Combine(f: Noun, x: Noun, y: Noun): Option<Noun>
    requires Binary(f)
  {
    if f.head.Cell? then Some(Cell(x, y))
    else if f.head == Atom(10) then EditNoun(f.tail.head.head, y, x)
    else None
  }

  lemma BinaryEval(f: Noun, s: Noun, k: nat, x: Noun, y: Noun)
    requires Binary(f) && Eval(Live, k, s, First(f)) == Some(x) && Eval(Live, k, s, Second(f)) == Some(y)
    ensures Eval(Live, k, s, f) == Combine(f, x, y)
  {
  }

  /** The last instruction of a binary formula, on the two products. */
  lemma BinaryStep(cfg: Config, m: Machine, f: Noun, los: bool, s: Noun, x: Noun, y: Noun, rest: Stack, code: Code)
    requires m.Running? && Binary(f) && Program(m.fol) == Some(code) && CodeAt(code, m.ip, [BinaryOp(f, los)])
    requires m.stack == Item(y, Item(s, Item(x, rest)))
    ensures Run(cfg, 1, m) ==
            (match Combine(f, x, y)
             case Some(p) => m.(ip := m.ip + 1, stack := Item(p, Under(los, s, rest)))
             case None => Bailed)
  {
    hide Comp, Perform, ActAt, Run, At, Edit, EditOp;
    StepAt(cfg, m, code, BinaryOp(f, los));
    var m1 := m.(ip := m.ip + 1);
    if f.head.Cell? {
      PairPerform(cfg, m1, los, s, x, y, rest, code, m.ip);
    } else if f.head == Atom(10) {
      EditPerform(cfg, m1, f.tail.head.head, los, s, x, y, rest, code, m.ip);
    } else {
      ScryPerform(cfg, m1, los, s, x, y, rest, code, m.ip);
    }
  }

  lemma PairPerform(cfg: Config, m: Machine, los: bool, s: Noun, x: Noun, y: Noun, rest: Stack, code: Code, ip: nat)
    requires m.Running? && ip < |code| && code[ip] == Plain(if los then AULT else AUTO)
    requires m.stack == Item(y, Item(s, Item(x, rest)))
    ensures Perform(cfg, m, ActAt(code, ip)) == m.(stack := Item(Cell(x, y), Under(los, s, rest)))
  {
    hide Comp, At, Edit;
  }

  lemma ScryPerform(cfg: Config, m: Machine, los: bool, s: Noun, x: Noun, y: Noun, rest: Stack, code: Code, ip: nat)
    requires m.Running? && ip < |code| && code[ip] == Plain(if los then WILS else WISH)
    requires m.stack == Item(y, Item(s, Item(x, rest)))
    ensures Perform(cfg, m, ActAt(code, ip)) == Bailed
  {
    hide Comp, At, Edit;
  }

  lemma EditAct(axis: Noun, los: bool, code: Code, ip: nat)
    requires ip < |code| && code[ip] == EditOp(axis, los)
    ensures ActAt(code, ip) ==
            if axis == Atom(2) then EditHead(los) else if axis == Atom(3) then EditTail(los)
            else if axis == Atom(6) then EditSample(los) else Edits(axis, los)
  {
    hide Comp, SitesIn;
  }

  lemma EditPerform(cfg: Config, m: Machine, axis: Noun, los: bool, s: Noun, x: Noun, y: Noun, rest: Stack,
          code: Code, ip: nat)
    requires m.Running? && ip < |code| && code[ip] == EditOp(axis, los)
    requires m.stack == Item(y, Item(s, Item(x, rest)))
    ensures Perform(cfg, m, ActAt(code, ip)) ==
            (match EditNoun(axis, y, x)
             case Some(p) => m.(stack := Item(p, Under(los, s, rest)))
             case None => Bailed)
  {
    EditSmall(y, x);
    EditAct(axis, los, code, ip);
    hide Comp, At, Edit, EditOp, ActAt;
  }

  /** A binary formula has a product only where both of its parts do. */
  lemma BinaryNeeds(f: Noun, s: Noun, k: nat)
    requires Binary(f) && (Eval(Live, k, s, First(f)) == None || Eval(Live, k, s, Second(f)) == None)
    ensures Eval(Live, k, s, f) == None
  {
  }

  lemma BinaryShape(f: Noun, los: bool, tel: bool, c: Code) returns (a: Code, b: Code)
    requires Binary(f) && Comp(f, los, tel) == Some(c)
    ensures Comp(First(f), false, false) == Some(a) && Comp(Second(f), false, false) == Some(b)
    ensures c == (a + ([Plain(SWAP)] + b)) + [BinaryOp(f, los)]
  {
    a := Comp(First(f), false, false).value;
    b := Comp(Second(f), false, false).value;
    assert c == a + ([Plain(SWAP)] + (b + [BinaryOp(f, los)]));
  }

  lemma BinarySize(f: Noun)
    requires Binary(f)
    ensures Size(First(f)) + Size(Second(f)) < Size(f)
  {
    if f.head == Atom(10) {
      assert Size(f.tail) == 1 + Size(f.tail.head) + Size(f.tail.tail);
      assert Size(f.tail.head) == 1 + Size(f.tail.head.head) + Size(f.tail.head.tail);
    }
  }

  lemma {:induction false} SimBinary(cfg: Config, m: Machine, s: Noun, f: Noun, los: bool, rest: Stack,
                                     code: Code, c: Code, fuel: nat) returns (r: Report)
    requires Binary(f) && Comp(f, los, false) == Some(c) && Ready(m, s, rest, code, c)
    ensures Reports(cfg, m, s, f, |c|, false, Under(los, s, rest), fuel, r)
    decreases fuel, Size(f), 1
  {
    hide Comp, Perform, ActAt, Eval;
    BinarySize(f);
    var a, b := BinaryShape(f, los, false, c);
    Split(code, m.ip, a + ([Plain(SWAP)] + b), [BinaryOp(f, los)]);
    var q := SimPair(cfg, m, s, First(f), Second(f), rest, code, a, b, fuel);
    if q.Finish? {
      BinaryStep(cfg, q.end, f, los, s, q.p.head, q.p.tail, rest, code);
      RunPlus(cfg, q.n, 1, m);
      BinaryEval(f, s, q.k, q.p.head, q.p.tail);
      match Combine(f, q.p.head, q.p.tail)
      case Some(p) => r := Finish(q.n + 1, p, q.k, Run(cfg, 1, q.end));
      case None =>
        NoneStays(q.k, fuel, s, f, q.p.head, q.p.tail);
        r := Stall(q.n + 1);
    } else {
      BinaryNeeds(f, s, fuel);
      r := q;
    }
  }

  /** A binary formula without product on given products has none with any fuel. */
  lemma NoneStays(k: nat, fuel: nat, s: Noun, f: Noun, x: Noun, y: Noun)
    requires Binary(f)
    requires Eval(Live, k, s, First(f)) == Some(x) && Eval(Live, k, s, Second(f)) == Some(y)
    requires Combine(f, x, y) == None
    ensures Eval(Live, fuel, s, f) == None
  {
    hide Eval;
    SameOrNone(k, fuel, s, First(f), x);
    SameOrNone(k, fuel, s, Second(f), y);
    if Eval(Live, fuel, s, First(f)) == None || Eval(Live, fuel, s, Second(f)) == None {
      BinaryNeeds(f, s, fuel);
    } else {
      BinaryEval(f, s, fuel, x, y);
    }
  }

  // ---- entering another formula ----

  /** The program of a computed formula, entered on its subject. */
  lemma {:induction false} Invoke(cfg: Config, m: Machine, s: Noun, g: Noun, rest: Stack, fuel: nat) returns (r: Report)
    requires m.Running? && m.fol == g && m.ip == 0 && m.stack == Item(s, rest) && CachesOk(m.caches)
    ensures r.Finish? ==>
              Leaves(cfg, m, r.n, r.end, r.p, rest) && AtEnd(r.end) && Enter(Live, r.k, s, g) == Some(r.p)
    ensures r.Stall? ==> Enter(Live, fuel, s, g) == None && Stalls(cfg, m, r.n, fuel)
    decreases fuel, Size(g), 3
  {
    hide Comp, Perform, ActAt, Eval;
    CompilesIff(g, true, true);
    if Compiles(g) {
      var code := Program(g).value;
      assert code[0..|code|] == code;
      r := Sim(cfg, m, s, g, true, true, rest, code, code, fuel);
    } else {
      assert Run(cfg, 1, m) == Run(cfg, 0, Step(cfg, m));
      r := Stall(1);
    }
  }

  /** At the end of a program, the product goes to the frame below it. */
  lemma ReturnStep(cfg: Config, m: Machine, p: Noun, fol: Noun, ip: nat, rest: Stack)
    requires AtEnd(m) && m.stack == Item(p, Frame(fol, ip, rest))
    ensures Run(cfg, 1, m) == m.(fol := fol, ip := ip, stack := Item(p, rest))
  {
    hide Comp, Perform, ActAt;
    assert Run(cfg, 1, m) == Run(cfg, 0, Step(cfg, m));
  }

  /** A call, with a frame or in tail position, up to where its product is left. */
  lemma {:induction false} Jump(cfg: Config, m: Machine, s: Noun, g: Noun, tel: bool, fol: Noun, ip: nat, rest: Stack,
                                fuel: nat) returns (r: Report)
    requires m.Running? && m.fol == g && m.ip == 0 && CachesOk(m.caches) && fuel > 0
    requires m.stack == Item(s, if tel then rest else Frame(fol, ip, rest))
    ensures r.Finish? ==>
              Leaves(cfg, m, r.n, r.end, r.p, rest) && Enter(Live, r.k, s, g) == Some(r.p) &&
              if tel then AtEnd(r.end) else r.end.fol == fol && r.end.ip == ip
    ensures r.Stall? ==> Enter(Live, fuel - 1, s, g) == None && Stalls(cfg, m, r.n, fuel - 1)
    decreases fuel, 0, 0
  {
    hide Comp, Perform, ActAt, Eval;
    r := Invoke(cfg, m, s, g, if tel then rest else Frame(fol, ip, rest), fuel - 1);
    if r.Finish? && !tel {
      ReturnStep(cfg, r.end, r.p, fol, ip, rest);
      RunPlus(cfg, r.n, 1, m);
      r := Finish(r.n + 1, r.p, r.k, Run(cfg, 1, r.end));
    }
  }

  /** A call one step after `m`, as a report about `m`: the step pays for the fuel. */
  lemma {:induction false} JumpNext(cfg: Config, m: Machine, s: Noun, g: Noun, tel: bool, fol: Noun, ip: nat,
          rest: Stack,
                                    fuel: nat) returns (r: Report)
    requires m.Running? && Run(cfg, 1, m).Running?
    requires var m1 := Run(cfg, 1, m);
             m1.fol == g && m1.ip == 0 && CachesOk(m1.caches) && m1.trace == m.trace &&
             m1.stack == Item(s, if tel then rest else Frame(fol, ip, rest))
    ensures r.Finish? ==>
              Leaves(cfg, m, r.n, r.end, r.p, rest) && Enter(Live, r.k, s, g) == Some(r.p) &&
              if tel then AtEnd(r.end) else r.end.fol == fol && r.end.ip == ip
    ensures r.Stall? ==> (fuel > 0 ==> Enter(Live, fuel - 1, s, g) == None) && Stalls(cfg, m, r.n, fuel)
    decreases fuel, 0, 1
  {
    hide Comp, Perform, ActAt, Eval;
    if fuel == 0 {
      r := Stall(1);
    } else {
      var m1 := Run(cfg, 1, m);
      r := Jump(cfg, m1, s, g, tel, fol, ip, rest, fuel);
      RunPlus(cfg, 1, r.n, m);
      if r.Finish? {
        r := Finish(1 + r.n, r.p, r.k, r.end);
      } else {
        r := Stall(1 + r.n);
      }
    }
  }

  // ---- opcode 2 ----

  lemma NockEval(s: Noun, b: Noun, d: Noun, x: Noun, y: Noun, k: nat, j: nat)
    requires Eval(Live, k, s, b) == Some(x) && Eval(Live, k, s, d) == Some(y)
    ensures j > 0 && Enter(Live, j - 1, x, y).Some? ==>
              Eval(Live, Max(k, j), s, Cell(Atom(2), Cell(b, d))) == Enter(Live, j - 1, x, y)
    ensures (j == 0 || Enter(Live, j - 1, x, y) == None) ==> Eval(Live, j, s, Cell(Atom(2), Cell(b, d))) == None
  {
    var top := Max(k, j);
    EvalMonotone(Live, k, top, s, b);
    EvalMonotone(Live, k, top, s, d);
    if j > 0 && Enter(Live, j - 1, x, y).Some? {
      EvalMonotone(Live, j - 1, top - 1, x, y);
    } else {
      SameOrNone(k, j, s, b, x);
      SameOrNone(k, j, s, d, y);
    }
  }

  lemma NockStep(cfg: Config, m: Machine, los: bool, tel: bool, x: Noun, y: Noun, s: Noun, rest: Stack, code: Code)
    requires m.Running? && Program(m.fol) == Some(code) && CodeAt(code, m.ip, [NockOp(los, tel)])
    requires m.stack == Item(y, Item(s, Item(x, rest))) && (tel ==> los)
    ensures
      var below := Under(los, s, rest);
      Run(cfg, 1, m) ==
      m.(fol := y, ip := 0, stack := Item(x, if tel then below else Frame(m.fol, m.ip + 1, below)))
  {
    hide Comp;
    StepAt(cfg, m, code, NockOp(los, tel));
  }

  lemma NockShape(f: Noun, los: bool, tel: bool, c: Code) returns (a: Code, b: Code)
    requires f.Cell? && f.head == Atom(2) && Comp(f, los, tel) == Some(c)
    ensures f.tail.Cell? && Comp(f.tail.head, false, false) == Some(a) && Comp(f.tail.tail, false, false) == Some(b)
    ensures c == (a + ([Plain(SWAP)] + b)) + [NockOp(los, tel)]
  {
    a := Comp(f.tail.head, false, false).value;
    b := Comp(f.tail.tail, false, false).value;
    assert c == a + ([Plain(SWAP)] + (b + [NockOp(los, tel)]));
  }

  lemma {:induction false} SimNock(cfg: Config, m: Machine, s: Noun, f: Noun, los: bool, tel: bool, rest: Stack,
                                   code: Code, c: Code, fuel: nat) returns (r: Report)
    requires f.Cell? && f.head == Atom(2) && (tel ==> los)
    requires Comp(f, los, tel) == Some(c) && Ready(m, s, rest, code, c)
    ensures Reports(cfg, m, s, f, |c|, tel, Under(los, s, rest), fuel, r)
    decreases fuel, Size(f), 1
  {
    hide Comp, Perform, ActAt, Eval;
    var a, b := NockShape(f, los, tel, c);
    var hed, tal := f.tail.head, f.tail.tail;
    SizePair(f);
    Split(code, m.ip, a + ([Plain(SWAP)] + b), [NockOp(los, tel)]);
    var q := SimPair(cfg, m, s, hed, tal, rest, code, a, b, fuel);
    assert f == Cell(Atom(2), Cell(hed, tal));
    if q.Finish? {
      var x, y := q.p.head, q.p.tail;
      NockStep(cfg, q.end, los, tel, x, y, s, rest, code);
      var t := JumpNext(cfg, q.end, x, y, tel, m.fol, q.end.ip + 1, Under(los, s, rest), fuel);
      RunPlus(cfg, q.n, t.n, m);
      if t.Finish? {
        NockEval(s, hed, tal, x, y, q.k, t.k + 1);
        r := Finish(q.n + t.n, t.p, Max(q.k, t.k + 1), t.end);
      } else {
        NockEval(s, hed, tal, x, y, q.k, fuel);
        r := Stall(q.n + t.n);
      }
    } else {
      NockNeeds(f, s, fuel);
      r := q;
    }
  }

  lemma NockNeeds(f: Noun, s: Noun, k: nat)
    requires f.Cell? && f.head == Atom(2) && f.tail.Cell?
    requires Eval(Live, k, s, f.tail.head) == None || Eval(Live, k, s, f.tail.tail) == None
    ensures Eval(Live, k, s, f) == None
  {
  }

  // ---- opcode 5 ----

  lemma SameEval(s: Noun, b: Noun, d: Noun, k: nat)
    ensures
      var f := Cell(Atom(5), Cell(b, d));
      Eval(Live, k, s, f) ==
      (match (Eval(Live, k, s, b), Eval(Live, k, s, d))
       case (Some(x), Some(y)) => Some(Loob(x == y))
       case _ => None)
  {
  }

  lemma ConstEval(s: Noun, x: Noun, k: nat)
    ensures Eval(Live, k, s, Cell(Atom(1), x)) == Some(x)
  {
  }

  lemma SamStep(cfg: Config, m: Machine, n: Noun, x: Noun, rest: Stack, code: Code)
    requires m.Running? && Program(m.fol) == Some(code) && CodeAt(code, m.ip, [SameLiteral(n)])
    requires m.stack == Item(x, rest)
    ensures Run(cfg, 1, m) == m.(ip := m.ip + 1, stack := Item(Loob(x == n), rest))
  {
    hide Comp;
    StepAt(cfg, m, code, SameLiteral(n));
  }

  lemma SalmStep(cfg: Config, m: Machine, los: bool, x: Noun, y: Noun, s: Noun, rest: Stack, code: Code)
    requires m.Running? && Program(m.fol) == Some(code) && CodeAt(code, m.ip, [Plain(if los then SALM else SAME)])
    requires m.stack == Item(y, Item(s, Item(x, rest)))
    ensures Run(cfg, 1, m) == m.(ip := m.ip + 1, stack := Item(Loob(x == y), Under(los, s, rest)))
  {
    hide Comp;
    StepAt(cfg, m, code, Plain(if los then SALM else SAME));
  }

  predicate IsConst(f: Noun) { f.Cell? && f.head == Atom(1) }

  /** The code of an equality: folded, against one literal, or general. */
  lemma SameShape(f: Noun, los: bool, tel: bool, c: Code)
    requires f.Cell? && f.head == Atom(5) && Comp(f, los, tel) == Some(c)
    ensures f.tail.Cell?
    ensures
      var b, d := f.tail.head, f.tail.tail;
      if IsConst(b) && IsConst(d) then c == [Literal(Loob(b.tail == d.tail), los)]
      else if IsConst(b) then Comp(d, los, false).Some? && c == Comp(d, los, false).value + [SameLiteral(b.tail)]
      else if IsConst(d) then Comp(b, los, false).Some? && c == Comp(b, los, false).value + [SameLiteral(d.tail)]
      else
        Comp(b, false, false).Some? && Comp(d, false, false).Some? &&
        c == (Comp(b, false, false).value + ([Plain(SWAP)] + Comp(d, false, false).value)) +
             [Plain(if los then SALM else SAME)]
  {
    var b, d := f.tail.head, f.tail.tail;
    if !IsConst(b) && !IsConst(d) {
      var x, y := Comp(b, false, false).value, Comp(d, false, false).value;
      assert c == x + ([Plain(SWAP)] + (y + [Plain(if los then SALM else SAME)]));
    }
  }

  /** An equality with one literal side: the other side, then one comparison. */
  lemma {:induction false} SimSameConst(cfg: Config, m: Machine, s: Noun, f: Noun, g: Noun, n: Noun, los: bool,
          rest: Stack,
                                        code: Code, c: Code, fuel: nat) returns (r: Report)
    requires f == Cell(Atom(5), Cell(g, Cell(Atom(1), n))) || f == Cell(Atom(5), Cell(Cell(Atom(1), n), g))
    requires Comp(g, los, false).Some? && c == Comp(g, los, false).value + [SameLiteral(n)]
    requires Ready(m, s, rest, code, c)
    ensures Reports(cfg, m, s, f, |c|, false, Under(los, s, rest), fuel, r)
    decreases fuel, Size(g), 3
  {
    hide Comp, Perform, ActAt, Eval;
    var a := Comp(g, los, false).value;
    Split(code, m.ip, a, [SameLiteral(n)]);
    var q := Sim(cfg, m, s, g, los, false, rest, code, a, fuel);
    ConstEval(s, n, fuel);
    SameEval(s, f.tail.head, f.tail.tail, fuel);
    if q.Finish? {
      ConstEval(s, n, q.k);
      SameEval(s, f.tail.head, f.tail.tail, q.k);
      SamStep(cfg, q.end, n, q.p, Under(los, s, rest), code);
      RunPlus(cfg, q.n, 1, m);
      r := Finish(q.n + 1, Loob(q.p == n), q.k, Run(cfg, 1, q.end));
    } else {
      r := q;
    }
  }

  lemma {:induction false} SimSame(cfg: Config, m: Machine, s: Noun, f: Noun, los: bool, rest: Stack,
                                   code: Code, c: Code, fuel: nat) returns (r: Report)
    requires f.Cell? && f.head == Atom(5)
    requires Comp(f, los, false) == Some(c) && Ready(m, s, rest, code, c)
    ensures Reports(cfg, m, s, f, |c|, false, Under(los, s, rest), fuel, r)
    decreases fuel, Size(f), 1
  {
    hide Comp, Perform, ActAt, Eval;
    SameShape(f, los, false, c);
    var b, d := f.tail.head, f.tail.tail;
    SizePair(f);
    assert f == Cell(Atom(5), Cell(b, d));
    if IsConst(b) && IsConst(d) {
      ConstEval(s, b.tail, 0);
      ConstEval(s, d.tail, 0);
      SameEval(s, b, d, 0);
      r := SimLiteral(cfg, m, s, f, Loob(b.tail == d.tail), los, rest, code, fuel);
    } else if IsConst(b) {
      r := SimSameConst(cfg, m, s, f, d, b.tail, los, rest, code, c, fuel);
    } else if IsConst(d) {
      r := SimSameConst(cfg, m, s, f, b, d.tail, los, rest, code, c, fuel);
    } else {
      var x, y := Comp(b, false, false).value, Comp(d, false, false).value;
      Split(code, m.ip, x + ([Plain(SWAP)] + y), [Plain(if los then SALM else SAME)]);
      var q := SimPair(cfg, m, s, b, d, rest, code, x, y, fuel);
      SameEval(s, b, d, fuel);
      if q.Finish? {
        SameEval(s, b, d, q.k);
        SalmStep(cfg, q.end, los, q.p.head, q.p.tail, s, rest, code);
        RunPlus(cfg, q.n, 1, m);
        r := Finish(q.n + 1, Loob(q.p.head == q.p.tail), q.k, Run(cfg, 1, q.end));
      } else {
        r := q;
      }
    }
  }

  // ---- opcode 6 ----

  lemma SkinStep(cfg: Config, m: Machine, n: nat, x: Noun, rest: Stack, code: Code)
    requires m.Running? && Program(m.fol) == Some(code) && CodeAt(code, m.ip, [Arg(SBIN, Atom(n))])
    requires m.stack == Item(x, rest)
    ensures Run(cfg, 1, m) ==
            if x == NO then m.(ip := m.ip + 1 + n, stack := rest)
            else if x == YES then m.(ip := m.ip + 1, stack := rest)
            else Bailed
  {
    hide Comp;
    StepAt(cfg, m, code, Arg(SBIN, Atom(n)));
  }

  lemma SkipStep(cfg: Config, m: Machine, n: nat, code: Code)
    requires m.Running? && Program(m.fol) == Some(code) && CodeAt(code, m.ip, [Arg(SBIP, Atom(n))])
    ensures Run(cfg, 1, m) == m.(ip := m.ip + 1 + n)
  {
    hide Comp;
    StepAt(cfg, m, code, Arg(SBIP, Atom(n)));
  }

  lemma BailStep(cfg: Config, m: Machine, code: Code)
    requires m.Running? && Program(m.fol) == Some(code) && CodeAt(code, m.ip, [Plain(BAIL)])
    ensures Run(cfg, 1, m) == Bailed
  {
    hide Comp;
    StepAt(cfg, m, code, Plain(BAIL));
  }

  function BranchEval(fuel: nat, s: Noun, g: Noun): Option<Noun> {
    if Formulaic(g) then Eval(Live, fuel, s, g) else None
  }

  lemma IfShape(f: Noun, los: bool, tel: bool, c: Code) returns (test: Code, yep: Code, nop: Code)
    requires f.Cell? && f.head == Atom(6) && Comp(f, los, tel) == Some(c)
    ensures f.tail.Cell? && f.tail.tail.Cell?
    ensures Comp(f.tail.head, false, false) == Some(test)
    ensures BranchCode(f.tail.tail.head, los, tel) == Some(yep) && BranchCode(f.tail.tail.tail, los, tel) == Some(nop)
    ensures c == Conditional(test, yep, nop)
  {
    test := Comp(f.tail.head, false, false).value;
    yep := BranchCode(f.tail.tail.head, los, tel).value;
    nop := BranchCode(f.tail.tail.tail, los, tel).value;
  }

  lemma IfEval(s: Noun, t: Noun, b: Noun, d: Noun, k: nat)
    ensures
      var f := Cell(Atom(6), Cell(t, Cell(b, d)));
      var v := Eval(Live, k, s, t);
      && (v == Some(YES) ==> Eval(Live, k, s, f) == BranchEval(k, s, b))
      && (v == Some(NO) ==> Eval(Live, k, s, f) == BranchEval(k, s, d))
      && (v != Some(YES) && v != Some(NO) ==> Eval(Live, k, s, f) == None)
  {
  }

  /** Either branch, whether compiled or replaced by a bail. */
  lemma {:induction false} SimBranch(cfg: Config, m: Machine, s: Noun, g: Noun, los: bool, tel: bool, rest: Stack,
                                     code: Code, c: Code, fuel: nat) returns (r: Report)
    requires tel ==> los
    requires BranchCode(g, los, tel) == Some(c) && Ready(m, s, rest, code, c)
    ensures r.Finish? ==>
              Leaves(cfg, m, r.n, r.end, r.p, Under(los, s, rest)) && Arrived(m, |c|, tel, r.end) &&
              BranchEval(r.k, s, g) == Some(r.p)
    ensures r.Stall? ==> BranchEval(fuel, s, g) == None && Stalls(cfg, m, r.n, fuel)
    decreases fuel, Size(g), 3
  {
    hide Comp, Perform, ActAt, Eval;
    if Formulaic(g) {
      r := Sim(cfg, m, s, g, los, tel, rest, code, c, fuel);
    } else {
      BailStep(cfg, m, code);
      r := Stall(1);
    }
  }

  /** Where the four parts of a conditional lie. */
  lemma IfLayout(code: Code, ip: nat, test: Code, yep: Code, nop: Code)
    requires CodeAt(code, ip, Conditional(test, yep, nop))
    ensures
      var a := ip + |test|;
      var b := a + 1 + |yep|;
      && CodeAt(code, ip, test) && CodeAt(code, a, [Arg(SBIN, Atom(|yep| + 1))])
      && CodeAt(code, a + 1, yep) && CodeAt(code, b, [Arg(SBIP, Atom(|nop|))]) && CodeAt(code, b + 1, nop)
  {
    var sbin, sbip := [Arg(SBIN, Atom(|yep| + 1))], [Arg(SBIP, Atom(|nop|))];
    Split(code, ip, test + sbin + (yep + sbip), nop);
    Split(code, ip, test + sbin, yep + sbip);
    Split(code, ip, test, sbin);
    Split(code, ip + |test| + 1, yep, sbip);
  }

  lemma {:induction false} SimIf(cfg: Config, m: Machine, s: Noun, f: Noun, los: bool, tel: bool, rest: Stack,
                                 code: Code, c: Code, fuel: nat) returns (r: Report)
    requires f.Cell? && f.head == Atom(6) && (tel ==> los)
    requires Comp(f, los, tel) == Some(c) && Ready(m, s, rest, code, c)
    ensures Reports(cfg, m, s, f, |c|, tel, Under(los, s, rest), fuel, r)
    decreases fuel, Size(f), 1
  {
    hide Comp, Perform, ActAt, Eval;
    var test, yep, nop := IfShape(f, los, tel, c);
    var t, b, d := f.tail.head, f.tail.tail.head, f.tail.tail.tail;
    assert f == Cell(Atom(6), Cell(t, Cell(b, d)));
    SizePair(f);
    SizePair(f.tail);
    IfLayout(code, m.ip, test, yep, nop);
    var q := Sim(cfg, m, s, t, false, false, rest, code, test, fuel);
    IfEval(s, t, b, d, fuel);
    if q.Finish? {
      r := IfBranches(cfg, m, s, t, b, d, los, tel, rest, code, test, yep, nop, fuel, q);
    } else {
      r := q;
    }
  }

  lemma {:induction false} IfBranches(cfg: Config, m: Machine, s: Noun, t: Noun, b: Noun, d: Noun, los: bool,
          tel: bool, rest: Stack,
                                      code: Code, test: Code, yep: Code, nop: Code, fuel: nat, q: Report) returns (r: Report)
    requires tel ==> los
    requires Ready(m, s, rest, code, Conditional(test, yep, nop))
    requires BranchCode(b, los, tel) == Some(yep) && BranchCode(d, los, tel) == Some(nop)
    requires q.Finish? && Leaves(cfg, m, q.n, q.end, q.p, Item(s, rest)) && Arrived(m, |test|, false, q.end)
    requires Eval(Live, q.k, s, t) == Some(q.p)
    ensures Reports(cfg, m, s, Cell(Atom(6), Cell(t, Cell(b, d))), |Conditional(test, yep, nop)|, tel,
                    Under(los, s, rest), fuel, r)
    decreases fuel, Size(b) + Size(d), 4
  {
    hide Comp, Perform, ActAt, Eval;
    IfLayout(code, m.ip, test, yep, nop);
    IfEval(s, t, b, d, fuel);
    SameOrNone(q.k, fuel, s, t, q.p);
    SkinStep(cfg, q.end, |yep| + 1, q.p, Item(s, rest), code);
    RunPlus(cfg, q.n, 1, m);
    var m1 := Run(cfg, 1, q.end);
    if q.p == YES {
      var u := SimBranch(cfg, m1, s, b, los, tel, rest, code, yep, fuel);
      r := IfTaken(cfg, m, s, t, b, d, b, los, tel, rest, code, test, yep, nop, fuel, q, m1, u);
    } else if q.p == NO {
      var u := SimBranch(cfg, m1, s, d, los, tel, rest, code, nop, fuel);
      r := IfTaken(cfg, m, s, t, b, d, d, los, tel, rest, code, test, yep, nop, fuel, q, m1, u);
    } else {
      r := Stall(q.n + 1);
    }
  }

  /** After the branch `g` that the test chose. */
  lemma IfTaken(cfg: Config, m: Machine, s: Noun, t: Noun, b: Noun, d: Noun, g: Noun, los: bool, tel: bool, rest: Stack,
                code: Code, test: Code, yep: Code, nop: Code, fuel: nat, q: Report, m1: Machine, u: Report) returns (r: Report)
    requires q.Finish? && q.end.Running? && m.Running? && m1.Running? && Run(cfg, q.n + 1, m) == m1 && m1.fol == m.fol && m1.trace == m.trace
    requires (q.p == YES && g == b && m1.ip == m.ip + |test| + 1) || (q.p == NO && g == d && m1.ip == m.ip + |test| + 1 + |yep| + 1)
    requires Program(m.fol) == Some(code)
    requires CodeAt(code, m.ip + |test| + 1 + |yep|, [Arg(SBIP, Atom(|nop|))])
    requires Eval(Live, q.k, s, t) == Some(q.p) && (Eval(Live, fuel, s, t) == Some(q.p) || Eval(Live, fuel, s, t) == None)
    requires u.Finish? ==>
               Leaves(cfg, m1, u.n, u.end, u.p, Under(los, s, rest)) && BranchEval(u.k, s, g) == Some(u.p) &&
               Arrived(m1, if q.p == YES then |yep| else |nop|, tel, u.end)
    requires u.Stall? ==> BranchEval(fuel, s, g) == None && Stalls(cfg, m1, u.n, fuel)
    ensures Reports(cfg, m, s, Cell(Atom(6), Cell(t, Cell(b, d))), |Conditional(test, yep, nop)|, tel,
                    Under(los, s, rest), fuel, r)
  {
    hide Comp, Perform, ActAt, Eval, CodeAt, Run, BranchEval;
    RunPlus(cfg, q.n + 1, u.n, m);
    if u.Finish? {
      var k := Max(q.k, u.k);
      EvalMonotone(Live, q.k, k, s, t);
      BranchMonotone(u.k, k, s, g);
      IfEval(s, t, b, d, k);
      if q.p == YES && u.end.fol == m.fol && u.end.ip == m1.ip + |yep| {
        SkipStep(cfg, u.end, |nop|, code);
        RunPlus(cfg, q.n + 1 + u.n, 1, m);
        r := Finish(q.n + 1 + u.n + 1, u.p, k, Run(cfg, 1, u.end));
      } else {
        r := Finish(q.n + 1 + u.n, u.p, k, u.end);
      }
    } else {
      IfEval(s, t, b, d, fuel);
      r := Stall(q.n + 1 + u.n);
    }
  }

  lemma BranchMonotone(k: nat, l: nat, s: Noun, g: Noun)
    requires k <= l && BranchEval(k, s, g).Some?
    ensures BranchEval(l, s, g) == BranchEval(k, s, g)
  {
    hide Eval;
    EvalMonotone(Live, k, l, s, g);
  }

  // ---- opcodes 7 and 8 ----

  /** The subject the second formula runs on. */
  function Next(op: nat, x: Noun, s: Noun): Noun { if op == 7 then x else Cell(x, s) }

  lemma ThenEval(op: nat, s: Noun, b: Noun, d: Noun, k: nat)
    requires op == 7 || op == 8
    ensures Eval(Live, k, s, Cell(Atom(op), Cell(b, d))) ==
            (match Eval(Live, k, s, b)
             case Some(x) => Eval(Live, k, Next(op, x, s), d)
             case None => None)
  {
  }

  /** What stands between the two formulas: nothing, or the push of opcode 8. */
  function Between(op: nat, los: bool): Code {
    if op == 7 then [] else [Plain(if los then SNOL else SNOC)]
  }

  lemma ThenShape(f: Noun, los: bool, tel: bool, c: Code) returns (a: Code, b: Code)
    requires f.Cell? && (f.head == Atom(7) || f.head == Atom(8)) && Comp(f, los, tel) == Some(c)
    ensures f.tail.Cell? && Comp(f.tail.head, f.head == Atom(7) && los, false) == Some(a)
    ensures Comp(f.tail.tail, true, tel) == Some(b)
    ensures c == a + (Between(f.head.value, los) + b)
  {
    a := Comp(f.tail.head, f.head == Atom(7) && los, false).value;
    b := Comp(f.tail.tail, true, tel).value;
  }

  lemma BetweenStep(cfg: Config, m: Machine, op: nat, los: bool, x: Noun, s: Noun, rest: Stack, code: Code)
    returns (n: nat)
    requires m.Running? && Program(m.fol) == Some(code) && CodeAt(code, m.ip, Between(op, los))
    requires op == 7 || op == 8
    requires m.stack == Item(x, Under(op == 7 && los, s, rest))
    ensures Run(cfg, n, m) ==
            m.(ip := m.ip + |Between(op, los)|, stack := Item(Next(op, x, s), Under(los, s, rest)))
  {
    hide Comp;
    if op == 7 {
      n := 0;
    } else {
      StepAt(cfg, m, code, Plain(if los then SNOL else SNOC));
      n := 1;
    }
  }

  lemma {:induction false} SimThen(cfg: Config, m: Machine, s: Noun, f: Noun, los: bool, tel: bool, rest: Stack,
                                   code: Code, c: Code, fuel: nat) returns (r: Report)
    requires f.Cell? && (f.head == Atom(7) || f.head == Atom(8)) && (tel ==> los)
    requires Comp(f, los, tel) == Some(c) && Ready(m, s, rest, code, c)
    ensures Reports(cfg, m, s, f, |c|, tel, Under(los, s, rest), fuel, r)
    decreases fuel, Size(f), 1
  {
    hide Comp, Perform, ActAt, Eval;
    var op := f.head.value;
    var a, b := ThenShape(f, los, tel, c);
    var hed, tal := f.tail.head, f.tail.tail;
    assert f == Cell(Atom(op), Cell(hed, tal));
    SizePair(f);
    Split(code, m.ip, a, Between(op, los) + b);
    Split(code, m.ip + |a|, Between(op, los), b);
    var q := Sim(cfg, m, s, hed, op == 7 && los, false, rest, code, a, fuel);
    ThenEval(op, s, hed, tal, fuel);
    if q.Finish? {
      var n := BetweenStep(cfg, q.end, op, los, q.p, s, rest, code);
      var m1 := Run(cfg, n, q.end);
      RunPlus(cfg, q.n, n, m);
      var u := Sim(cfg, m1, Next(op, q.p, s), tal, true, tel, Under(los, s, rest), code, b, fuel);
      RunPlus(cfg, q.n + n, u.n, m);
      if u.Finish? {
        var k := Max(q.k, u.k);
        EvalMonotone(Live, q.k, k, s, hed);
        EvalMonotone(Live, u.k, k, Next(op, q.p, s), tal);
        ThenEval(op, s, hed, tal, k);
        r := Finish(q.n + n + u.n, u.p, k, u.end);
      } else {
        SameOrNone(q.k, fuel, s, hed, q.p);
        r := Stall(q.n + n + u.n);
      }
    } else {
      r := q;
    }
  }

  // ---- opcode 9 ----

  lemma KickEval(s: Noun, d: Noun, axis: nat, core: Noun, k: nat, j: nat)
    requires Eval(Live, k, s, d) == Some(core)
    ensures
      var f := Cell(Atom(9), Cell(Atom(axis), d));
      match At(axis, core)
      case None => Eval(Live, j, s, f) == None
      case Some(g) =>
        && (j > 0 && Enter(Live, j - 1, core, g).Some? ==>
              Eval(Live, Max(k, j), s, f) == Enter(Live, j - 1, core, g))
        && ((j == 0 || Enter(Live, j - 1, core, g) == None) ==> Eval(Live, j, s, f) == None)
  {
    var top := Max(k, j);
    EvalMonotone(Live, k, top, s, d);
    SameOrNone(k, j, s, d, core);
    if At(axis, core).Some? {
      var g := At(axis, core).value;
      if j > 0 && Enter(Live, j - 1, core, g).Some? { EvalMonotone(Live, j - 1, top - 1, core, g); }
    }
  }

  lemma KickNeeds(f: Noun, s: Noun, k: nat)
    requires f.Cell? && f.head == Atom(9) && f.tail.Cell? && Eval(Live, k, s, f.tail.tail) == None
    ensures Eval(Live, k, s, f) == None
  {
  }

  predicate Sited(axis: nat) { axis > 1 && Cap(axis) == 2 }

  function KickOp(axis: nat, tel: bool): Op { Arg(if tel then TICB else KICB, Atom(axis)) }

  lemma KickShape(f: Noun, los: bool, tel: bool, c: Code)
    requires f.Cell? && f.head == Atom(9) && (tel ==> los) && Comp(f, los, tel) == Some(c)
    ensures f.tail.Cell? && f.tail.head.Atom? && f.tail.head.value > 0
    ensures
      var axis, d := f.tail.head.value, f.tail.tail;
      Comp(d, los, false).Some? &&
      c == Comp(d, los, false).value + (if Sited(axis) then [KickOp(axis, tel)] else ComputedKick(axis, tel))
  {
  }

  /** The kick through a call site. */
  lemma SiteStep(cfg: Config, m: Machine, axis: nat, tel: bool, core: Noun, rest: Stack, code: Code)
    requires m.Running? && Program(m.fol) == Some(code) && CodeAt(code, m.ip, [KickOp(axis, tel)])
    requires m.stack == Item(core, rest) && Sited(axis) && CachesOk(m.caches)
    ensures
      match At(axis, core)
      case None => Run(cfg, 1, m) == Bailed
      case Some(g) =>
        var m1 := Run(cfg, 1, m);
        && m1.Running? && m1.fol == g && m1.ip == 0 && CachesOk(m1.caches) && m1.trace == m.trace
        && m1.stack == Item(core, if tel then rest else Frame(m.fol, m.ip + 1, rest))
  {
    hide Comp;
    StepAt(cfg, m, code, KickOp(axis, tel));
    assert ActAt(code, m.ip) == Kick(SitesIn(code[m.ip + 1..]), Atom(axis), tel);
    if core.Atom? {
      AtFromRoot(axis, core);
    } else {
      LockSound(m.caches, m.fol, code, m.ip, core);
    }
  }

  lemma CopyStep(cfg: Config, m: Machine, a: Noun, rest: Stack, code: Code)
    requires m.Running? && Program(m.fol) == Some(code) && CodeAt(code, m.ip, [Plain(COPY)])
    requires m.stack == Item(a, rest)
    ensures Run(cfg, 1, m) == m.(ip := m.ip + 1, stack := Item(a, Item(a, rest)))
  {
    hide Comp;
    StepAt(cfg, m, code, Plain(COPY));
  }

  lemma KickLayout(code: Code, ip: nat, axis: nat, tel: bool)
    requires CodeAt(code, ip, ComputedKick(axis, tel))
    ensures CodeAt(code, ip, [Plain(COPY)]) && CodeAt(code, ip + 1, [Plain(SWAP)])
    ensures CodeAt(code, ip + 2, Fragment(axis, false))
    ensures CodeAt(code, ip + 2 + |Fragment(axis, false)|, [NockOp(true, tel)])
  {
    var two := [Plain(COPY), Plain(SWAP)];
    Split(code, ip, two + Fragment(axis, false), [NockOp(true, tel)]);
    Split(code, ip, two, Fragment(axis, false));
    assert two == [Plain(COPY)] + [Plain(SWAP)];
    Split(code, ip, [Plain(COPY)], [Plain(SWAP)]);
  }

  /** The kick outside the battery: copy the core, take the formula from it, and run it. */
  lemma ComputedStep(cfg: Config, m: Machine, axis: nat, tel: bool, core: Noun, rest: Stack, code: Code)
    returns (n: nat)
    requires m.Running? && Program(m.fol) == Some(code) && CodeAt(code, m.ip, ComputedKick(axis, tel))
    requires m.stack == Item(core, rest) && CachesOk(m.caches)
    ensures
      match At(axis, core)
      case None => Run(cfg, n, m) == Bailed
      case Some(g) =>
        var len := |ComputedKick(axis, tel)|;
        n > 0 && var before := Run(cfg, n - 1, m);
        && before == m.(ip := m.ip + len - 1, stack := Item(g, Item(core, Item(core, rest))))
        && Run(cfg, 1, before) ==
           m.(fol := g, ip := 0, stack := Item(core, if tel then rest else Frame(m.fol, m.ip + len, rest)))
  {
    hide Comp, Perform, ActAt, Eval;
    KickLayout(code, m.ip, axis, tel);
    CopyStep(cfg, m, core, rest, code);
    var m1 := Run(cfg, 1, m);
    var m2 := SwapStep(cfg, m1, code, core, core, rest);
    RunPlus(cfg, 1, 1, m);
    var q := SimFragment(cfg, m2, core, axis, false, Item(core, rest), code, 0);
    FragmentEval(core, axis, 0);
    RunPlus(cfg, 2, q.n, m);
    if q.Finish? {
      FragmentEval(core, axis, q.k);
      var m3 := q.end;
      assert m3.stack == Item(q.p, Item(core, Item(core, rest)));
      NockStep(cfg, m3, true, tel, core, q.p, core, rest, code);
      n := 2 + q.n + 1;
    } else {
      n := 2 + q.n;
    }
  }

  lemma FragmentEval(s: Noun, axis: nat, k: nat)
    ensures Eval(Live, k, s, Cell(Atom(0), Atom(axis))) == At(axis, s)
  {
  }

  lemma {:induction false} SimKick(cfg: Config, m: Machine, s: Noun, f: Noun, los: bool, tel: bool, rest: Stack,
                                   code: Code, c: Code, fuel: nat) returns (r: Report)
    requires f.Cell? && f.head == Atom(9) && (tel ==> los)
    requires Comp(f, los, tel) == Some(c) && Ready(m, s, rest, code, c)
    ensures Reports(cfg, m, s, f, |c|, tel, Under(los, s, rest), fuel, r)
    decreases fuel, Size(f), 1
  {
    hide Comp, Perform, ActAt, Eval;
    KickShape(f, los, tel, c);
    var axis, d := f.tail.head.value, f.tail.tail;
    assert f == Cell(Atom(9), Cell(Atom(axis), d));
    SizePair(f);
    var a := Comp(d, los, false).value;
    var kick := if Sited(axis) then [KickOp(axis, tel)] else ComputedKick(axis, tel);
    Split(code, m.ip, a, kick);
    var below := Under(los, s, rest);
    var q := Sim(cfg, m, s, d, los, false, rest, code, a, fuel);
    if q.Finish? {
      var core := q.p;
      KickEval(s, d, axis, core, q.k, fuel);
      var n := KickStep(cfg, q.end, axis, tel, core, below, code);
      RunPlus(cfg, q.n, n, m);
      match At(axis, core)
      case None => r := Stall(q.n + n);
      case Some(g) =>
        var before := Run(cfg, n - 1, q.end);
        RunPlus(cfg, q.n, n - 1, m);
        var u := JumpNext(cfg, before, core, g, tel, m.fol, m.ip + |c|, below, fuel);
        RunPlus(cfg, q.n + n - 1, u.n, m);
        if u.Finish? {
          KickEval(s, d, axis, core, q.k, u.k + 1);
          r := Finish(q.n + n - 1 + u.n, u.p, Max(q.k, u.k + 1), u.end);
        } else {
          r := Stall(q.n + n - 1 + u.n);
        }
    } else {
      KickNeeds(f, s, fuel);
      r := q;
    }
  }

  /** Either kind of kick, up to the step that enters the formula. */
  lemma KickStep(cfg: Config, m: Machine, axis: nat, tel: bool, core: Noun, rest: Stack, code: Code)
    returns (n: nat)
    requires m.Running? && Program(m.fol) == Some(code) && axis > 0
    requires CodeAt(code, m.ip, if Sited(axis) then [KickOp(axis, tel)] else ComputedKick(axis, tel))
    requires m.stack == Item(core, rest) && CachesOk(m.caches)
    ensures
      match At(axis, core)
      case None => Run(cfg, n, m) == Bailed
      case Some(g) =>
        var len := if Sited(axis) then 1 else |ComputedKick(axis, tel)|;
        n > 0 && var before := Run(cfg, n - 1, m); var m1 := Run(cfg, 1, before);
        && before.Running? && before.trace == m.trace
        && m1.Running? && m1.fol == g && m1.ip == 0 && CachesOk(m1.caches) && m1.trace == m.trace
        && m1.stack == Item(core, if tel then rest else Frame(m.fol, m.ip + len, rest))
  {
    hide Comp, Perform, ActAt, Eval;
    if Sited(axis) {
      SiteStep(cfg, m, axis, tel, core, rest, code);
      n := 1;
    } else {
      n := ComputedStep(cfg, m, axis, tel, core, rest, code);
    }
  }

  // ---- opcode 11 ----

  /** Hints whose formula is compiled right after the clue is dropped, in the mode of the hint. */
  predicate Dropped(zep: Noun) { !Pushed(zep) && zep != FAST && zep != MEMO && !Timed(zep) }

  function DropOp(zep: Noun): Op {
    Plain(if zep == LIVE then HECK else if zep == SLOG_TAG then SLOG else TOSS)
  }

  lemma HintEval(s: Noun, hif: Noun, nef: Noun, k: nat)
    ensures Eval(Live, k, s, Cell(Atom(11), Cell(hif, nef))) ==
            if hif.Atom? then Eval(Live, k, s, nef)
            else DynamicResult(hif.head, Eval(Live, k, s, hif.tail), Eval(Live, k, s, nef))
  {
    if hif.Cell? { DynamicEval(s, hif.head, hif.tail, nef, k); }
  }

  /** The product under a dynamic hint, from the products of its clue and its formula. */
  function DynamicResult(zep: Noun, clue: Option<Noun>, x: Option<Noun>): Option<Noun> {
    if clue.Some? && x.Some? && AdmitsClue(Live, zep, clue.value) then x else None
  }

  lemma DynamicEval(s: Noun, zep: Noun, hod: Noun, nef: Noun, k: nat)
    ensures Eval(Live, k, s, Cell(Atom(11), Cell(Cell(zep, hod), nef))) ==
            DynamicResult(zep, Eval(Live, k, s, hod), Eval(Live, k, s, nef))
  {
    hide Comp, At, Formulaic;
  }

  lemma HintShape(f: Noun, los: bool, tel: bool, c: Code)
    requires f.Cell? && f.head == Atom(11) && Comp(f, los, tel) == Some(c)
    ensures f.tail.Cell? && Bint(f.tail.head, f.tail.tail, los, tel) == Some(c)
  {
  }

  lemma {:induction false} SimHint(cfg: Config, m: Machine, s: Noun, f: Noun, los: bool, tel: bool, rest: Stack,
                                   code: Code, c: Code, fuel: nat) returns (r: Report)
    requires f.Cell? && f.head == Atom(11) && (tel ==> los)
    requires Comp(f, los, tel) == Some(c) && Ready(m, s, rest, code, c)
    ensures Reports(cfg, m, s, f, |c|, tel, Under(los, s, rest), fuel, r)
    decreases fuel, Size(f), 1
  {
    hide Comp, Perform, ActAt, Eval;
    HintShape(f, los, tel, c);
    var hif, nef := f.tail.head, f.tail.tail;
    assert f == Cell(Atom(11), Cell(hif, nef));
    SizePair(f);
    match hif
    case Atom(_) =>
      HintEval(s, hif, nef, fuel);
      if Timed(hif) {
        r := SimTimed(cfg, m, s, hif, None, nef, los, rest, code, c, fuel);
        if r.Finish? { HintEval(s, hif, nef, r.k); }
      } else {
        r := Sim(cfg, m, s, nef, los, tel, rest, code, c, fuel);
        if r.Finish? { HintEval(s, hif, nef, r.k); }
      }
    case Cell(zep, hod) =>
      var a := Comp(hod, false, false).value;
      ClueShape(zep, hod, nef, los, tel, c);
      assert Size(hif) == 1 + Size(zep) + Size(hod);
      Split(code, m.ip, a, c[|a|..]);
      var q := Sim(cfg, m, s, hod, false, false, rest, code, a, fuel);
      HintEval(s, hif, nef, fuel);
      if q.Finish? {
        var u := SimClued(cfg, q.end, s, zep, hod, q.p, nef, los, tel, rest, code, c[|a|..], fuel);
        RunPlus(cfg, q.n, u.n, m);
        SameOrNone(q.k, fuel, s, hod, q.p);
        if u.Finish? {
          var k := Max(q.k, u.k);
          EvalMonotone(Live, q.k, k, s, hod);
          EvalMonotone(Live, u.k, k, s, nef);
          HintEval(s, hif, nef, k);
          r := Finish(q.n + u.n, u.p, k, u.end);
        } else {
          r := Stall(q.n + u.n);
        }
      } else {
        r := q;
      }
  }

  /** The code after the clue of a dynamic hint. */
  function CluedCode(zep: Noun, nef: Noun, los: bool, tel: bool): Option<Code> {
    if Pushed(zep) then Cat(Emit(Arg(BUSH, zep)), Cat(Comp(nef, los, false), Emit(Plain(DROP))))
    else if zep == FAST then
      Cat(Emit(Plain(SWAP)), Cat(Comp(nef, false, false), Emit(Plain(if los then BALT else BAST))))
    else if zep == MEMO then
      var body := Cat(Comp(nef, true, false), Emit(Plain(SAVE)));
      if body.None? then None
      else Cat(Emit(Plain(TOSS)), Cat(Emit(Memo(if los then SLIB else SKIB, |body.value|, nef)), body))
    else if Timed(zep) then
      var body := Comp(nef, los, false);
      if body.None? then None
      else Some(Timing([Arg(HINB, Cell(zep, nef))], Plain(if los then HINL else HINK), body.value, los))
    else Cat(Emit(DropOp(zep)), Comp(nef, los, tel))
  }

  lemma ClueShape(zep: Noun, hod: Noun, nef: Noun, los: bool, tel: bool, c: Code)
    requires Bint(Cell(zep, hod), nef, los, tel) == Some(c)
    ensures Comp(hod, false, false).Some? && CluedCode(zep, nef, los, tel).Some?
    ensures var a := Comp(hod, false, false).value;
            c == a + CluedCode(zep, nef, los, tel).value && c[|a|..] == CluedCode(zep, nef, los, tel).value
  {
    hide Comp;
    var a := Comp(hod, false, false).value;
    if Timed(zep) && !Pushed(zep) && zep != LIVE && zep != SLOG_TAG && zep != FAST && zep != MEMO {
      var body := Comp(nef, los, false).value;
      var fore := [Arg(HINB, Cell(zep, nef))];
      var hind := Plain(if los then HINL else HINK);
      assert Timing(a + fore, hind, body, los) == a + Timing(fore, hind, body, los);
    }
  }

  /** A dynamic hint, from the moment its clue is on the stack. */
  lemma {:induction false} SimClued(cfg: Config, m: Machine, s: Noun, zep: Noun, hod: Noun, clue: Noun, nef: Noun,
                                    los: bool, tel: bool, rest: Stack, code: Code, c: Code, fuel: nat) returns (r: Report)
    requires (tel ==> los) && m.Running? && Program(m.fol) == Some(code) && CachesOk(m.caches)
    requires m.stack == Item(clue, Item(s, rest))
    requires CluedCode(zep, nef, los, tel) == Some(c) && CodeAt(code, m.ip, c)
    ensures r.Finish? ==>
              Leaves(cfg, m, r.n, r.end, r.p, Under(los, s, rest)) && Arrived(m, |c|, tel, r.end) &&
              Eval(Live, r.k, s, nef) == Some(r.p) && AdmitsClue(Live, zep, clue)
    ensures r.Stall? ==>
              (Eval(Live, fuel, s, nef) == None || !AdmitsClue(Live, zep, clue)) && Stalls(cfg, m, r.n, fuel)
    decreases fuel, Size(nef), 5
  {
    hide Comp, Perform, ActAt, Eval;
    if Pushed(zep) {
      r := SimPushed(cfg, m, s, zep, clue, nef, los, rest, code, c, fuel);
    } else if zep == FAST {
      r := SimFast(cfg, m, s, clue, nef, los, rest, code, c, fuel);
    } else if zep == MEMO {
      r := SimMemo(cfg, m, s, clue, nef, los, rest, code, c, fuel);
    } else if Timed(zep) {
      r := SimTimed(cfg, m, s, zep, Some(clue), nef, los, rest, code, c, fuel);
    } else {
      var b := Comp(nef, los, tel).value;
      Split(code, m.ip, [DropOp(zep)], b);
      DropStep(cfg, m, zep, clue, Item(s, rest), code);
      var m1 := Run(cfg, 1, m);
      r := Sim(cfg, m1, s, nef, los, tel, rest, code, b, fuel);
      r := Later(cfg, m, 1, m1, r, fuel);
    }
  }

  /** A report about a later state, as a report about an earlier one. */
  lemma Later(cfg: Config, m: Machine, a: nat, m1: Machine, q: Report, fuel: nat) returns (r: Report)
    requires Run(cfg, a, m) == m1
    requires q.Finish? ==> Run(cfg, q.n, m1) == q.end
    requires q.Stall? ==> Stalls(cfg, m1, q.n, fuel)
    ensures q.Finish? ==> r == Finish(a + q.n, q.p, q.k, q.end) && Run(cfg, a + q.n, m) == q.end
    ensures q.Stall? ==> r == Stall(a + q.n) && Stalls(cfg, m, a + q.n, fuel)
  {
    hide Comp, Perform, ActAt, Eval;
    RunPlus(cfg, a, q.n, m);
    r := if q.Finish? then Finish(a + q.n, q.p, q.k, q.end) else Stall(a + q.n);
  }

  lemma DropStep(cfg: Config, m: Machine, zep: Noun, a: Noun, rest: Stack, code: Code)
    requires m.Running? && Program(m.fol) == Some(code) && CodeAt(code, m.ip, [DropOp(zep)])
    requires m.stack == Item(a, rest)
    ensures Run(cfg, 1, m) == m.(ip := m.ip + 1, stack := rest)
  {
    hide Comp;
    StepAt(cfg, m, code, DropOp(zep));
  }

  lemma PushStep(cfg: Config, m: Machine, zep: Noun, a: Noun, rest: Stack, code: Code)
    requires m.Running? && Program(m.fol) == Some(code) && CodeAt(code, m.ip, [Arg(BUSH, zep)])
    requires m.stack == Item(a, rest)
    ensures Run(cfg, 1, m) == m.(ip := m.ip + 1, stack := rest, trace := Traced(zep, a, m.trace))
  {
    hide Comp;
    StepAt(cfg, m, code, Arg(BUSH, zep));
  }

  lemma UntraceStep(cfg: Config, m: Machine, code: Code)
    requires m.Running? && Program(m.fol) == Some(code) && CodeAt(code, m.ip, [Plain(DROP)]) && m.trace.Traced?
    ensures Run(cfg, 1, m) == m.(ip := m.ip + 1, trace := m.trace.rest)
  {
    hide Comp;
    StepAt(cfg, m, code, Plain(DROP));
  }

  /** A stack-trace hint: the trace grows for the formula, which is never in tail position, and
      is restored after it. */
  lemma {:induction false} SimPushed(cfg: Config, m: Machine, s: Noun, zep: Noun, clue: Noun, nef: Noun, los: bool,
                                     rest: Stack, code: Code, c: Code, fuel: nat) returns (r: Report)
    requires m.Running? && Program(m.fol) == Some(code) && CachesOk(m.caches)
    requires m.stack == Item(clue, Item(s, rest))
    requires Comp(nef, los, false).Some? && CodeAt(code, m.ip, c)
    requires c == [Arg(BUSH, zep)] + (Comp(nef, los, false).value + [Plain(DROP)])
    ensures r.Finish? ==>
              Leaves(cfg, m, r.n, r.end, r.p, Under(los, s, rest)) && Arrived(m, |c|, false, r.end) &&
              Eval(Live, r.k, s, nef) == Some(r.p)
    ensures r.Stall? ==> Eval(Live, fuel, s, nef) == None && Stalls(cfg, m, r.n, fuel)
    decreases fuel, Size(nef), 4
  {
    hide Comp, Perform, ActAt, Eval;
    var b := Comp(nef, los, false).value;
    Split(code, m.ip, [Arg(BUSH, zep)], b + [Plain(DROP)]);
    Split(code, m.ip + 1, b, [Plain(DROP)]);
    PushStep(cfg, m, zep, clue, Item(s, rest), code);
    var m1 := Run(cfg, 1, m);
    r := Sim(cfg, m1, s, nef, los, false, rest, code, b, fuel);
    r := Later(cfg, m, 1, m1, r, fuel);
    if r.Finish? {
      UntraceStep(cfg, r.end, code);
      RunPlus(cfg, r.n, 1, m);
      r := Finish(r.n + 1, r.p, r.k, Run(cfg, 1, r.end));
    }
  }

  lemma FastStep(cfg: Config, m: Machine, los: bool, pro: Noun, s: Noun, clue: Noun, rest: Stack, code: Code)
    requires m.Running? && Program(m.fol) == Some(code) && CodeAt(code, m.ip, [Plain(if los then BALT else BAST)])
    requires m.stack == Item(pro, Item(s, Item(clue, rest)))
    ensures Run(cfg, 1, m) == m.(ip := m.ip + 1, stack := Item(pro, Under(los, s, rest)))
  {
    hide Comp;
    StepAt(cfg, m, code, Plain(if los then BALT else BAST));
  }

  lemma {:induction false} SimFast(cfg: Config, m: Machine, s: Noun, clue: Noun, nef: Noun, los: bool,
                                   rest: Stack, code: Code, c: Code, fuel: nat) returns (r: Report)
    requires m.Running? && Program(m.fol) == Some(code) && CachesOk(m.caches)
    requires m.stack == Item(clue, Item(s, rest))
    requires Comp(nef, false, false).Some? && CodeAt(code, m.ip, c)
    requires c == [Plain(SWAP)] + (Comp(nef, false, false).value + [Plain(if los then BALT else BAST)])
    ensures r.Finish? ==>
              Leaves(cfg, m, r.n, r.end, r.p, Under(los, s, rest)) && Arrived(m, |c|, false, r.end) &&
              Eval(Live, r.k, s, nef) == Some(r.p)
    ensures r.Stall? ==> Eval(Live, fuel, s, nef) == None && Stalls(cfg, m, r.n, fuel)
    decreases fuel, Size(nef), 4
  {
    hide Comp, Perform, ActAt, Eval;
    var b := Comp(nef, false, false).value;
    Split(code, m.ip, [Plain(SWAP)], b + [Plain(if los then BALT else BAST)]);
    Split(code, m.ip + 1, b, [Plain(if los then BALT else BAST)]);
    var m1 := SwapStep(cfg, m, code, clue, s, rest);
    r := Sim(cfg, m1, s, nef, false, false, Item(clue, rest), code, b, fuel);
    r := Later(cfg, m, 1, m1, r, fuel);
    if r.Finish? {
      FastStep(cfg, r.end, los, r.p, s, clue, rest, code);
      RunPlus(cfg, r.n, 1, m);
      r := Finish(r.n + 1, r.p, r.k, Run(cfg, 1, r.end));
    }
  }

  lemma FindStep(cfg: Config, m: Machine, n: nat, nef: Noun, los: bool, s: Noun, rest: Stack, code: Code)
    requires m.Running? && Program(m.fol) == Some(code) && m.stack == Item(s, rest) && CachesOk(m.caches)
    requires CodeAt(code, m.ip, [Memo(if los then SLIB else SKIB, n, nef)])
    ensures
      var m1 := Run(cfg, 1, m);
      var k := Cell(s, nef);
      && m1.Running? && CachesOk(m1.caches) && m1.trace == m.trace && m1.fol == m.fol
      && ((m1.ip == m.ip + 1 && m1.stack == Item(s, Item(k, Under(los, s, rest)))) ||
          (m1.ip == m.ip + 1 + n && m1.stack.Item? && m1.stack.rest == Under(los, s, rest) &&
           Product(s, nef, m1.stack.noun)))
  {
    hide Comp, Eval;
    StepAt(cfg, m, code, Memo(if los then SLIB else SKIB, n, nef));
    assert ActAt(code, m.ip) == Find(n, nef, los);
  }

  lemma SaveStep(cfg: Config, m: Machine, pro: Noun, s: Noun, nef: Noun, rest: Stack, code: Code)
    requires m.Running? && Program(m.fol) == Some(code) && CodeAt(code, m.ip, [Plain(SAVE)])
    requires m.stack == Item(pro, Item(Cell(s, nef), rest)) && CachesOk(m.caches) && Product(s, nef, pro)
    ensures
      var m1 := Run(cfg, 1, m);
      && m1.Running? && CachesOk(m1.caches) && m1.trace == m.trace && m1.fol == m.fol && m1.ip == m.ip + 1
      && m1.stack == Item(pro, rest)
  {
    hide Comp, Eval;
    StepAt(cfg, m, code, Plain(SAVE));
  }

  /** A memo hint: a hit leaves the stored product, which is the product of the formula; a miss
      computes it and stores it under its subject and formula. */
  lemma {:induction false} SimMemo(cfg: Config, m: Machine, s: Noun, clue: Noun, nef: Noun, los: bool,
                                   rest: Stack, code: Code, c: Code, fuel: nat) returns (r: Report)
    requires m.Running? && Program(m.fol) == Some(code) && CachesOk(m.caches)
    requires m.stack == Item(clue, Item(s, rest))
    requires Comp(nef, true, false).Some? && CodeAt(code, m.ip, c)
    requires
      var body := Comp(nef, true, false).value + [Plain(SAVE)];
      c == [Plain(TOSS)] + ([Memo(if los then SLIB else SKIB, |body|, nef)] + body)
    ensures r.Finish? ==>
              Leaves(cfg, m, r.n, r.end, r.p, Under(los, s, rest)) && Arrived(m, |c|, false, r.end) &&
              Eval(Live, r.k, s, nef) == Some(r.p)
    ensures r.Stall? ==> Eval(Live, fuel, s, nef) == None && Stalls(cfg, m, r.n, fuel)
    decreases fuel, Size(nef), 4
  {
    hide Comp, Perform, ActAt, Eval;
    var b := Comp(nef, true, false).value;
    var find := [Memo(if los then SLIB else SKIB, |b| + 1, nef)];
    Split(code, m.ip, [Plain(TOSS)], find + (b + [Plain(SAVE)]));
    Split(code, m.ip + 1, find, b + [Plain(SAVE)]);
    Split(code, m.ip + 2, b, [Plain(SAVE)]);
    DropStep(cfg, m, Atom(0), clue, Item(s, rest), code);
    var m1 := Run(cfg, 1, m);
    FindStep(cfg, m1, |b| + 1, nef, los, s, rest, code);
    var m2 := Run(cfg, 1, m1);
    RunPlus(cfg, 1, 1, m);
    if m2.ip == m1.ip + 1 {
      var below := Item(Cell(s, nef), Under(los, s, rest));
      r := Sim(cfg, m2, s, nef, true, false, below, code, b, fuel);
      r := Later(cfg, m, 2, m2, r, fuel);
      if r.Finish? {
        SaveStep(cfg, r.end, r.p, s, nef, Under(los, s, rest), code);
        RunPlus(cfg, r.n, 1, m);
        r := Finish(r.n + 1, r.p, r.k, Run(cfg, 1, r.end));
      }
    } else {
      var k :| Eval(Live, k, s, nef) == Some(m2.stack.noun);
      r := Finish(2, m2.stack.noun, k, m2);
    }
  }

  /** What stands over the subject when a timed hint begins: the clue, if it is dynamic. */
  function Over(clue: Option<Noun>, s: Noun, rest: Stack): Stack {
    match clue
    case None => Item(s, rest)
    case Some(x) => Item(x, Item(s, rest))
  }

  function ForeOp(tag: Noun, clue: Option<Noun>, nef: Noun): Op {
    Arg(if clue.Some? then HINB else HILB, Cell(tag, nef))
  }

  function HindOp(clue: Option<Noun>, los: bool): Op {
    Plain(if clue.Some? then if los then HINL else HINK else if los then HILL else HILK)
  }

  lemma ForeStep(cfg: Config, m: Machine, tag: Noun, clue: Option<Noun>, nef: Noun, s: Noun, rest: Stack, code: Code)
    requires m.Running? && Program(m.fol) == Some(code) && CodeAt(code, m.ip, [ForeOp(tag, clue, nef)])
    requires m.stack == Over(clue, s, rest)
    ensures Run(cfg, 1, m) ==
            m.(ip := m.ip + 1,
               stack := Item(YES, Item(s, Item(Token(Cell(tag, nef), clue, cfg.now(m.caches.tick)), rest))))
  {
    hide Comp;
    StepAt(cfg, m, code, ForeOp(tag, clue, nef));
  }

  lemma HindStep(cfg: Config, m: Machine, tag: Noun, clue: Option<Noun>, nef: Noun, los: bool, pro: Noun,
          s: Noun, now: nat,
                 rest: Stack, code: Code)
    requires m.Running? && Program(m.fol) == Some(code) && CodeAt(code, m.ip, [HindOp(clue, los)])
    requires m.stack == Item(pro, Under(los, s, Item(Token(Cell(tag, nef), clue, now), rest)))
    ensures
      var fits := clue.Some? ==> AdmitsClue(Live, tag, clue.value);
      Run(cfg, 1, m) == if fits then m.(ip := m.ip + 1, stack := Item(pro, Under(los, s, rest))) else Bailed
  {
    hide Comp;
    StepAt(cfg, m, code, HindOp(clue, los));
    assert ActAt(code, m.ip) == Hind(clue.Some?, los);
  }

  lemma TimingLayout(code: Code, ip: nat, fore: Op, hind: Op, body: Code, los: bool)
    requires CodeAt(code, ip, Timing([fore], hind, body, los))
    ensures CodeAt(code, ip, [fore]) && CodeAt(code, ip + 1, [Arg(SBIN, Atom(|body| + 2))])
    ensures CodeAt(code, ip + 2, body) && CodeAt(code, ip + 2 + |body|, [hind])
    ensures CodeAt(code, ip + 3 + |body|, [Arg(SBIP, Atom(1))])
  {
    var sbin, sbip, last := [Arg(SBIN, Atom(|body| + 2))], [Arg(SBIP, Atom(1))], [Plain(if los then TOSS else SWAP)];
    Split(code, ip, [fore] + sbin + (body + [hind] + sbip), last);
    Split(code, ip, [fore] + sbin, body + [hind] + sbip);
    Split(code, ip, [fore], sbin);
    Split(code, ip + 2, body + [hind], sbip);
    Split(code, ip + 2, body, [hind]);
  }

  /** A timed hint: its token sits under the formula and is checked and dropped after it. */
  lemma {:induction false} SimTimed(cfg: Config, m: Machine, s: Noun, tag: Noun, clue: Option<Noun>, nef: Noun,
          los: bool,
                                    rest: Stack, code: Code, c: Code, fuel: nat) returns (r: Report)
    requires m.Running? && Program(m.fol) == Some(code) && CachesOk(m.caches)
    requires m.stack == Over(clue, s, rest)
    requires Comp(nef, los, false).Some? && CodeAt(code, m.ip, c)
    requires c == Timing([ForeOp(tag, clue, nef)], HindOp(clue, los), Comp(nef, los, false).value, los)
    ensures
      var fits := clue.Some? ==> AdmitsClue(Live, tag, clue.value);
      && (r.Finish? ==>
            Leaves(cfg, m, r.n, r.end, r.p, Under(los, s, rest)) && Arrived(m, |c|, false, r.end) &&
            Eval(Live, r.k, s, nef) == Some(r.p) && fits)
      && (r.Stall? ==> (Eval(Live, fuel, s, nef) == None || !fits) && Stalls(cfg, m, r.n, fuel))
    decreases fuel, Size(nef), 4
  {
    hide Comp, Perform, ActAt, Eval;
    var b := Comp(nef, los, false).value;
    TimingLayout(code, m.ip, ForeOp(tag, clue, nef), HindOp(clue, los), b, los);
    ForeStep(cfg, m, tag, clue, nef, s, rest, code);
    var m1 := Run(cfg, 1, m);
    var now := cfg.now(m.caches.tick);
    var below := Item(Token(Cell(tag, nef), clue, now), rest);
    SkinStep(cfg, m1, |b| + 2, YES, Item(s, below), code);
    var m2 := Run(cfg, 1, m1);
    RunPlus(cfg, 1, 1, m);
    r := Sim(cfg, m2, s, nef, los, false, below, code, b, fuel);
    r := Later(cfg, m, 2, m2, r, fuel);
    if r.Finish? {
      HindStep(cfg, r.end, tag, clue, nef, los, r.p, s, now, rest, code);
      RunPlus(cfg, r.n, 1, m);
      var m3 := Run(cfg, 1, r.end);
      if m3.Running? {
        SkipStep(cfg, m3, 1, code);
        RunPlus(cfg, r.n + 1, 1, m);
        r := Finish(r.n + 2, r.p, r.k, Run(cfg, 1, m3));
      } else {
        r := Stall(r.n + 1);
      }
    }
  }
}
