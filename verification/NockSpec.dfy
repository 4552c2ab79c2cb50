/** The Nock 4K reduction rules as a partial evaluator. Sub-formulas are evaluated by
    structural recursion; `fuel` bounds only the evaluations of computed formulas (opcodes
    2 and 9), so lack of fuel and a crash both read as None. */
module NockSpec {
  import opened Nouns

  /** How much the evaluator accepts.
      Spec: exactly the specification.
      Live: only what the bytecode compiler accepts, as the runtime does.
      Untagged: the specification, but for dynamic hints with a cell for a tag, in this formula.
      Careful: the specification, but for kicks of axis 0 in code that is compiled, atomic %bout
      clues, and, in a branch of a conditional (`under`), dynamic hints with a cell for a tag.
      Clean: the specification but for atomic %bout clues, on formulas in which none of the other
      two can come up. */
  datatype Policy = Spec | Live | Untagged | Careful(under: bool) | Clean

  // Hint tags, as little-endian character codes.
  const HUNK := Atom(0x6b6e7568)
  const LOSE := Atom(0x65736f6c)
  const MEAN := Atom(0x6e61656d)
  const SPOT := Atom(0x746f7073)
  const LIVE := Atom(0x6576696c)
  const SLOG_TAG := Atom(0x676f6c73)
  const FAST := Atom(0x74736166)
  const MEMO := Atom(0x6f6d656d)
  const NARA := Atom(0x6172616e)
  const HELA := Atom(0x616c6568)
  const BOUT := Atom(0x74756f62)

  /** Hints handled by the before/after protocol rather than dropped. */
  predicate Timed(tag: Noun) { tag == NARA || tag == HELA || tag == BOUT }

  predicate Pushed(tag: Noun) { tag == HUNK || tag == LOSE || tag == MEAN || tag == SPOT }

  /** Does `f` look like a formula? Branches of a conditional that fail this test are not compiled. */
  predicate Formulaic(f: Noun) {
    match f
    case Atom(_) => false
    case Cell(Cell(_, _), ar) => Formulaic(f.head) && Formulaic(ar)
    case Cell(Atom(op), ar) =>
      if op == 0 then ar.Atom?
      else if op == 1 then true
      else if op == 3 || op == 4 then Formulaic(ar)
      else if op == 2 || op == 5 || op == 7 || op == 8 || op == 12 then
        ar.Cell? && Formulaic(ar.head) && Formulaic(ar.tail)
      else if op == 6 then
        ar.Cell? && ar.tail.Cell? && Formulaic(ar.head) &&
        (Formulaic(ar.tail.head) || Formulaic(ar.tail.tail))
      else if op == 9 then ar.Cell? && ar.head.Atom? && Formulaic(ar.tail)
      else if op == 10 then
        ar.Cell? && ar.head.Cell? && ar.head.head.Atom? && Formulaic(ar.head.tail) && Formulaic(ar.tail)
      else if op == 11 then
        ar.Cell? && Formulaic(ar.tail) &&
        (ar.head.Atom? || (ar.head.head.Atom? && Formulaic(ar.head.tail)))
      else false
  }

  /** Does the compiler accept `f`? Unlike `Formulaic`, this looks into every branch it compiles. */
  predicate Compiles(f: Noun) {
    match f
    case Atom(_) => false
    case Cell(Cell(_, _), ar) => Compiles(f.head) && Compiles(ar)
    case Cell(Atom(op), ar) =>
      if op == 0 then ar.Atom?
      else if op == 1 then true
      else if op == 3 || op == 4 then Compiles(ar)
      else if op == 2 || op == 5 || op == 7 || op == 8 || op == 12 then
        ar.Cell? && Compiles(ar.head) && Compiles(ar.tail)
      else if op == 6 then
        ar.Cell? && ar.tail.Cell? && Compiles(ar.head) &&
        (Formulaic(ar.tail.head) || Formulaic(ar.tail.tail)) &&
        (Formulaic(ar.tail.head) ==> Compiles(ar.tail.head)) &&
        (Formulaic(ar.tail.tail) ==> Compiles(ar.tail.tail))
      else if op == 9 then ar.Cell? && ar.head.Atom? && ar.head.value != 0 && Compiles(ar.tail)
      else if op == 10 then ar.Cell? && ar.head.Cell? && Compiles(ar.head.tail) && Compiles(ar.tail)
      else if op == 11 then
        ar.Cell? && Compiles(ar.tail) && (ar.head.Cell? ==> Compiles(ar.head.tail))
      else false
  }

  /** Nothing that is compiled kicks axis 0: branches that fail the branch check are not. */
  predicate KicksOk(f: Noun) {
    match f
    case Atom(_) => true
    case Cell(Cell(_, _), ar) => KicksOk(f.head) && KicksOk(ar)
    case Cell(Atom(op), ar) =>
      if op == 3 || op == 4 then KicksOk(ar)
      else if op == 2 || op == 5 || op == 7 || op == 8 || op == 12 then
        ar.Cell? ==> KicksOk(ar.head) && KicksOk(ar.tail)
      else if op == 6 then
        ar.Cell? && ar.tail.Cell? ==>
          && KicksOk(ar.head) && (Formulaic(ar.tail.head) ==> KicksOk(ar.tail.head))
          && (Formulaic(ar.tail.tail) ==> KicksOk(ar.tail.tail))
      else if op == 9 then ar.Cell? ==> ar.head != Atom(0) && KicksOk(ar.tail)
      else if op == 10 then ar.Cell? && ar.head.Cell? ==> KicksOk(ar.head.tail) && KicksOk(ar.tail)
      else if op == 11 then ar.Cell? ==> KicksOk(ar.tail) && (ar.head.Cell? ==> KicksOk(ar.head.tail))
      else true
  }

  /** No dynamic hint has a cell for a tag: nowhere in `f` if it is `under` a conditional, and
      otherwise in no branch of one. */
  predicate TagsOk(f: Noun, under: bool) {
    match f
    case Atom(_) => true
    case Cell(Cell(_, _), ar) => TagsOk(f.head, under) && TagsOk(ar, under)
    case Cell(Atom(op), ar) =>
      if op == 3 || op == 4 then TagsOk(ar, under)
      else if op == 2 || op == 5 || op == 7 || op == 8 || op == 12 then
        ar.Cell? ==> TagsOk(ar.head, under) && TagsOk(ar.tail, under)
      else if op == 6 then
        ar.Cell? && ar.tail.Cell? ==> TagsOk(ar.head, under) && TagsOk(ar.tail.head, true) && TagsOk(ar.tail.tail, true)
      else if op == 9 then ar.Cell? ==> TagsOk(ar.tail, under)
      else if op == 10 then ar.Cell? && ar.head.Cell? ==> TagsOk(ar.head.tail, under) && TagsOk(ar.tail, under)
      else if op == 11 then
        ar.Cell? ==>
          TagsOk(ar.tail, under) && (ar.head.Cell? ==> (under ==> ar.head.head.Atom?) && TagsOk(ar.head.tail, under))
      else true
  }

  predicate CleanFormula(f: Noun) { KicksOk(f) && TagsOk(f, false) }

  predicate Admits(pol: Policy, f: Noun) {
    match pol
    case Spec => true
    case Live => Compiles(f)
    case Untagged => true
    case Careful(_) => KicksOk(f)
    case Clean => CleanFormula(f)
  }

  /** A %bout hint whose clue is an atom trips an assertion of the runtime after its formula has run.
      A cell tag makes the branch it is in fail the branch check. */
  predicate AdmitsClue(pol: Policy, tag: Noun, clue: Noun) {
    && (tag == BOUT && clue.Atom? ==> pol.Spec? || pol.Untagged?)
    && (tag.Cell? ==> !pol.Untagged? && pol != Careful(true))
  }

  /** The policy in a branch of a conditional. */
  function Branching(pol: Policy): Policy { if pol.Careful? then Careful(true) else pol }

  /** The policy for a formula of its own. */
  function Anew(pol: Policy): Policy { if pol.Careful? then Careful(false) else if pol.Untagged? then Spec else pol }

  /** The product of formula `f` on subject `s`. */
  function Eval(pol: Policy, fuel: nat, s: Noun, f: Noun): Option<Noun>
    decreases fuel, f, 0
  {
    match f
    case Atom(_) => None
    case Cell(Cell(_, _), ar) =>
      (match (Eval(pol, fuel, s, f.head), Eval(pol, fuel, s, ar))
       case (Some(x), Some(y)) => Some(Cell(x, y))
       case _ => None)
    case Cell(Atom(op), ar) =>
      if op == 0 then AtNoun(ar, s)
      else if op == 1 then Some(ar)
      else if op == 3 then
        match Eval(pol, fuel, s, ar) case Some(x) => Some(Loob(x.Cell?)) case None => None
      else if op == 4 then
        match Eval(pol, fuel, s, ar) case Some(Atom(n)) => Some(Atom(n + 1)) case _ => None
      else if ar.Atom? then None
      else if op == 2 then
        match (Eval(pol, fuel, s, ar.head), Eval(pol, fuel, s, ar.tail))
        case (Some(x), Some(y)) => if fuel == 0 then None else Enter(Anew(pol), fuel - 1, x, y)
        case _ => None
      else if op == 5 then
        match (Eval(pol, fuel, s, ar.head), Eval(pol, fuel, s, ar.tail))
        case (Some(x), Some(y)) => Some(Loob(x == y))
        case _ => None
      else if op == 6 then
        if ar.tail.Atom? then None else
        match Eval(pol, fuel, s, ar.head)
        case Some(Atom(n)) =>
          if n == 0 && (pol.Live? ==> Formulaic(ar.tail.head)) then Eval(Branching(pol), fuel, s, ar.tail.head)
          else if n == 1 && (pol.Live? ==> Formulaic(ar.tail.tail)) then Eval(Branching(pol), fuel, s, ar.tail.tail)
          else None
        case _ => None
      else if op == 7 then
        match Eval(pol, fuel, s, ar.head) case Some(x) => Eval(pol, fuel, x, ar.tail) case None => None
      else if op == 8 then
        match Eval(pol, fuel, s, ar.head) case Some(x) => Eval(pol, fuel, Cell(x, s), ar.tail) case None => None
      else if op == 9 then
        match Eval(pol, fuel, s, ar.tail)
        case Some(core) =>
          (match AtNoun(ar.head, core)
           case Some(g) => if fuel == 0 then None else Enter(Anew(pol), fuel - 1, core, g)
           case None => None)
        case None => None
      else if op == 10 then
        if ar.head.Atom? then None else
        match (Eval(pol, fuel, s, ar.head.tail), Eval(pol, fuel, s, ar.tail))
        case (Some(x), Some(y)) => EditNoun(ar.head.head, x, y)
        case _ => None
      else if op == 11 then
        if ar.head.Atom? then Eval(pol, fuel, s, ar.tail) else
        match (Eval(pol, fuel, s, ar.head.tail), Eval(pol, fuel, s, ar.tail))
        case (Some(clue), Some(x)) => if AdmitsClue(pol, ar.head.head, clue) then Some(x) else None
        case _ => None
      else None
  }

  /** The product of a formula that is not part of the running one. */
  function Enter(pol: Policy, fuel: nat, s: Noun, f: Noun): Option<Noun>
    decreases fuel, f, 1
  {
    if Admits(pol, f) then Eval(pol, fuel, s, f) else None
  }

  /** More fuel never changes a product. */
  lemma {:induction false} EvalMonotone(pol: Policy, k: nat, m: nat, s: Noun, f: Noun)
    requires k <= m && Eval(pol, k, s, f).Some?
    ensures Eval(pol, m, s, f) == Eval(pol, k, s, f)
    decreases k, f, 1
  {
    hide AtNoun, EditNoun, Admits, AdmitsClue, Formulaic, Branching, Anew;
    match f
    case Atom(_) =>
    case Cell(Cell(_, _), ar) =>
      EvalMonotone(pol, k, m, s, f.head);
      EvalMonotone(pol, k, m, s, ar);
    case Cell(Atom(op), ar) =>
      if op == 2 || op == 9 {
        CallMonotone(pol, k, m, s, op, ar);
      } else if op == 10 || op == 11 {
        PairMonotone(pol, k, m, s, op, ar);
      } else if op == 3 || op == 4 {
        EvalMonotone(pol, k, m, s, ar);
      } else if op == 5 {
        EvalMonotone(pol, k, m, s, ar.head);
        EvalMonotone(pol, k, m, s, ar.tail);
      } else if op == 6 {
        BranchMonotone(pol, k, m, s, ar);
      } else if op == 7 {
        EvalMonotone(pol, k, m, s, ar.head);
        EvalMonotone(pol, k, m, Eval(pol, k, s, ar.head).value, ar.tail);
      } else if op == 8 {
        EvalMonotone(pol, k, m, s, ar.head);
        EvalMonotone(pol, k, m, Cell(Eval(pol, k, s, ar.head).value, s), ar.tail);
      }
  }

  lemma {:induction false} PairMonotone(pol: Policy, k: nat, m: nat, s: Noun, op: nat, ar: Noun)
    requires (op == 10 || op == 11) && k <= m && Eval(pol, k, s, Cell(Atom(op), ar)).Some?
    ensures Eval(pol, m, s, Cell(Atom(op), ar)) == Eval(pol, k, s, Cell(Atom(op), ar))
    decreases k, Cell(Atom(op), ar), 0
  {
    hide EditNoun, AdmitsClue;
    if ar.head.Cell? { EvalMonotone(pol, k, m, s, ar.head.tail); }
    EvalMonotone(pol, k, m, s, ar.tail);
  }

  lemma {:induction false} BranchMonotone(pol: Policy, k: nat, m: nat, s: Noun, ar: Noun)
    requires k <= m && Eval(pol, k, s, Cell(Atom(6), ar)).Some?
    ensures Eval(pol, m, s, Cell(Atom(6), ar)) == Eval(pol, k, s, Cell(Atom(6), ar))
    decreases k, Cell(Atom(6), ar), 0
  {
    hide Formulaic, Branching;
    EvalMonotone(pol, k, m, s, ar.head);
    EvalMonotone(Branching(pol), k, m, s, if Eval(pol, k, s, ar.head) == Some(YES) then ar.tail.head else ar.tail.tail);
  }

  lemma {:induction false} CallMonotone(pol: Policy, k: nat, m: nat, s: Noun, op: nat, ar: Noun)
    requires (op == 2 || op == 9) && k <= m && Eval(pol, k, s, Cell(Atom(op), ar)).Some?
    ensures Eval(pol, m, s, Cell(Atom(op), ar)) == Eval(pol, k, s, Cell(Atom(op), ar))
    decreases k, Cell(Atom(op), ar), 0
  {
    hide AtNoun, EditNoun, Admits, AdmitsClue, Formulaic, Branching, Anew;
    EvalMonotone(pol, k, m, s, ar.tail);
    if op == 2 {
      EvalMonotone(pol, k, m, s, ar.head);
      EvalMonotone(Anew(pol), k - 1, m - 1, Eval(pol, k, s, ar.head).value, Eval(pol, k, s, ar.tail).value);
    } else {
      var core := Eval(pol, k, s, ar.tail).value;
      EvalMonotone(Anew(pol), k - 1, m - 1, core, AtNoun(ar.head, core).value);
    }
  }

  /** A formula has at most one product on a subject, whatever the fuel. */
  lemma EvalUnique(pol: Policy, k: nat, m: nat, s: Noun, f: Noun)
    requires Eval(pol, k, s, f).Some? && Eval(pol, m, s, f).Some?
    ensures Eval(pol, k, s, f) == Eval(pol, m, s, f)
  {
    if k <= m { EvalMonotone(pol, k, m, s, f); } else { EvalMonotone(pol, m, k, s, f); }
  }

  /** The specification's own, indirect rule for a conditional,
      `*[a *[[c d] 0 *[[2 3] 0 *[a 4 4 b]]]]`, is the branch on 0 and 1 above. */
  lemma ConditionalByReduction(k: nat, s: Noun, b: Noun, c: Noun, d: Noun)
    ensures
      var axis := Eval(Spec, k, s, Cell(Atom(4), Cell(Atom(4), b)));
      var pick := if axis.Some? then AtNoun(axis.value, Cell(Atom(2), Atom(3))) else None;
      var branch := if pick.Some? then AtNoun(pick.value, Cell(c, d)) else None;
      Eval(Spec, k, s, Cell(Atom(6), Cell(b, Cell(c, d)))) ==
      (if branch.Some? then Eval(Spec, k, s, branch.value) else None)
  {
    var table := Cell(Atom(2), Atom(3));
    var v := Eval(Spec, k, s, b);
    assert Eval(Spec, k, s, Cell(Atom(4), b)) == (match v case Some(Atom(n)) => Some(Atom(n + 1)) case _ => None);
    assert At(1, table) == Some(table) && At(1, Cell(c, d)) == Some(Cell(c, d));
    if v.Some? && v.value.Atom? {
      var n := v.value.value;
      assert Eval(Spec, k, s, Cell(Atom(4), Cell(Atom(4), b))) == Some(Atom(n + 2));
      if n >= 2 {
        DeepAtomless(n + 2, Atom(2), Atom(3));
      }
    }
  }

  /** A pair of atoms has nothing below axes 2 and 3. */
  lemma DeepAtomless(axis: nat, x: Noun, y: Noun)
    requires axis > 3 && x.Atom? && y.Atom?
    ensures At(axis, Cell(x, y)) == None
  {
    AtFromRoot(axis, Cell(x, y));
    AtFromRoot(Mas(axis), if Cap(axis) == 2 then x else y);
  }
}
