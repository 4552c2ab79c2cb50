/** How the three acceptance policies of the evaluator relate: what the branch check of the
    compiler (pkg/urbit/noun/nock.c, `_n_formulaic`) loses, and where it loses nothing. */
module NockPolicies {
  import opened Nouns
  import opened NockSpec

  /** A formula the branch check rejects has no product on any subject that comes of no dynamic hint
      with a cell for a tag, so compiling it to a bail loses nothing else. */
  lemma {:induction false} BranchCheckSound(pol: Policy, k: nat, s: Noun, f: Noun)
    requires (pol == Untagged || pol == Careful(true)) && Eval(pol, k, s, f).Some?
    ensures Formulaic(f)
    decreases f
  {
    match f
    case Atom(_) =>
    case Cell(Cell(_, _), ar) =>
      BranchCheckSound(pol, k, s, f.head);
      BranchCheckSound(pol, k, s, ar);
    case Cell(Atom(op), ar) =>
      if op == 3 || op == 4 {
        BranchCheckSound(pol, k, s, ar);
      } else if op == 2 || op == 5 {
        BranchCheckSound(pol, k, s, ar.head);
        BranchCheckSound(pol, k, s, ar.tail);
      } else if op == 6 {
        BranchCheckSound(pol, k, s, ar.head);
        BranchCheckSound(pol, k, s, if Eval(pol, k, s, ar.head) == Some(YES) then ar.tail.head else ar.tail.tail);
      } else if op == 7 {
        BranchCheckSound(pol, k, s, ar.head);
        BranchCheckSound(pol, k, Eval(pol, k, s, ar.head).value, ar.tail);
      } else if op == 8 {
        BranchCheckSound(pol, k, s, ar.head);
        BranchCheckSound(pol, k, Cell(Eval(pol, k, s, ar.head).value, s), ar.tail);
      } else if op == 9 {
        BranchCheckSound(pol, k, s, ar.tail);
      } else if op == 10 || op == 11 {
        if ar.head.Cell? { BranchCheckSound(pol, k, s, ar.head.tail); }
        BranchCheckSound(pol, k, s, ar.tail);
      }
  }

  /** A formula the branch check accepts compiles if and only if nothing compiled in it kicks axis 0. */
  lemma {:induction false} BranchCheckComplete(f: Noun)
    requires Formulaic(f)
    ensures Compiles(f) <==> KicksOk(f)
    decreases f
  {
    match f
    case Cell(Cell(_, _), ar) =>
      BranchCheckComplete(f.head);
      BranchCheckComplete(ar);
    case Cell(Atom(op), ar) =>
      if op == 3 || op == 4 {
        BranchCheckComplete(ar);
      } else if op == 2 || op == 5 || op == 7 || op == 8 || op == 12 {
        BranchCheckComplete(ar.head);
        BranchCheckComplete(ar.tail);
      } else if op == 6 {
        BranchCheckComplete(ar.head);
        if Formulaic(ar.tail.head) { BranchCheckComplete(ar.tail.head); }
        if Formulaic(ar.tail.tail) { BranchCheckComplete(ar.tail.tail); }
      } else if op == 9 {
        BranchCheckComplete(ar.tail);
      } else if op == 10 || op == 11 {
        if ar.head.Cell? { BranchCheckComplete(ar.head.tail); }
        BranchCheckComplete(ar.tail);
      }
  }

  /** What compiles kicks axis 0 nowhere, accepted by the branch check or not. */
  lemma {:induction false} CompiledKicks(f: Noun)
    requires Compiles(f)
    ensures KicksOk(f)
    decreases f
  {
    match f
    case Cell(Cell(_, _), ar) =>
      CompiledKicks(f.head);
      CompiledKicks(ar);
    case Cell(Atom(op), ar) =>
      if op == 3 || op == 4 {
        CompiledKicks(ar);
      } else if op == 2 || op == 5 || op == 7 || op == 8 || op == 12 {
        CompiledKicks(ar.head);
        CompiledKicks(ar.tail);
      } else if op == 6 {
        CompiledKicks(ar.head);
        if Formulaic(ar.tail.head) { CompiledKicks(ar.tail.head); }
        if Formulaic(ar.tail.tail) { CompiledKicks(ar.tail.tail); }
      } else if op == 9 {
        CompiledKicks(ar.tail);
      } else if op == 10 || op == 11 {
        if ar.head.Cell? { CompiledKicks(ar.head.tail); }
        CompiledKicks(ar.tail);
      }
  }

  /** A formula with a product compiles if nothing compiled in it kicks axis 0: that it has cell tags
      outside its conditionals does not matter. */
  lemma {:induction false} ProductCompiles(under: bool, k: nat, s: Noun, f: Noun)
    requires Eval(Careful(under), k, s, f).Some? && KicksOk(f)
    ensures Compiles(f)
    decreases f
  {
    match f
    case Cell(Cell(_, _), ar) =>
      ProductCompiles(under, k, s, f.head);
      ProductCompiles(under, k, s, ar);
    case Cell(Atom(op), ar) =>
      if op == 3 || op == 4 {
        ProductCompiles(under, k, s, ar);
      } else if op == 2 || op == 5 {
        ProductCompiles(under, k, s, ar.head);
        ProductCompiles(under, k, s, ar.tail);
      } else if op == 6 {
        ProductCompiles(under, k, s, ar.head);
        BranchCheckSound(Careful(true), k, s, if Eval(Careful(under), k, s, ar.head) == Some(YES) then ar.tail.head else ar.tail.tail);
        if Formulaic(ar.tail.head) { BranchCheckComplete(ar.tail.head); }
        if Formulaic(ar.tail.tail) { BranchCheckComplete(ar.tail.tail); }
      } else if op == 7 {
        ProductCompiles(under, k, s, ar.head);
        ProductCompiles(under, k, Eval(Careful(under), k, s, ar.head).value, ar.tail);
      } else if op == 8 {
        ProductCompiles(under, k, s, ar.head);
        ProductCompiles(under, k, Cell(Eval(Careful(under), k, s, ar.head).value, s), ar.tail);
      } else if op == 9 {
        ProductCompiles(under, k, s, ar.tail);
      } else if op == 10 || op == 11 {
        if ar.head.Cell? { ProductCompiles(under, k, s, ar.head.tail); }
        ProductCompiles(under, k, s, ar.tail);
      }
    case _ =>
  }

  /** Whatever the runtime's policy accepts has the specification's product. */
  lemma {:induction false} LiveIsSpec(k: nat, s: Noun, f: Noun)
    requires Eval(Live, k, s, f).Some?
    ensures Eval(Spec, k, s, f) == Eval(Live, k, s, f)
    decreases k, f
  {
    match f
    case Cell(Cell(_, _), ar) =>
      LiveIsSpec(k, s, f.head);
      LiveIsSpec(k, s, ar);
    case Cell(Atom(op), ar) =>
      if op == 3 || op == 4 {
        LiveIsSpec(k, s, ar);
      } else if op == 2 {
        LiveIsSpec(k, s, ar.head);
        LiveIsSpec(k, s, ar.tail);
        LiveIsSpec(k - 1, Eval(Live, k, s, ar.head).value, Eval(Live, k, s, ar.tail).value);
      } else if op == 5 {
        LiveIsSpec(k, s, ar.head);
        LiveIsSpec(k, s, ar.tail);
      } else if op == 6 {
        LiveIsSpec(k, s, ar.head);
        LiveIsSpec(k, s, if Eval(Live, k, s, ar.head) == Some(YES) then ar.tail.head else ar.tail.tail);
      } else if op == 7 {
        LiveIsSpec(k, s, ar.head);
        LiveIsSpec(k, Eval(Live, k, s, ar.head).value, ar.tail);
      } else if op == 8 {
        LiveIsSpec(k, s, ar.head);
        LiveIsSpec(k, Cell(Eval(Live, k, s, ar.head).value, s), ar.tail);
      } else if op == 9 {
        LiveIsSpec(k, s, ar.tail);
        var core := Eval(Live, k, s, ar.tail).value;
        LiveIsSpec(k - 1, core, AtNoun(ar.head, core).value);
      } else if op == 10 || op == 11 {
        if ar.head.Cell? { LiveIsSpec(k, s, ar.head.tail); }
        LiveIsSpec(k, s, ar.tail);
      }
    case _ =>
  }

  /** What the careful policy gives, the runtime's gives. */
  lemma {:induction false} CarefulIsLive(under: bool, k: nat, s: Noun, f: Noun)
    requires Eval(Careful(under), k, s, f).Some?
    ensures Eval(Live, k, s, f) == Eval(Careful(under), k, s, f)
    decreases k, f, 0
  {
    hide AtNoun, EditNoun, Admits, Formulaic;
    match f
    case Cell(Cell(_, _), ar) =>
      CarefulIsLive(under, k, s, f.head);
      CarefulIsLive(under, k, s, ar);
    case Cell(Atom(op), ar) =>
      if op == 3 || op == 4 {
        CarefulIsLive(under, k, s, ar);
      } else if op == 2 {
        CarefulIsLive(under, k, s, ar.head);
        CarefulIsLive(under, k, s, ar.tail);
        EnterCarefulIsLive(k - 1, Eval(Careful(under), k, s, ar.head).value, Eval(Careful(under), k, s, ar.tail).value);
      } else if op == 5 {
        CarefulIsLive(under, k, s, ar.head);
        CarefulIsLive(under, k, s, ar.tail);
      } else if op == 6 {
        CarefulIsLive(under, k, s, ar.head);
        var branch := if Eval(Careful(under), k, s, ar.head) == Some(YES) then ar.tail.head else ar.tail.tail;
        CarefulIsLive(true, k, s, branch);
        BranchCheckSound(Careful(true), k, s, branch);
      } else if op == 7 {
        CarefulIsLive(under, k, s, ar.head);
        CarefulIsLive(under, k, Eval(Careful(under), k, s, ar.head).value, ar.tail);
      } else if op == 8 {
        CarefulIsLive(under, k, s, ar.head);
        CarefulIsLive(under, k, Cell(Eval(Careful(under), k, s, ar.head).value, s), ar.tail);
      } else if op == 9 {
        CarefulIsLive(under, k, s, ar.tail);
        var core := Eval(Careful(under), k, s, ar.tail).value;
        EnterCarefulIsLive(k - 1, core, AtNoun(ar.head, core).value);
      } else if op == 10 || op == 11 {
        if ar.head.Cell? { CarefulIsLive(under, k, s, ar.head.tail); }
        CarefulIsLive(under, k, s, ar.tail);
      }
    case _ =>
  }

  lemma {:induction false} EnterCarefulIsLive(k: nat, s: Noun, f: Noun)
    requires Enter(Careful(false), k, s, f).Some?
    ensures Enter(Live, k, s, f) == Enter(Careful(false), k, s, f)
    decreases k, f, 1
  {
    CarefulIsLive(false, k, s, f);
    ProductCompiles(false, k, s, f);
  }

  /** What the runtime's policy gives, the careful one gives; in a branch, if it is accepted. */
  lemma {:induction false} LiveIsCareful(under: bool, k: nat, s: Noun, f: Noun)
    requires Eval(Live, k, s, f).Some? && (under ==> Formulaic(f))
    ensures Eval(Careful(under), k, s, f) == Eval(Live, k, s, f)
    decreases k, f, 0
  {
    hide AtNoun, EditNoun, Admits;
    match f
    case Cell(Cell(_, _), ar) =>
      LiveIsCareful(under, k, s, f.head);
      LiveIsCareful(under, k, s, ar);
    case Cell(Atom(op), ar) =>
      if op == 3 || op == 4 {
        LiveIsCareful(under, k, s, ar);
      } else if op == 2 {
        LiveIsCareful(under, k, s, ar.head);
        LiveIsCareful(under, k, s, ar.tail);
        EnterLiveIsCareful(k - 1, Eval(Live, k, s, ar.head).value, Eval(Live, k, s, ar.tail).value);
      } else if op == 5 {
        LiveIsCareful(under, k, s, ar.head);
        LiveIsCareful(under, k, s, ar.tail);
      } else if op == 6 {
        LiveIsCareful(under, k, s, ar.head);
        var branch := if Eval(Live, k, s, ar.head) == Some(YES) then ar.tail.head else ar.tail.tail;
        LiveIsCareful(true, k, s, branch);
      } else if op == 7 {
        LiveIsCareful(under, k, s, ar.head);
        LiveIsCareful(under, k, Eval(Live, k, s, ar.head).value, ar.tail);
      } else if op == 8 {
        LiveIsCareful(under, k, s, ar.head);
        LiveIsCareful(under, k, Cell(Eval(Live, k, s, ar.head).value, s), ar.tail);
      } else if op == 9 {
        LiveIsCareful(under, k, s, ar.tail);
        var core := Eval(Live, k, s, ar.tail).value;
        EnterLiveIsCareful(k - 1, core, AtNoun(ar.head, core).value);
      } else if op == 10 || op == 11 {
        if ar.head.Cell? { LiveIsCareful(under, k, s, ar.head.tail); }
        LiveIsCareful(under, k, s, ar.tail);
      }
    case _ =>
  }

  lemma {:induction false} EnterLiveIsCareful(k: nat, s: Noun, f: Noun)
    requires Enter(Live, k, s, f).Some?
    ensures Enter(Careful(false), k, s, f) == Enter(Live, k, s, f)
    decreases k, f, 1
  {
    LiveIsCareful(false, k, s, f);
    CompiledKicks(f);
  }

  /** The runtime's policy is the careful one: what it refuses of the specification's products is
      exactly what that one refuses. */
  lemma RuntimeExactly(k: nat, s: Noun, f: Noun)
    ensures Enter(Live, k, s, f) == Enter(Careful(false), k, s, f)
  {
    hide Enter;
    if Enter(Live, k, s, f).Some? {
      EnterLiveIsCareful(k, s, f);
    } else if Enter(Careful(false), k, s, f).Some? {
      EnterCarefulIsLive(k, s, f);
    }
  }

  /** On formulas without such tags the careful policy refuses no hint. */
  lemma {:induction false} CleanIsCareful(under: bool, k: nat, s: Noun, f: Noun)
    requires TagsOk(f, under) && Eval(Clean, k, s, f).Some?
    ensures Eval(Careful(under), k, s, f) == Eval(Clean, k, s, f)
    decreases k, f, 0
  {
    hide AtNoun, EditNoun, Admits, Formulaic;
    match f
    case Cell(Cell(_, _), ar) =>
      CleanIsCareful(under, k, s, f.head);
      CleanIsCareful(under, k, s, ar);
    case Cell(Atom(op), ar) =>
      if op == 3 || op == 4 {
        CleanIsCareful(under, k, s, ar);
      } else if op == 2 {
        CleanIsCareful(under, k, s, ar.head);
        CleanIsCareful(under, k, s, ar.tail);
        EnterCleanIsCareful(k - 1, Eval(Clean, k, s, ar.head).value, Eval(Clean, k, s, ar.tail).value);
      } else if op == 5 {
        CleanIsCareful(under, k, s, ar.head);
        CleanIsCareful(under, k, s, ar.tail);
      } else if op == 6 {
        CleanIsCareful(under, k, s, ar.head);
        var branch := if Eval(Clean, k, s, ar.head) == Some(YES) then ar.tail.head else ar.tail.tail;
        CleanIsCareful(true, k, s, branch);
      } else if op == 7 {
        CleanIsCareful(under, k, s, ar.head);
        CleanIsCareful(under, k, Eval(Clean, k, s, ar.head).value, ar.tail);
      } else if op == 8 {
        CleanIsCareful(under, k, s, ar.head);
        CleanIsCareful(under, k, Cell(Eval(Clean, k, s, ar.head).value, s), ar.tail);
      } else if op == 9 {
        CleanIsCareful(under, k, s, ar.tail);
        var core := Eval(Clean, k, s, ar.tail).value;
        EnterCleanIsCareful(k - 1, core, AtNoun(ar.head, core).value);
      } else if op == 10 || op == 11 {
        if ar.head.Cell? { CleanIsCareful(under, k, s, ar.head.tail); }
        CleanIsCareful(under, k, s, ar.tail);
      }
    case _ =>
  }

  lemma {:induction false} EnterCleanIsCareful(k: nat, s: Noun, f: Noun)
    requires Enter(Clean, k, s, f).Some?
    ensures Enter(Careful(false), k, s, f) == Enter(Clean, k, s, f)
    decreases k, f, 1
  {
    CleanIsCareful(false, k, s, f);
  }

  /** On clean formulas the runtime's policy accepts everything that has a product. */
  lemma CleanIsLive(k: nat, s: Noun, f: Noun)
    requires TagsOk(f, false) && Eval(Clean, k, s, f).Some?
    ensures Eval(Live, k, s, f) == Eval(Clean, k, s, f)
  {
    CleanIsCareful(false, k, s, f);
    CarefulIsLive(false, k, s, f);
  }

  lemma EnterCleanIsLive(k: nat, s: Noun, f: Noun)
    requires Enter(Clean, k, s, f).Some?
    ensures Enter(Live, k, s, f) == Enter(Clean, k, s, f)
  {
    EnterCleanIsCareful(k, s, f);
    EnterCarefulIsLive(k, s, f);
  }

  /** The three families the runtime mistreats, one witness each: the specification gives a
      product and the runtime's policy gives none. A kick of axis 0 in a branch not taken
      spoils the whole program; a cell tag under a conditional is compiled to a bail; an
      atomic %bout clue is fatal after the fact. The same cell tag under no conditional does no harm, nor
      does the same kick in a branch that is rejected for one. */
  lemma RuntimeDiffers(k: nat, s: Noun)
    ensures
      var seven := Cell(Atom(1), Atom(7));
      var kick0 := Cell(Atom(6), Cell(Cell(Atom(1), YES), Cell(seven, Cell(Atom(9), Cell(Atom(0), seven)))));
      var cellTag := Cell(Atom(6), Cell(Cell(Atom(1), YES),
                       Cell(Cell(Atom(11), Cell(Cell(Cell(YES, YES), seven), seven)), seven)));
      var bout := Cell(Atom(11), Cell(Cell(BOUT, seven), seven));
      && Enter(Spec, k, s, kick0) == Enter(Spec, k, s, cellTag) == Enter(Spec, k, s, bout) == Some(Atom(7))
      && Enter(Live, k, s, kick0) == Enter(Live, k, s, cellTag) == Enter(Live, k, s, bout) == None
      && Enter(Live, k, s, cellTag.tail.tail.head) == Some(Atom(7))
      && Enter(Live, k, s, Cell(Atom(6), Cell(Cell(Atom(1), YES), Cell(seven, Cell(kick0.tail.tail.tail, Cell(Atom(0), seven)))))) == Some(Atom(7))
  {
    var seven := Cell(Atom(1), Atom(7));
    var hinted := Cell(Atom(11), Cell(Cell(Cell(YES, YES), seven), seven));
    assert Eval(Spec, k, s, Cell(Atom(1), YES)) == Some(YES) == Eval(Live, k, s, Cell(Atom(1), YES));
    assert Eval(Spec, k, s, seven) == Some(Atom(7)) == Eval(Live, k, s, seven);
    assert Eval(Spec, k, s, hinted) == Some(Atom(7));
    assert !Formulaic(hinted) && Formulaic(seven);
    assert Formulaic(Cell(Atom(9), Cell(Atom(0), seven)));
    assert !Compiles(Cell(Atom(9), Cell(Atom(0), seven)));
  }
}
