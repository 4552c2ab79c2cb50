/** What the simulation gives: compiling and running a formula is evaluating it. */
module NockTheorems {
  import opened Nouns
  import opened NockSpec
  import opened NockPolicies
  import opened NockComp
  import opened NockMachine
  import opened NockSim

  /** The machine, started on formula `f` and subject `s`, halts with product `p`. */
  ghost predicate Halts(cfg: Config, s: Noun, f: Noun, cs: Caches, p: Noun) {
    exists n: nat :: HaltsIn(cfg, n, s, f, cs, p)
  }

  predicate HaltsIn(cfg: Config, n: nat, s: Noun, f: Noun, cs: Caches, p: Noun) {
    Run(cfg, n, Start(s, f, cs)).Halted? && Run(cfg, n, Start(s, f, cs)).product == p
  }

  ghost predicate Yields(pol: Policy, s: Noun, f: Noun, p: Noun) {
    exists k: nat :: Enter(pol, k, s, f) == Some(p)
  }

  /** One run, against one amount of fuel. */
  lemma Outcome(cfg: Config, s: Noun, f: Noun, cs: Caches, fuel: nat) returns (n: nat, p: Noun)
    requires CachesOk(cs)
    ensures Enter(Live, fuel, s, f).Some? ==> HaltsIn(cfg, n, s, f, cs, Enter(Live, fuel, s, f).value)
    ensures
      var end := Run(cfg, n, Start(s, f, cs));
      || (end.Halted? && Yields(Live, s, f, end.product) && end.left == Quiet && CachesOk(end.final))
      || end.Bailed? || (n >= fuel && end.Running?)
  {
    hide Comp, Perform, ActAt, Eval;
    var m := Start(s, f, cs);
    var r := Invoke(cfg, m, s, f, Bottom, fuel);
    n, p := r.n, s;
    if r.Finish? {
      p := r.p;
      assert Run(cfg, 1, r.end) == Run(cfg, 0, Step(cfg, r.end));
      RunPlus(cfg, r.n, 1, m);
      n := r.n + 1;
      assert Enter(Live, r.k, s, f) == Some(p);
      if Enter(Live, fuel, s, f).Some? { EvalUnique(Live, r.k, fuel, s, f); }
    }
  }

  /** A machine that has halted does not run longer. */
  lemma HaltedOnce(cfg: Config, a: nat, b: nat, m: Machine)
    requires Run(cfg, a, m).Halted? && !Run(cfg, b, m).Running?
    ensures Run(cfg, a, m) == Run(cfg, b, m)
  {
    if a <= b {
      RunPlus(cfg, a, b - a, m);
      RunStays(cfg, b - a, Run(cfg, a, m));
    } else {
      RunPlus(cfg, b, a - b, m);
      RunStays(cfg, a - b, Run(cfg, b, m));
    }
  }

  lemma NotRunningAfter(cfg: Config, a: nat, b: nat, m: Machine)
    requires Run(cfg, a, m).Halted? && a <= b
    ensures !Run(cfg, b, m).Running?
  {
    RunPlus(cfg, a, b - a, m);
    RunStays(cfg, b - a, Run(cfg, a, m));
  }

  /** Compiler correctness, both directions: the machine halts with `p` exactly when the
      evaluator, under the compiler's own acceptance policy, yields `p`. This holds from any
      sound caches, with any pattern of evictions, on and off the home road. */
  lemma CompilerCorrect(cfg: Config, s: Noun, f: Noun, cs: Caches, p: Noun)
    requires CachesOk(cs)
    ensures Halts(cfg, s, f, cs, p) <==> Yields(Live, s, f, p)
  {
    if Yields(Live, s, f, p) {
      var k: nat :| Enter(Live, k, s, f) == Some(p);
      var n, q := Outcome(cfg, s, f, cs, k);
      assert HaltsIn(cfg, n, s, f, cs, p);
    }
    if Halts(cfg, s, f, cs, p) {
      var n: nat :| HaltsIn(cfg, n, s, f, cs, p);
      var b, q := Outcome(cfg, s, f, cs, n);
      var m := Start(s, f, cs);
      if b >= n { NotRunningAfter(cfg, n, b, m); }
      HaltedOnce(cfg, n, b, m);
    }
  }

  /** A halted machine has restored the trace stack and left sound caches, so products stay
      right over any sequence of runs that share them. */
  lemma RunsKeepCaches(cfg: Config, s: Noun, f: Noun, cs: Caches, n: nat)
    requires CachesOk(cs) && Run(cfg, n, Start(s, f, cs)).Halted?
    ensures
      var end := Run(cfg, n, Start(s, f, cs));
      end.left == Quiet && CachesOk(end.final)
  {
    var b, q := Outcome(cfg, s, f, cs, n);
    var m := Start(s, f, cs);
    if b >= n { NotRunningAfter(cfg, n, b, m); }
    HaltedOnce(cfg, n, b, m);
  }

  /** Whatever a halted machine holds is the specification's product. */
  lemma NeverWrong(cfg: Config, s: Noun, f: Noun, cs: Caches, p: Noun)
    requires CachesOk(cs) && Halts(cfg, s, f, cs, p)
    ensures Yields(Spec, s, f, p)
  {
    CompilerCorrect(cfg, s, f, cs, p);
    var k: nat :| Enter(Live, k, s, f) == Some(p);
    LiveIsSpec(k, s, f);
    assert Enter(Spec, k, s, f) == Some(p);
  }

  /** The machine halts with the specification's products but for exactly three: where a formula
      entered kicks axis 0 in code that is compiled, where a branch of a conditional comes upon a
      dynamic hint with a cell for a tag, and where a %bout clue is an atom. */
  lemma RuntimeExact(cfg: Config, s: Noun, f: Noun, cs: Caches, p: Noun)
    requires CachesOk(cs)
    ensures Halts(cfg, s, f, cs, p) <==> Yields(Careful(false), s, f, p)
  {
    hide Enter, Halts;
    CompilerCorrect(cfg, s, f, cs, p);
    forall k: nat ensures Enter(Live, k, s, f) == Enter(Careful(false), k, s, f) { RuntimeExactly(k, s, f); }
  }

  /** When no formula entered can come upon the first two, and no %bout clue is an atom, the machine
      finds every product the specification gives. */
  lemma CleanIsComplete(cfg: Config, s: Noun, f: Noun, cs: Caches, p: Noun)
    requires CachesOk(cs) && Yields(Clean, s, f, p)
    ensures Halts(cfg, s, f, cs, p)
  {
    var k: nat :| Enter(Clean, k, s, f) == Some(p);
    EnterCleanIsLive(k, s, f);
    CompilerCorrect(cfg, s, f, cs, p);
  }

  /** Memoization, eviction and call-site state never change what is computed. */
  lemma CachesAreTransparent(cfg: Config, cfg': Config, s: Noun, f: Noun, cs: Caches, cs': Caches, p: Noun)
    requires CachesOk(cs) && CachesOk(cs')
    ensures Halts(cfg, s, f, cs, p) <==> Halts(cfg', s, f, cs', p)
  {
    CompilerCorrect(cfg, s, f, cs, p);
    CompilerCorrect(cfg', s, f, cs', p);
  }
}
