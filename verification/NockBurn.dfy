/** The interpreter loop (pkg/urbit/noun/nock.c, `_n_burn`): it keeps the loaded program beside
    the machine state and loads another whenever control moves to another formula. */
module NockBurn {
  import opened Nouns
  import opened NockSpec
  import opened NockComp
  import opened NockMachine
  import opened NockAsm
  import opened NockBytes
  import opened NockAssembler

  /** What loading a formula's program gives. */
  datatype Load = Loaded(p: Prog) | NoProgram | TooLarge

  function LoadOf(fol: Noun): Load {
    match Program(fol)
    case None => NoProgram
    case Some(c) => if Fits(c) then Loaded(Assemble(c)) else TooLarge
  }

  /** Find or compile the program of a formula. */
  method Find(fol: Noun) returns (l: Load)
    ensures l == LoadOf(fol)
  {
    var p := Bite(fol);
    if p.Some? {
      l := Loaded(p.value);
    } else {
      l := if Program(fol).None? then NoProgram else TooLarge;
    }
  }

  /** Run formula `fol` on subject `s`, at most `limit` instructions. */
  method Burn(cfg: Config, s: Noun, fol: Noun, cs: Caches, limit: nat) returns (b: ByteMachine)
    ensures b == ByteRun(cfg, limit, Up(Start(s, fol, cs)))
  {
    hide Execute, Program, Comp, Fits, Assemble;
    var m := Start(s, fol, cs);
    var load := Find(fol);
    var n := limit;
    while n > 0 && m.Running? && load.Loaded?
      invariant ByteRun(cfg, n, Up(m)) == ByteRun(cfg, limit, Up(Start(s, fol, cs)))
      invariant m.Running? ==> load == LoadOf(m.fol)
      decreases n
    {
      var was := m.fol;
      LoadedStep(cfg, m, load.p);
      m := Execute(cfg, load.p, m);
      if m.Running? && m.fol != was { load := Find(m.fol); }
      n := n - 1;
    }
    if m.Running? && n > 0 {
      b := if load.NoProgram? then Up(Bailed) else Aborted;
      UnloadedStep(cfg, m);
      Settled(cfg, n - 1, b);
    } else {
      b := Up(m);
      if n > 0 { Settled(cfg, n, b); }
    }
  }

  lemma LoadedStep(cfg: Config, m: Machine, p: Prog)
    requires m.Running? && LoadOf(m.fol) == Loaded(p)
    ensures ByteStep(cfg, Up(m)) == Up(Execute(cfg, p, m))
  {
  }

  lemma UnloadedStep(cfg: Config, m: Machine)
    requires m.Running? && !LoadOf(m.fol).Loaded?
    ensures ByteStep(cfg, Up(m)) == if LoadOf(m.fol).NoProgram? then Up(Bailed) else Aborted
  {
  }

  lemma {:induction false} Settled(cfg: Config, n: nat, b: ByteMachine)
    requires b.Up? ==> !b.m.Running?
    ensures ByteRun(cfg, n, b) == b
  {
    if n > 0 { Settled(cfg, n - 1, b); }
  }
}
