/** The bytecode machine (pkg/urbit/noun/nock.c, `_n_burn`), over instructions: the stack with
    its burnframes, the trace stack, the memo cache and the call-site caches. */
module NockMachine {
  import opened Nouns
  import opened NockSpec
  import opened Opcodes
  import opened NockComp

  /** The stack of the road, top first: nouns, and frames that say where to resume. A frame
      names its program by the formula it was compiled from. */
  datatype Stack = Bottom | Item(noun: Noun, rest: Stack) | Frame(fol: Noun, ip: nat, rest: Stack)

  datatype Trace = Quiet | Traced(tag: Noun, clue: Noun, rest: Trace)

  /** What a call site remembers: the battery it last saw and the formula it ran there. */
  datatype Site = Site(bat: Noun, fol: Noun)

  /** memo: products by [subject formula]; sites: by program and index; tick: lookups so far. */
  datatype Caches = Caches(memo: map<Noun, Noun>, sites: map<(Noun, nat), Site>, tick: nat)

  /** save: products are memoized (not on the home road); evict: lookups that miss because the
      entry was reclaimed; now: the clock. */
  datatype Config = Config(save: bool, evict: nat -> bool, now: nat -> nat)

  datatype Machine =
    | Running(fol: Noun, ip: nat, stack: Stack, trace: Trace, caches: Caches)
    | Halted(product: Noun, left: Trace, final: Caches)
    | Bailed

  datatype Mode = Keep | Lose | Tail

  /** What an instruction does, with its operand resolved. */
  datatype Act =
    | Bail | Copy | Swap | Toss | Auto(lose: bool) | Snoc(lose: bool)
    | Head(lose: bool) | Tails(lose: bool) | Frag(axis: Noun, lose: bool) | Lit(noun: Noun, lose: bool)
    | Nocks(mode: Mode) | Deep | Bump | Sam(noun: Noun) | Same(lose: bool)
    | Skip(count: nat) | Skin(count: nat) | Kick(site: nat, axis: Noun, tel: bool)
    | Wish | Push(tag: Noun) | Drop | Pop | Fast(lose: bool)
    | Find(count: nat, key: Noun, lose: bool) | Save
    | Fore(hint: Noun, dynamic: bool) | Hind(dynamic: bool, lose: bool)
    | EditHead(lose: bool) | EditTail(lose: bool) | EditSample(lose: bool) | Edits(axis: Noun, lose: bool)

  /** What an instruction without operand does. */
  function PlainAct(code: nat): Act {
    if code == COPY then Copy else if code == SWAP then Swap else if code == TOSS then Toss
    else if code == AUTO then Auto(false) else if code == AULT then Auto(true)
    else if code == SNOC then Snoc(false) else if code == SNOL then Snoc(true)
    else if code == HEAD then Head(false) else if code == HELD then Head(true)
    else if code == TAIL then Tails(false) else if code == TALL then Tails(true)
    else if code == LIT0 then Lit(Atom(0), false) else if code == LIT1 then Lit(Atom(1), false)
    else if code == LIL0 then Lit(Atom(0), true) else if code == LIL1 then Lit(Atom(1), true)
    else if code == NOLK then Nocks(Lose) else if code == NOCT then Nocks(Tail)
    else if code == NOCK then Nocks(Keep)
    else if code == DEEP then Deep else if code == BUMP then Bump
    else if code == SAM0 then Sam(Atom(0)) else if code == SAM1 then Sam(Atom(1))
    else if code == SAME then Same(false) else if code == SALM then Same(true)
    else if code == WILS || code == WISH then Wish
    else if code == DROP then Drop else if code == HECK || code == SLOG then Pop
    else if code == BAST then Fast(false) else if code == BALT then Fast(true)
    else if code == SAVE then Save
    else if code == HILK then Hind(false, false) else if code == HILL then Hind(false, true)
    else if code == HINK then Hind(true, false) else if code == HINL then Hind(true, true)
    else if code == KUTH then EditHead(false) else if code == MUTH then EditHead(true)
    else if code == KUTT then EditTail(false) else if code == MUTT then EditTail(true)
    else if code == KUSM then EditSample(false) else if code == MUSM then EditSample(true)
    else Bail
  }

  function Number(n: Noun): nat { if n.Atom? then n.value else 0 }

  /** Call sites among the instructions of `code`. Sites are numbered from the end of the program. */
  function SitesIn(code: Code): nat {
    if code == [] then 0
    else (if code[0].Arg? && (code[0].code == KICB || code[0].code == TICB) then 1 else 0) + SitesIn(code[1..])
  }

  /** What the instruction at `ip` does. */
  function ActAt(code: Code, ip: nat): Act
    requires ip < |code|
  {
    match code[ip]
    case Plain(c) => PlainAct(c)
    case Memo(c, n, key) => Find(n, key, c == SLIB)
    case Arg(c, a) =>
      if c == FABK || c == FASK || c == FIBK then Frag(a, false)
      else if c == FABL || c == FASL || c == FIBL then Frag(a, true)
      else if c == LITB || c == LITS || c == LIBK then Lit(a, false)
      else if c == LILB || c == LILS || c == LIBL then Lit(a, true)
      else if c == SAMB || c == SAMS || c == SANB then Sam(a)
      else if c == SBIP then Skip(Number(a))
      else if c == SBIN then Skin(Number(a))
      else if c == KICB || c == TICB then Kick(SitesIn(code[ip + 1..]), a, c == TICB)
      else if c == BUSH then Push(a)
      else if c == HILB || c == HINB then Fore(a, c == HINB)
      else if c == KUTB || c == KUTS || c == KITB then Edits(a, false)
      else if c == MUTB || c == MUTS || c == MITB then Edits(a, true)
      else Bail
  }

  /** Replace what is below the two topmost nouns, or also drop the second of them. */
  function Result(lose: bool, pro: Noun, bus: Noun, rest: Stack): Stack {
    Item(pro, if lose then rest else Item(bus, rest))
  }

  /** The formula a site runs on `core`: the remembered one while the battery is the same. */
  function Lock(caches: Caches, id: (Noun, nat), axis: Noun, core: Noun): Option<Noun>
    requires core.Cell?
  {
    if id in caches.sites && caches.sites[id].bat == core.head then Some(caches.sites[id].fol)
    else AtNoun(axis, core)
  }

  /** The token a timed hint leaves for its after half. */
  function Token(hint: Noun, clue: Option<Noun>, now: nat): Noun
    requires hint.Cell?
  {
    if hint.head != BOUT then Atom(0)
    else match clue
      case None => Cell(BOUT, Atom(now))
      case Some(c) => Cell(BOUT, Cell(c, Atom(now)))
  }

  /** The assertions the after half makes about its token. */
  predicate TokenFits(dynamic: bool, tok: Noun) {
    if !dynamic then tok == Atom(0) || (tok.Cell? && tok.head == BOUT)
    else tok == Atom(0) || (tok.Cell? && tok.head == BOUT && tok.tail.Cell? && tok.tail.head.Cell?)
  }

  /** Perform one action; the instruction pointer is already past the instruction. */
  function Perform(cfg: Config, m: Machine, act: Act): Machine
    requires m.Running?
  {
    var cs := m.caches;
    match (act, m.stack)
    case (Copy, Item(a, r)) => m.(stack := Item(a, Item(a, r)))
    case (Swap, Item(a, Item(b, r))) => m.(stack := Item(b, Item(a, r)))
    case (Toss, Item(a, r)) => m.(stack := r)
    case (Auto(lose), Item(t, Item(bus, Item(h, r)))) => m.(stack := Result(lose, Cell(h, t), bus, r))
    case (Snoc(lose), Item(h, Item(bus, r))) => m.(stack := Result(lose, Cell(h, bus), bus, r))
    case (Head(lose), Item(Cell(h, t), r)) => m.(stack := Result(lose, h, Cell(h, t), r))
    case (Tails(lose), Item(Cell(h, t), r)) => m.(stack := Result(lose, t, Cell(h, t), r))
    case (Frag(axis, lose), Item(bus, r)) =>
      (match AtNoun(axis, bus)
       case Some(x) => m.(stack := Result(lose, x, bus, r))
       case None => Bailed)
    case (Lit(n, lose), Item(bus, r)) => m.(stack := Result(lose, n, bus, r))
    case (Nocks(mode), Item(g, Item(bus, Item(sub, r)))) =>
      var below :=
        if mode.Tail? then r
        else if mode.Lose? then Frame(m.fol, m.ip, r)
        else Frame(m.fol, m.ip, Item(bus, r));
      m.(fol := g, ip := 0, stack := Item(sub, below))
    case (Deep, Item(a, r)) => m.(stack := Item(Loob(a.Cell?), r))
    case (Bump, Item(Atom(n), r)) => m.(stack := Item(Atom(n + 1), r))
    case (Sam(n), Item(a, r)) => m.(stack := Item(Loob(a == n), r))
    case (Same(lose), Item(x, Item(bus, Item(y, r)))) => m.(stack := Result(lose, Loob(x == y), bus, r))
    case (Skip(n), _) => m.(ip := m.ip + n)
    case (Skin(n), Item(x, r)) =>
      if x == NO then m.(stack := r, ip := m.ip + n)
      else if x == YES then m.(stack := r)
      else Bailed
    case (Kick(site, axis, tel), Item(core, r)) =>
      if core.Atom? then Bailed else
      (match Lock(cs, (m.fol, site), axis, core)
       case None => Bailed
       case Some(g) =>
         var cs' := cs.(sites := cs.sites[(m.fol, site) := Site(core.head, g)]);
         m.(fol := g, ip := 0, stack := Item(core, if tel then r else Frame(m.fol, m.ip, r)), caches := cs'))
    case (Push(tag), Item(a, r)) => m.(stack := r, trace := Traced(tag, a, m.trace))
    case (Drop, _) => if m.trace.Traced? then m.(trace := m.trace.rest) else Bailed
    case (Pop, Item(a, r)) => m.(stack := r)
    case (Fast(lose), Item(pro, Item(bus, Item(clue, r)))) => m.(stack := Result(lose, pro, bus, r))
    case (Find(n, key, lose), Item(bus, r)) =>
      var k := Cell(bus, key);
      var kept := if lose then r else Item(bus, r);
      var m' := m.(caches := cs.(tick := cs.tick + 1));
      if k in cs.memo && !cfg.evict(cs.tick)
      then m'.(stack := Item(cs.memo[k], kept), ip := m.ip + n)
      else m'.(stack := Item(bus, Item(k, kept)))
    case (Save, Item(pro, Item(k, r))) =>
      m.(stack := Item(pro, r), caches := if cfg.save then cs.(memo := cs.memo[k := pro]) else cs)
    case (Fore(hint, false), Item(bus, r)) =>
      if hint.Atom? then Bailed
      else m.(stack := Item(YES, Item(bus, Item(Token(hint, None, cfg.now(cs.tick)), r))))
    case (Fore(hint, true), Item(clue, Item(bus, r))) =>
      if hint.Atom? then Bailed
      else m.(stack := Item(YES, Item(bus, Item(Token(hint, Some(clue), cfg.now(cs.tick)), r))))
    case (Hind(dynamic, true), Item(pro, Item(tok, r))) =>
      if TokenFits(dynamic, tok) then m.(stack := Item(pro, r)) else Bailed
    case (Hind(dynamic, false), Item(pro, Item(bus, Item(tok, r)))) =>
      if TokenFits(dynamic, tok) then m.(stack := Item(pro, Item(bus, r))) else Bailed
    case (EditHead(lose), Item(x, Item(bus, Item(Cell(h, t), r)))) => m.(stack := Result(lose, Cell(x, t), bus, r))
    case (EditTail(lose), Item(x, Item(bus, Item(Cell(h, t), r)))) => m.(stack := Result(lose, Cell(h, x), bus, r))
    case (EditSample(lose), Item(x, Item(bus, Item(Cell(h, Cell(_, t)), r)))) =>
      m.(stack := Result(lose, Cell(h, Cell(x, t)), bus, r))
    case (Edits(axis, lose), Item(x, Item(bus, Item(o, r)))) =>
      (match EditNoun(axis, x, o)
       case Some(y) => m.(stack := Result(lose, y, bus, r))
       case None => Bailed)
    case _ => Bailed
  }

  /** End of a program: hand the product to the frame below, or stop. */
  function Return(m: Machine): Machine
    requires m.Running?
  {
    match m.stack
    case Item(x, Bottom) => Halted(x, m.trace, m.caches)
    case Item(x, Frame(fol, ip, r)) => m.(fol := fol, ip := ip, stack := Item(x, r))
    case _ => Bailed
  }

  /** The program of a formula, with its subject lost and in tail position. */
  function Program(fol: Noun): Option<Code> { Comp(fol, true, true) }

  function Step(cfg: Config, m: Machine): Machine {
    if !m.Running? then m
    else match Program(m.fol)
      case None => Bailed
      case Some(code) =>
        if m.ip < |code| then Perform(cfg, m.(ip := m.ip + 1), ActAt(code, m.ip)) else Return(m)
  }

  function Run(cfg: Config, n: nat, m: Machine): Machine {
    if n == 0 then m else Run(cfg, n - 1, Step(cfg, m))
  }

  lemma {:induction false} RunPlus(cfg: Config, a: nat, b: nat, m: Machine)
    ensures Run(cfg, a + b, m) == Run(cfg, b, Run(cfg, a, m))
  {
    if a > 0 { RunPlus(cfg, a - 1, b, Step(cfg, m)); }
  }

  lemma {:induction false} RunStays(cfg: Config, n: nat, m: Machine)
    requires !m.Running?
    ensures Run(cfg, n, m) == m
  {
    if n > 0 { RunStays(cfg, n - 1, m); }
  }

  /** The machine at the start of formula `f` on subject `s`. */
  function Start(s: Noun, f: Noun, cs: Caches): Machine {
    Running(f, 0, Item(s, Bottom), Quiet, cs)
  }
}
