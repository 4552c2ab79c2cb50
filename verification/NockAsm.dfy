/** The assembler (pkg/urbit/noun/nock.c, `_n_melt` and `_n_prog_asm`): how instructions lie in
    the byte buffer, with operands of varying width and tables for what does not fit in one. */
module NockAsm {
  import opened Nouns
  import opened Opcodes
  import opened NockComp
  import opened NockMachine

  predicate IsRegister(op: Op) { op.Plain? && (op.code == BAST || op.code == BALT) }

  predicate IsLiteral(op: Op) {
    op.Arg? && (op.code == FIBK || op.code == FIBL || op.code == LIBK || op.code == LIBL || op.code == SANB ||
                op.code == BUSH || op.code == KITB || op.code == MITB || op.code == HILB || op.code == HINB)
  }

  predicate IsCall(op: Op) { op.Arg? && (op.code == KICB || op.code == TICB) }

  predicate IsSkip(op: Op) { op.Arg? && (op.code == SBIP || op.code == SBIN) }

  predicate IsByte(op: Op) {
    op.Arg? && (op.code == FABK || op.code == FABL || op.code == LITB || op.code == LILB ||
                op.code == MUTB || op.code == KUTB || op.code == SAMB)
  }

  predicate IsShort(op: Op) {
    op.Arg? && (op.code == FASK || op.code == FASL || op.code == LITS || op.code == LILS ||
                op.code == MUTS || op.code == KUTS || op.code == SAMS)
  }

  /** Opcodes that stand alone. */
  predicate IsBare(op: Op) { op.Plain? && (op.code == BAIL || (0 < op.code < LAST && PlainAct(op.code) != Bail)) }

  /** What the assembler can write, and the machine read back. */
  predicate Encodable(op: Op) {
    match op
    case Plain(_) => IsBare(op)
    case Memo(c, _, _) => c == SKIB || c == SLIB
    case Arg(c, a) =>
      IsLiteral(op) || IsCall(op) || (IsSkip(op) && a.Atom?) ||
      (IsByte(op) && a.Atom? && a.value <= 0xFF) || (IsShort(op) && a.Atom? && a.value <= 0xFFFF)
  }

  /** How many indices of each kind a stretch of code uses. Slots are numbered from the end of the program. */
  function Registers(c: Code): nat { if c == [] then 0 else (if IsRegister(c[0]) then 1 else 0) + Registers(c[1..]) }

  /** The literal table: last instruction first. */
  function Literals(c: Code): seq<Noun> {
    if c == [] then [] else Literals(c[1..]) + (if IsLiteral(c[0]) then [c[0].arg] else [])
  }

  /** The call sites' axes, last instruction first. */
  function Calls(c: Code): seq<Noun> {
    if c == [] then [] else Calls(c[1..]) + (if IsCall(c[0]) then [c[0].arg] else [])
  }

  /** The memo table: bytes to skip, and the key. */
  function Memos(c: Code): seq<(nat, Noun)>
    decreases |c|, 0
  {
    if c == [] then []
    else Memos(c[1..]) + (if c[0].Memo? then [(Span(c[1..], c[0].skip), c[0].key)] else [])
  }

  /** Bytes the first instruction takes, an index or skip taking the narrowest form that holds it. */
  function SizeOf(c: Code): (n: nat)
    requires c != []
    ensures n > 0
    decreases |c|, 0
  {
    var op := c[0];
    if IsRegister(op) then IndexSize(Registers(c[1..]))
    else if op.Memo? then IndexSize(|Memos(c[1..])|)
    else if IsCall(op) then IndexSize(|Calls(c[1..])|)
    else if IsLiteral(op) then IndexSize(|Literals(c[1..])|)
    else if IsSkip(op) then SkipSize(Span(c[1..], Number(op.arg)))
    else if IsByte(op) then 2
    else if IsShort(op) then 3
    else 1
  }

  function IndexSize(inx: nat): nat { if inx <= 0xFF then 2 else 3 }

  function SkipSize(tot: nat): nat { if tot <= 0xFF then 2 else if tot <= 0xFFFF then 3 else 5 }

  /** Bytes of the first `n` instructions. */
  function Span(c: Code, n: nat): nat
    decreases |c|, 1
  {
    if n == 0 || c == [] then 0 else SizeOf(c) + Span(c[1..], n - 1)
  }

  function Low(n: nat): seq<nat> { [n % 0x100, n / 0x100 % 0x100] }

  function Index(code: nat, inx: nat): seq<nat> {
    if inx <= 0xFF then [code, inx] else [code + 1] + Low(inx)
  }

  function SkipBytes(code: nat, tot: nat): seq<nat> {
    if tot <= 0xFF then [code, tot]
    else if tot <= 0xFFFF then [code + 1] + Low(tot)
    else [code + 2] + Low(tot) + Low(tot / 0x1_0000)
  }

  /** The bytes of the first instruction. */
  function Encode(c: Code): (b: seq<nat>)
    requires c != []
    ensures |b| == SizeOf(c)
  {
    var op := c[0];
    if IsRegister(op) then Index(op.code, Registers(c[1..]))
    else if op.Memo? then Index(op.code, |Memos(c[1..])|)
    else if IsCall(op) then Index(op.code, |Calls(c[1..])|)
    else if IsLiteral(op) then Index(op.code, |Literals(c[1..])|)
    else if IsSkip(op) then SkipBytes(op.code, Span(c[1..], Number(op.arg)))
    else if IsByte(op) then [op.code, Number(op.arg) % 0x100]
    else if IsShort(op) then [op.code] + Low(Number(op.arg))
    else [op.code]
  }

  /** The whole buffer, closed by a halt. */
  function Bytes(c: Code): seq<nat> {
    if c == [] then [HALT] else Encode(c) + Bytes(c[1..])
  }

  /** An assembled program. */
  datatype Prog = Prog(bytes: seq<nat>, lits: seq<Noun>, memos: seq<(nat, Noun)>, calls: seq<Noun>)

  /** The assembler's limits: 2^16 of each kind of index, and a buffer measured in a word. */
  predicate Fits(c: Code) {
    Registers(c) <= 0x1_0000 && |Literals(c)| <= 0x1_0000 && |Memos(c)| <= 0x1_0000 && |Calls(c)| <= 0x1_0000 &&
    Span(c, |c|) + 1 < 0x1_0000_0000
  }

  function Assemble(c: Code): Prog { Prog(Bytes(c), Literals(c), Memos(c), Calls(c)) }

  // ---- reading back ----

  /** Bytes of operand after an opcode. */
  function OperandWidth(code: nat): nat {
    if code == SWIP || code == SWIN then 4
    else if code in {FASK, FASL, FISL, FISK, LILS, LITS, LISL, LISK, SAMS, SANS, SIPS, SINS, SLIS, SKIS,
                     KICS, TICS, SUSH, SAST, SALT, MUTS, KUTS, MITS, KITS, HILS, HINS} then 2
    else if code in {FABK, FABL, FIBL, FIBK, LILB, LITB, LIBL, LIBK, SAMB, SANB, SBIP, SBIN, SLIB, SKIB,
                     KICB, TICB, BUSH, BAST, BALT, MUTB, KUTB, MITB, KITB, HILB, HINB} then 1
    else 0
  }

  /** Little-endian. */
  function Operand(b: seq<nat>): nat { if b == [] then 0 else b[0] + 0x100 * Operand(b[1..]) }

  function Slot(lits: seq<Noun>, x: nat): Noun { if x < |lits| then lits[x] else Atom(0) }

  /** What an opcode does with operand `x`. */
  function Meaning(p: Prog, code: nat, x: nat): Act {
    if OperandWidth(code) == 0 then PlainAct(code)
    else if code == FABK || code == FASK then Frag(Atom(x), false)
    else if code == FIBK || code == FISK then Frag(Slot(p.lits, x), false)
    else if code == FABL || code == FASL then Frag(Atom(x), true)
    else if code == FIBL || code == FISL then Frag(Slot(p.lits, x), true)
    else if code == LITB || code == LITS then Lit(Atom(x), false)
    else if code == LIBK || code == LISK then Lit(Slot(p.lits, x), false)
    else if code == LILB || code == LILS then Lit(Atom(x), true)
    else if code == LIBL || code == LISL then Lit(Slot(p.lits, x), true)
    else if code == SAMB || code == SAMS then Sam(Atom(x))
    else if code == SANB || code == SANS then Sam(Slot(p.lits, x))
    else if code == SBIP || code == SIPS || code == SWIP then Skip(x)
    else if code == SBIN || code == SINS || code == SWIN then Skin(x)
    else if code == KICB || code == KICS then Kick(x, Slot(p.calls, x), false)
    else if code == TICB || code == TICS then Kick(x, Slot(p.calls, x), true)
    else if code == BUSH || code == SUSH then Push(Slot(p.lits, x))
    else if code == BAST || code == SAST then Fast(false)
    else if code == BALT || code == SALT then Fast(true)
    else if code == SKIB || code == SKIS || code == SLIB || code == SLIS then
      if x < |p.memos| then Find(p.memos[x].0, p.memos[x].1, code == SLIB || code == SLIS) else Bail
    else if code == HILB || code == HILS then Fore(Slot(p.lits, x), false)
    else if code == HINB || code == HINS then Fore(Slot(p.lits, x), true)
    else if code == KUTB || code == KUTS then Edits(Atom(x), false)
    else if code == KITB || code == KITS then Edits(Slot(p.lits, x), false)
    else if code == MUTB || code == MUTS then Edits(Atom(x), true)
    else if code == MITB || code == MITS then Edits(Slot(p.lits, x), true)
    else Bail
  }

  /** What the machine reads at `ip`: the action, and where the next instruction begins.
      None at a halt. */
  function Fetch(p: Prog, ip: nat): Option<(Act, nat)> {
    if ip >= |p.bytes| || p.bytes[ip] == HALT then None
    else
      var code := p.bytes[ip];
      var end := ip + 1 + OperandWidth(code);
      if end > |p.bytes| then Some((Bail, end))
      else Some((Meaning(p, code, Operand(p.bytes[ip + 1..end])), end))
  }

  /** An instruction's action with its skip measured in bytes. */
  function InBytes(c: Code, ip: nat, act: Act): Act
    requires ip < |c|
  {
    match act
    case Skip(n) => Skip(Span(c[ip + 1..], n))
    case Skin(n) => Skin(Span(c[ip + 1..], n))
    case Find(n, key, lose) => Find(Span(c[ip + 1..], n), key, lose)
    case _ => act
  }

  // ---- layout ----

  lemma {:induction false} SpanPlus(c: Code, i: nat, n: nat)
    requires i <= |c|
    ensures Span(c, i + n) == Span(c, i) + Span(c[i..], n)
    decreases |c|
  {
    if i > 0 {
      SpanPlus(c[1..], i - 1, n);
      assert c[1..][i - 1..] == c[i..];
    } else {
      assert c[0..] == c;
    }
  }

  /** The buffer from the offset of instruction `i` on is the buffer of the rest of the code, and
      the tables of the rest begin the tables of the whole. */
  lemma {:induction false} Layout(c: Code, i: nat)
    requires i <= |c|
    ensures Span(c, i) <= |Bytes(c)| && Bytes(c)[Span(c, i)..] == Bytes(c[i..])
    ensures Literals(c[i..]) <= Literals(c) && Calls(c[i..]) <= Calls(c) && Memos(c[i..]) <= Memos(c)
    ensures Registers(c[i..]) <= Registers(c)
    decreases |c|
  {
    hide SizeOf, Encode, IsLiteral, IsCall, IsRegister;
    if i == 0 {
      assert c[0..] == c;
    } else {
      Layout(c[1..], i - 1);
      assert c[1..][i - 1..] == c[i..];
    }
  }

  /** The measured size is the size written. */
  lemma {:induction false} Measured(c: Code)
    ensures |Bytes(c)| == Span(c, |c|) + 1
  {
    if c != [] { Measured(c[1..]); }
  }

  /** Call sites are counted alike by the compiler's numbering and the table. */
  lemma {:induction false} SitesAreCalls(c: Code)
    ensures SitesIn(c) == |Calls(c)|
  {
    if c != [] { SitesAreCalls(c[1..]); }
  }

  lemma OneOperand(n: nat)
    ensures Operand([n]) == n
  {
    assert [n][1..] == [] && Operand([]) == 0;
  }

  /** One byte and the rest. */
  lemma OperandStep(x: nat, b: seq<nat>)
    ensures Operand([x] + b) == x + 0x100 * Operand(b)
  {
    assert ([x] + b)[1..] == b;
  }

  lemma LowOperand(n: nat)
    requires n <= 0xFFFF
    ensures Operand(Low(n)) == n && |Low(n)| == 2
  {
    assert Low(n) == [n % 0x100] + [n / 0x100 % 0x100];
    OperandStep(n % 0x100, [n / 0x100 % 0x100]);
    OneOperand(n / 0x100 % 0x100);
  }

  lemma WideOperand(n: nat)
    requires n < 0x1_0000_0000
    ensures Operand(Low(n) + Low(n / 0x1_0000)) == n && |Low(n)| == 2 == |Low(n / 0x1_0000)|
  {
    hide Operand;
    var h := n / 0x1_0000;
    LowOperand(h);
    assert Low(n) + Low(h) == [n % 0x100] + ([n / 0x100 % 0x100] + Low(h));
    OperandStep(n / 0x100 % 0x100, Low(h));
    OperandStep(n % 0x100, [n / 0x100 % 0x100] + Low(h));
  }

  // ---- reading back what was written ----

  /** A bare opcode, and one with a fixed operand. */
  lemma FixedRead(code: nat, operand: seq<nat>, p: Prog, ip: nat, tail: seq<nat>)
    requires code != HALT && OperandWidth(code) == |operand|
    requires ip <= |p.bytes| && p.bytes[ip..] == [code] + operand + tail
    ensures Fetch(p, ip) == Some((Meaning(p, code, Operand(operand)), ip + 1 + |operand|))
  {
    hide Meaning;
    var b := p.bytes[ip..];
    assert b[0] == p.bytes[ip];
    assert p.bytes[ip + 1..ip + 1 + |operand|] == b[1..1 + |operand|] == operand;
  }

  /** An index opcode, byte or short form. */
  lemma IndexRead(code: nat, inx: nat, p: Prog, ip: nat, tail: seq<nat>)
    requires inx <= 0xFFFF && code != HALT && OperandWidth(code) == 1 && OperandWidth(code + 1) == 2
    requires ip <= |p.bytes| && p.bytes[ip..] == Index(code, inx) + tail
    ensures Fetch(p, ip) == Some((Meaning(p, if inx <= 0xFF then code else code + 1, inx), ip + |Index(code, inx)|))
  {
    hide Meaning, OperandWidth, Fetch, Operand, Low;
    OneOperand(inx);
    LowOperand(inx);
    if inx <= 0xFF {
      assert Index(code, inx) == [code] + [inx];
      FixedRead(code, [inx], p, ip, tail);
    } else {
      FixedRead(code + 1, Low(inx), p, ip, tail);
    }
  }

  /** A skip opcode, in its three forms. */
  lemma SkipRead(code: nat, tot: nat, p: Prog, ip: nat, tail: seq<nat>)
    requires tot < 0x1_0000_0000 && code != HALT
    requires OperandWidth(code) == 1 && OperandWidth(code + 1) == 2 && OperandWidth(code + 2) == 4
    requires ip <= |p.bytes| && p.bytes[ip..] == SkipBytes(code, tot) + tail
    ensures
      var code' := if tot <= 0xFF then code else if tot <= 0xFFFF then code + 1 else code + 2;
      Fetch(p, ip) == Some((Meaning(p, code', tot), ip + |SkipBytes(code, tot)|))
  {
    hide Meaning, OperandWidth, Fetch, Operand, Low;
    OneOperand(tot);
    if tot <= 0xFF {
      assert SkipBytes(code, tot) == [code] + [tot];
      FixedRead(code, [tot], p, ip, tail);
    } else if tot <= 0xFFFF {
      LowOperand(tot);
      FixedRead(code + 1, Low(tot), p, ip, tail);
    } else {
      WideOperand(tot);
      Assoc([code + 2], Low(tot), Low(tot / 0x1_0000));
      FixedRead(code + 2, Low(tot) + Low(tot / 0x1_0000), p, ip, tail);
    }
  }

  lemma Assoc<T>(a: seq<T>, b: seq<T>, c: seq<T>)
    ensures a + (b + c) == (a + b) + c
  {
  }

  /** The tables at the index of the first instruction of a suffix. */
  lemma TableAt(c: Code, i: nat)
    requires i < |c|
    ensures c[i..][1..] == c[i + 1..] && c[i..][0] == c[i]
    ensures IsLiteral(c[i]) ==> |Literals(c[i + 1..])| < |Literals(c)| && Literals(c)[|Literals(c[i + 1..])|] == c[i].arg
    ensures IsCall(c[i]) ==> |Calls(c[i + 1..])| < |Calls(c)| && Calls(c)[|Calls(c[i + 1..])|] == c[i].arg
    ensures c[i].Memo? ==>
              |Memos(c[i + 1..])| < |Memos(c)| &&
              Memos(c)[|Memos(c[i + 1..])|] == (Span(c[i + 1..], c[i].skip), c[i].key)
    ensures IsRegister(c[i]) ==> Registers(c[i + 1..]) < Registers(c)
  {
    Layout(c, i);
  }

  lemma SpanAtMost(c: Code, n: nat)
    ensures Span(c, n) <= Span(c, |c|)
    decreases |c|
  {
    if c != [] && n > 0 { SpanAtMost(c[1..], n - 1); }
  }

  /** The buffer at the offset of instruction `i`, and where that instruction ends. */
  lemma Placed(c: Code, i: nat)
    requires i < |c|
    ensures Span(c, i) <= |Bytes(c)| && Bytes(c)[Span(c, i)..] == Encode(c[i..]) + Bytes(c[i + 1..])
    ensures Span(c, i + 1) == Span(c, i) + |Encode(c[i..])|
  {
    Layout(c, i);
    TableAt(c, i);
    SpanPlus(c, i, 1);
    assert Span(c[i..], 1) == SizeOf(c[i..]) + Span(c[i..][1..], 0);
  }

  lemma IndexedBack(c: Code, i: nat, x: nat)
    requires i < |c| && Encodable(c[i]) && x <= 0xFFFF
    requires Encode(c[i..]) == Index(c[i].code, x)
    requires c[i].code != HALT && OperandWidth(c[i].code) == 1 && OperandWidth(c[i].code + 1) == 2
    requires Meaning(Assemble(c), c[i].code, x) == InBytes(c, i, ActAt(c, i)) == Meaning(Assemble(c), c[i].code + 1, x)
    ensures Fetch(Assemble(c), Span(c, i)) == Some((InBytes(c, i, ActAt(c, i)), Span(c, i + 1)))
  {
    hide Meaning, PlainAct, ActAt, OperandWidth, Encode;
    Placed(c, i);
    IndexRead(c[i].code, x, Assemble(c), Span(c, i), Bytes(c[i + 1..]));
  }

  lemma FixedBack(c: Code, i: nat, operand: seq<nat>)
    requires i < |c| && Encodable(c[i]) && Encode(c[i..]) == [c[i].code] + operand
    requires c[i].code != HALT && OperandWidth(c[i].code) == |operand|
    requires Meaning(Assemble(c), c[i].code, Operand(operand)) == InBytes(c, i, ActAt(c, i))
    ensures Fetch(Assemble(c), Span(c, i)) == Some((InBytes(c, i, ActAt(c, i)), Span(c, i + 1)))
  {
    hide Meaning, PlainAct, ActAt, OperandWidth, Encode;
    Placed(c, i);
    FixedRead(c[i].code, operand, Assemble(c), Span(c, i), Bytes(c[i + 1..]));
  }

  lemma Assembled(c: Code)
    ensures Assemble(c).bytes == Bytes(c)
  {
  }

  lemma SkipEncode(c: Code, i: nat)
    requires i < |c| && IsSkip(c[i])
    ensures Encode(c[i..]) == SkipBytes(c[i].code, Span(c[i + 1..], Number(c[i].arg)))
  {
    hide Span, SkipBytes;
    assert c[i..][0] == c[i] && c[i..][1..] == c[i + 1..];
  }

  lemma FitsSpan(c: Code)
    requires Fits(c)
    ensures Span(c, |c|) + 1 < 0x1_0000_0000
  {
  }

  lemma SkipFetch(p: Prog, code: nat, tot: nat, ip: nat, tail: seq<nat>, act: Act)
    requires tot < 0x1_0000_0000 && code != HALT
    requires OperandWidth(code) == 1 && OperandWidth(code + 1) == 2 && OperandWidth(code + 2) == 4
    requires ip <= |p.bytes| && p.bytes[ip..] == SkipBytes(code, tot) + tail
    requires act == Meaning(p, code, tot) == Meaning(p, code + 1, tot) == Meaning(p, code + 2, tot)
    ensures Fetch(p, ip) == Some((act, ip + |SkipBytes(code, tot)|))
  {
    hide *;
    SkipRead(code, tot, p, ip, tail);
  }

  /** A skip distance stays within the program. */
  lemma SkipFits(c: Code, i: nat, n: nat)
    requires i < |c| && Fits(c)
    ensures Span(c[i + 1..], n) < 0x1_0000_0000
  {
    FitsSpan(c);
    SpanPlus(c, i + 1, |c| - i - 1);
    SpanAtMost(c[i + 1..], n);
    hide *;
  }

  lemma SkipBack(c: Code, i: nat)
    requires i < |c| && IsSkip(c[i]) && Fits(c)
    ensures Fetch(Assemble(c), Span(c, i)) == Some((InBytes(c, i, ActAt(c, i)), Span(c, i + 1)))
  {
    hide Meaning, PlainAct, ActAt, OperandWidth, Encode, Fetch, InBytes, Bytes, Span, Fits, Operand, SkipBytes, Assemble;
    var tot := Span(c[i + 1..], Number(c[i].arg));
    SkipFits(c, i, Number(c[i].arg));
    SkipEncode(c, i);
    Assembled(c);
    Placed(c, i);
    SkipWidths(c[i]);
    SkipMeaning(c, i);
    SkipFetch(Assemble(c), c[i].code, tot, Span(c, i), Bytes(c[i + 1..]), InBytes(c, i, ActAt(c, i)));
  }

  /** Reading at the offset of instruction `i` gives that instruction's action, with its skip in
      bytes, and the offset of the next. */
  lemma FetchBack(c: Code, i: nat)
    requires i < |c| && Fits(c) && Encodable(c[i])
    ensures Fetch(Assemble(c), Span(c, i)) == Some((InBytes(c, i, ActAt(c, i)), Span(c, i + 1)))
  {
    hide Meaning, PlainAct, ActAt, OperandWidth, Fetch, InBytes;
    var op := c[i];
    TableAt(c, i);
    if IsRegister(op) {
      RegisterWidths(op);
      RegisterMeaning(c, i, Registers(c[i + 1..]));
      IndexedBack(c, i, Registers(c[i + 1..]));
    } else if op.Memo? {
      MemoWidths(op);
      MemoMeaning(c, i);
      IndexedBack(c, i, |Memos(c[i + 1..])|);
    } else if IsCall(op) {
      CallWidths(op);
      CallMeaning(c, i);
      IndexedBack(c, i, |Calls(c[i + 1..])|);
    } else if IsLiteral(op) {
      LiteralWidths(op);
      LiteralMeaning(c, i);
      IndexedBack(c, i, |Literals(c[i + 1..])|);
    } else if IsSkip(op) {
      SkipBack(c, i);
    } else if IsByte(op) {
      var x := [op.arg.value];
      assert x[1..] == [] && Operand(x) == x[0] + 0x100 * Operand(x[1..]);
      FixedWidths(op);
      FixedMeaning(c, i);
      FixedBack(c, i, x);
    } else if IsShort(op) {
      LowOperand(op.arg.value);
      FixedWidths(op);
      FixedMeaning(c, i);
      FixedBack(c, i, Low(op.arg.value));
    } else {
      assert Encode(c[i..]) == [op.code] + [];
      BareWidth(op);
      BareMeaning(c, i);
      FixedBack(c, i, []);
    }
  }

  // The facts about single opcodes that reading back needs.

  lemma RegisterWidths(op: Op)
    requires IsRegister(op)
    ensures op.code != HALT && OperandWidth(op.code) == 1 && OperandWidth(op.code + 1) == 2
  {
  }

  lemma MemoWidths(op: Op)
    requires op.Memo? && Encodable(op)
    ensures op.code != HALT && OperandWidth(op.code) == 1 && OperandWidth(op.code + 1) == 2
  {
  }

  lemma CallWidths(op: Op)
    requires IsCall(op)
    ensures op.code != HALT && OperandWidth(op.code) == 1 && OperandWidth(op.code + 1) == 2
  {
  }

  lemma LiteralWidths(op: Op)
    requires IsLiteral(op)
    ensures op.code != HALT && OperandWidth(op.code) == 1 && OperandWidth(op.code + 1) == 2
  {
  }

  lemma SkipWidths(op: Op)
    requires IsSkip(op)
    ensures op.code != HALT && OperandWidth(op.code) == 1 && OperandWidth(op.code + 1) == 2 && OperandWidth(op.code + 2) == 4
  {
  }

  lemma FixedWidths(op: Op)
    requires IsByte(op) || IsShort(op)
    ensures op.code != HALT && OperandWidth(op.code) == if IsByte(op) then 1 else 2
  {
  }

  lemma BareWidth(op: Op)
    requires IsBare(op) && !IsRegister(op)
    ensures op.code != HALT && OperandWidth(op.code) == 0
  {
    hide PlainAct;
    if OperandWidth(op.code) >= 2 { ShortBails(op.code); } else if OperandWidth(op.code) == 1 { ByteBails(op.code); }
  }

  lemma ShortBails(code: nat)
    requires OperandWidth(code) >= 2
    ensures PlainAct(code) == Bail && code != BAIL
  {
  }

  lemma ByteBails(code: nat)
    requires OperandWidth(code) == 1
    ensures code in {BAST, BALT} || (PlainAct(code) == Bail && code != BAIL)
  {
  }

  lemma Tables(c: Code)
    ensures Assemble(c).lits == Literals(c) && Assemble(c).calls == Calls(c) && Assemble(c).memos == Memos(c)
  {
  }

  lemma RegisterMeaning(c: Code, i: nat, x: nat)
    requires i < |c| && IsRegister(c[i])
    ensures Meaning(Assemble(c), c[i].code, x) == InBytes(c, i, ActAt(c, i)) == Meaning(Assemble(c), c[i].code + 1, x)
  {
  }

  lemma MemoMeaning(c: Code, i: nat)
    requires i < |c| && c[i].Memo? && Encodable(c[i])
    ensures
      var x := |Memos(c[i + 1..])|;
      Meaning(Assemble(c), c[i].code, x) == InBytes(c, i, ActAt(c, i)) == Meaning(Assemble(c), c[i].code + 1, x)
  {
    hide OperandWidth, PlainAct, Assemble, Literals, Calls, Memos, Registers, Span;
    MemoWidths(c[i]);
    Tables(c);
    TableAt(c, i);
  }

  lemma CallMeaning(c: Code, i: nat)
    requires i < |c| && IsCall(c[i])
    ensures
      var x := |Calls(c[i + 1..])|;
      Meaning(Assemble(c), c[i].code, x) == InBytes(c, i, ActAt(c, i)) == Meaning(Assemble(c), c[i].code + 1, x)
  {
    hide OperandWidth, PlainAct, Assemble, Literals, Calls, Memos, Registers, Span, SitesIn;
    CallWidths(c[i]);
    Tables(c);
    TableAt(c, i);
    SitesAreCalls(c[i + 1..]);
  }

  lemma LiteralMeaning(c: Code, i: nat)
    requires i < |c| && IsLiteral(c[i])
    ensures
      var x := |Literals(c[i + 1..])|;
      Meaning(Assemble(c), c[i].code, x) == InBytes(c, i, ActAt(c, i)) == Meaning(Assemble(c), c[i].code + 1, x)
  {
    hide OperandWidth, PlainAct, Assemble, Literals, Calls, Memos, Registers, Span;
    LiteralWidths(c[i]);
    Tables(c);
    TableAt(c, i);
  }

  lemma SkipMeaning(c: Code, i: nat)
    requires i < |c| && IsSkip(c[i])
    ensures
      var x := Span(c[i + 1..], Number(c[i].arg));
      Meaning(Assemble(c), c[i].code, x) == InBytes(c, i, ActAt(c, i)) == Meaning(Assemble(c), c[i].code + 1, x) ==
      Meaning(Assemble(c), c[i].code + 2, x)
  {
    hide OperandWidth, PlainAct, Assemble, Literals, Calls, Memos, Registers, Span;
    SkipWidths(c[i]);
  }

  lemma FixedMeaning(c: Code, i: nat)
    requires i < |c| && (IsByte(c[i]) || IsShort(c[i])) && c[i].arg.Atom?
    ensures Meaning(Assemble(c), c[i].code, c[i].arg.value) == InBytes(c, i, ActAt(c, i))
  {
    if IsByte(c[i]) { ByteMeaning(c, i); } else { ShortMeaning(c, i); }
    hide *;
  }

  lemma ByteMeaning(c: Code, i: nat)
    requires i < |c| && IsByte(c[i]) && c[i].arg.Atom?
    ensures Meaning(Assemble(c), c[i].code, c[i].arg.value) == InBytes(c, i, ActAt(c, i))
  {
    hide Span, Assemble;
  }

  lemma ShortMeaning(c: Code, i: nat)
    requires i < |c| && IsShort(c[i]) && c[i].arg.Atom?
    ensures Meaning(Assemble(c), c[i].code, c[i].arg.value) == InBytes(c, i, ActAt(c, i))
  {
    hide Span, Assemble;
  }

  lemma BareMeaning(c: Code, i: nat)
    requires i < |c| && IsBare(c[i]) && !IsRegister(c[i])
    ensures Meaning(Assemble(c), c[i].code, 0) == InBytes(c, i, ActAt(c, i))
  {
    hide OperandWidth, PlainAct, Assemble, Literals, Calls, Memos, Registers, Span;
    BareWidth(c[i]);
    BareAct(c, i, PlainAct(c[i].code));
  }

  /** No action of an opcode alone is a jump or a find. */
  lemma BareAct(c: Code, i: nat, act: Act)
    requires i < |c| && act == PlainAct(c[i].code)
    ensures InBytes(c, i, act) == act
  {
    hide Span;
  }
}
