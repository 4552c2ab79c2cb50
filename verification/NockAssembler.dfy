/** The assembler's two passes as loops over a reversed instruction list: one measures from the
    end of the program to its start, the other fills the buffer backwards. */
module NockAssembler {
  import opened Nouns
  import opened Opcodes
  import opened NockComp
  import opened NockEmit
  import opened NockMachine
  import opened NockAsm
  import opened NockBytes

  /** Byte distances of the skips, in the order the second pass meets them. */
  function Sips(c: Code): seq<nat> {
    if c == [] then [] else Sips(c[1..]) + (if Skips(c[0]) then [Span(c[1..], Jump(c[0]))] else [])
  }

  predicate Skips(op: Op) { op.Memo? || IsSkip(op) }

  lemma {:induction false} ReversedAt(ops: Code, k: nat)
    requires k < |ops|
    ensures Reversed(ops)[|ops| - 1 - k] == ops[k]
  {
    if k > 0 { ReversedAt(ops[1..], k - 1); }
  }

  /** The kinds of instruction that use a table are apart from each other and from skips. */
  lemma KindsApart(op: Op)
    ensures IsRegister(op) ==> !op.Memo? && !IsCall(op) && !IsLiteral(op) && !IsSkip(op)
    ensures op.Memo? ==> !IsCall(op) && !IsLiteral(op) && !IsSkip(op)
    ensures IsCall(op) ==> !IsLiteral(op) && !IsSkip(op)
    ensures IsLiteral(op) ==> !IsSkip(op)
    ensures IsCall(op) || IsLiteral(op) || IsSkip(op) ==> op.Arg?
  {
  }

  /** What one instruction adds to every count of the code after it. */
  lemma Unroll(c: Code, i: nat)
    requires i < |c|
    ensures
      var op, rest := c[i], c[i + 1..];
      && c[i..] == [op] + rest && c[i..][0] == op && c[i..][1..] == rest
      && Registers(c[i..]) == Registers(rest) + (if IsRegister(op) then 1 else 0)
      && Literals(c[i..]) == Literals(rest) + (if IsLiteral(op) then [op.arg] else [])
      && Calls(c[i..]) == Calls(rest) + (if IsCall(op) then [op.arg] else [])
      && Memos(c[i..]) == Memos(rest) + (if op.Memo? then [(Span(rest, op.skip), op.key)] else [])
      && Sips(c[i..]) == Sips(rest) + (if Skips(op) then [Span(rest, Jump(op))] else [])
      && Span(c[i..], |c| - i) == SizeOf(c[i..]) + Span(rest, |c| - i - 1)
      && Bytes(c[i..]) == Encode(c[i..]) + Bytes(rest)
  {
    hide IsRegister, IsLiteral, IsCall, IsSkip, SizeOf, Encode;
    assert c[i..] == [c[i]] + c[i + 1..];
  }

  /** The size of an instruction, from what is counted after it. */
  lemma SizeBy(c: Code, i: nat)
    requires i < |c|
    ensures
      var op, rest := c[i], c[i + 1..];
      SizeOf(c[i..]) ==
      if IsRegister(op) then IndexSize(Registers(rest))
      else if op.Memo? then IndexSize(|Memos(rest)|)
      else if IsCall(op) then IndexSize(|Calls(rest)|)
      else if IsLiteral(op) then IndexSize(|Literals(rest)|)
      else if IsSkip(op) then SkipSize(Span(rest, Jump(op)))
      else if IsByte(op) then 2 else if IsShort(op) then 3 else 1
  {
    assert c[i..][0] == c[i] && c[i..][1..] == c[i + 1..];
  }

  /** The bytes of an instruction, from the counts after it and its skip distance. */
  function EncodeWith(op: Op, reg: nat, mem: nat, cal: nat, lit: nat, tot: nat): seq<nat> {
    if IsRegister(op) then Index(op.code, reg)
    else if op.Memo? then Index(op.code, mem)
    else if IsCall(op) then Index(op.code, cal)
    else if IsLiteral(op) then Index(op.code, lit)
    else if IsSkip(op) then SkipBytes(op.code, tot)
    else Encode([op])
  }

  /** The distance matters only to skips. */
  lemma SameEncoding(op: Op, reg: nat, mem: nat, cal: nat, lit: nat, tot: nat)
    ensures !Skips(op) ==> EncodeWith(op, reg, mem, cal, lit, tot) == EncodeWith(op, reg, mem, cal, lit, 0)
    ensures (Skips(op) <==> op.Memo? || IsSkip(op)) && (op.Memo? ==> Jump(op) == op.skip)
  {
  }

  lemma EncodeBy(c: Code, i: nat)
    requires i < |c|
    ensures
      var op, rest := c[i], c[i + 1..];
      Encode(c[i..]) ==
      EncodeWith(op, Registers(rest), |Memos(rest)|, |Calls(rest)|, |Literals(rest)|, Span(rest, Jump(op)))
  {
    assert c[i..][0] == c[i] && c[i..][1..] == c[i + 1..];
  }

  predicate InLimits(c: Code) {
    Registers(c) <= 0x1_0000 && |Literals(c)| <= 0x1_0000 && |Memos(c)| <= 0x1_0000 && |Calls(c)| <= 0x1_0000
  }

  lemma NothingYet()
    ensures Registers([]) == 0 && Literals([]) == [] && Calls([]) == [] && Memos([]) == [] && Sips([]) == []
    ensures Span([], 0) == 0 && Bytes([]) == [HALT]
  {
  }

  lemma SkipKinds(op: Op)
    ensures Skips(op) <==> op.Memo? || IsSkip(op)
  {
  }

  lemma JumpsIn(c: Code, i: nat)
    requires Sound(c) && i < |c|
    ensures Encodable(c[i]) && (Skips(c[i]) ==> i + 1 + Jump(c[i]) <= |c|)
  {
    hide Encodable, Jump;
  }

  /** The first pass: sizes, skip distances and table lengths; refused when a table exceeds 2^16. */
  method Melt(ops: Code, ghost c: Code)
    returns (ok: bool, sip: seq<nat>, byc: nat, cal: nat, reg: nat, lit: nat, mem: nat)
    requires c == Reversed(ops) && Sound(c)
    ensures ok <==> InLimits(c)
    ensures ok ==> sip == Sips(c) && byc == |Bytes(c)|
    ensures ok ==> cal == |Calls(c)| && reg == Registers(c) && lit == |Literals(c)| && mem == |Memos(c)|
  {
    hide IsRegister, IsLiteral, IsCall, IsSkip, IsByte, IsShort, Encodable, Registers, Literals, Calls, Memos, Sips, Bytes, Span, SizeOf,
      IndexSize, SkipSize, Reversed, Skips, Jump, Sound, Encode;
    var len := |ops|;
    assert c[len..] == [];
    NothingYet();
    var siz := new nat[len];
    sip, byc, cal, reg, lit, mem := [], 1, 0, 0, 0, 0;
    ok := true;
    var t := 0;
    while t < len
      invariant 0 <= t <= len && ok
      invariant sip == Sips(c[len - t..]) && byc == Span(c[len - t..], t) + 1
      invariant cal == |Calls(c[len - t..])| && reg == Registers(c[len - t..])
      invariant lit == |Literals(c[len - t..])| && mem == |Memos(c[len - t..])|
      invariant cal <= 0x1_0000 && reg <= 0x1_0000 && lit <= 0x1_0000 && mem <= 0x1_0000
      invariant forall k: nat | len - t <= k < len :: siz[k] == SizeOf(c[k..])
    {
      var i, op := len - 1 - t, ops[t];
      ghost var rest := c[i + 1..];
      ReversedAt(ops, t);
      Unroll(c, i);
      SizeBy(c, i);
      KindsApart(op);
      SkipKinds(op);
      JumpsIn(c, i);
      Layout(c, i);
      var a := 0;
      if Skips(op) {
        var tot := Total(siz, c, i, Jump(op));
        sip := sip + [tot];
        siz[i] := SkipSize(tot);
      }
      if IsRegister(op) { a, reg := reg, reg + 1; }
      else if op.Memo? { a, mem := mem, mem + 1; }
      else if IsCall(op) { a, cal := cal, cal + 1; }
      else if IsLiteral(op) { a, lit := lit, lit + 1; }
      if a > 0xFFFF { ok := false; return; }
      if IsRegister(op) || op.Memo? || IsCall(op) || IsLiteral(op) {
        siz[i] := IndexSize(a);
      } else if !IsSkip(op) {
        siz[i] := if IsByte(op) then 2 else if IsShort(op) then 3 else 1;
      }
      byc := byc + siz[i];
      t := t + 1;
    }
    assert c[0..] == c;
    Measured(c);
  }

  /** The bytes of the `n` instructions after `i`, from the sizes already known. */
  method Total(siz: array<nat>, ghost c: Code, i: nat, n: nat) returns (tot: nat)
    requires i + 1 + n <= siz.Length == |c|
    requires forall k: nat | i < k < |c| :: siz[k] == SizeOf(c[k..])
    ensures tot == Span(c[i + 1..], n)
  {
    tot := 0;
    for j := 0 to n
      invariant tot == Span(c[i + 1..], j)
    {
      SpanPlus(c[i + 1..], j, 1);
      assert c[i + 1..][j..] == c[i + 1 + j..];
      assert Span(c[i + 1 + j..], 1) == SizeOf(c[i + 1 + j..]) + Span(c[i + 1 + j..][1..], 0);
      tot := tot + siz[i + 1 + j];
    }
  }

  /** Write an index and its opcode backwards, ending at `at`; returns where they begin. */
  method AsmIndex(buf: array<nat>, at: nat, inx: nat, cod: nat) returns (i: nat)
    requires |Index(cod, inx)| <= at + 1 && at < buf.Length
    modifies buf
    ensures i + |Index(cod, inx)| == at + 1
    ensures buf[..] == old(buf[..i]) + Index(cod, inx) + old(buf[at + 1..])
  {
    i := at;
    if inx <= 0xFF {
      buf[i] := inx;
      i := i - 1;
      buf[i] := cod;
    } else {
      buf[i] := inx / 0x100 % 0x100;
      i := i - 1;
      buf[i] := inx % 0x100;
      i := i - 1;
      buf[i] := cod + 1;
    }
  }

  lemma WideBytes(tot: nat)
    requires tot < 0x1_0000_0000
    ensures Low(tot) + Low(tot / 0x1_0000) ==
            [tot % 0x100, tot / 0x100 % 0x100, tot / 0x1_0000 % 0x100, tot / 0x100_0000]
  {
    var h := tot / 0x1_0000;
    assert h / 0x100 == tot / 0x100_0000;
    assert h / 0x100 % 0x100 == h / 0x100;
  }

  /** Byte `k` of a number. */
  function Digit(n: nat, k: nat): nat { if k == 0 then n % 0x100 else Digit(n / 0x100, k - 1) }

  /** Write a skip distance and its opcode backwards, in the narrowest of three forms. */
  method AsmSkip(buf: array<nat>, at: nat, tot: nat, cod: nat) returns (i: nat)
    requires |SkipBytes(cod, tot)| <= at + 1 && at < buf.Length && tot < 0x1_0000_0000
    modifies buf
    ensures i + |SkipBytes(cod, tot)| == at + 1
    ensures buf[..] == old(buf[..i]) + SkipBytes(cod, tot) + old(buf[at + 1..])
  {
    SkipForms(cod, tot);
    hide SkipBytes, Digit;
    i := at;
    if tot <= 0xFF {
      buf[i] := tot;
      i := i - 1;
      buf[i] := cod;
    } else if tot <= 0xFFFF {
      buf[i] := Digit(tot, 1);
      i := i - 1;
      buf[i] := Digit(tot, 0);
      i := i - 1;
      buf[i] := cod + 1;
    } else {
      i := AsmWide(buf, at, tot, cod + 2);
    }
  }

  /** The four-byte form. */
  method AsmWide(buf: array<nat>, at: nat, tot: nat, cod: nat) returns (i: nat)
    requires 4 <= at < buf.Length
    modifies buf
    ensures i == at - 4
    ensures buf[..] == old(buf[..i]) + [cod, Digit(tot, 0), Digit(tot, 1), Digit(tot, 2), Digit(tot, 3)] + old(buf[at + 1..])
  {
    hide Digit;
    i := at;
    buf[i] := Digit(tot, 3);
    i := i - 1;
    buf[i] := Digit(tot, 2);
    i := i - 1;
    buf[i] := Digit(tot, 1);
    i := i - 1;
    buf[i] := Digit(tot, 0);
    i := i - 1;
    buf[i] := cod;
  }

  lemma SkipForms(cod: nat, tot: nat)
    requires tot < 0x1_0000_0000
    ensures
      SkipBytes(cod, tot) ==
      if tot <= 0xFF then [cod, tot]
      else if tot <= 0xFFFF then [cod + 1, Digit(tot, 0), Digit(tot, 1)]
      else [cod + 2, Digit(tot, 0), Digit(tot, 1), Digit(tot, 2), Digit(tot, 3)]
  {
    WideBytes(tot);
    assert Digit(tot, 1) == Digit(tot / 0x100, 0);
    assert Digit(tot, 2) == Digit(tot / 0x100, 1) == Digit(tot / 0x100 / 0x100, 0);
    assert Digit(tot, 3) == Digit(tot / 0x100, 2) == Digit(tot / 0x100 / 0x100, 1) == Digit(tot / 0x100 / 0x100 / 0x100, 0);
  }

  /** Write an instruction with a direct operand, or none. */
  method AsmPlain(buf: array<nat>, at: nat, op: Op) returns (i: nat)
    requires !IsRegister(op) && !op.Memo? && !IsCall(op) && !IsLiteral(op) && !IsSkip(op)
    requires |Encode([op])| <= at + 1 && at < buf.Length
    modifies buf
    ensures i + |Encode([op])| == at + 1
    ensures buf[..] == old(buf[..i]) + Encode([op]) + old(buf[at + 1..])
  {
    i := at;
    if IsByte(op) {
      buf[i] := Number(op.arg) % 0x100;
      i := i - 1;
      buf[i] := op.code;
    } else if IsShort(op) {
      buf[i] := Number(op.arg) / 0x100 % 0x100;
      i := i - 1;
      buf[i] := Number(op.arg) % 0x100;
      i := i - 1;
      buf[i] := op.code;
    } else {
      buf[i] := op.code;
    }
  }

  /** Write one instruction backwards, ending at `at`. */
  method AsmOne(buf: array<nat>, at: nat, op: Op, reg: nat, mem: nat, cal: nat, lit: nat, tot: nat) returns (i: nat)
    requires |EncodeWith(op, reg, mem, cal, lit, tot)| <= at + 1 && at < buf.Length && tot < 0x1_0000_0000
    modifies buf
    ensures i + |EncodeWith(op, reg, mem, cal, lit, tot)| == at + 1
    ensures buf[..] == old(buf[..i]) + EncodeWith(op, reg, mem, cal, lit, tot) + old(buf[at + 1..])
  {
    hide IsRegister, IsLiteral, IsCall, IsSkip, Index, SkipBytes, Encode;
    if IsRegister(op) { i := AsmIndex(buf, at, reg, op.code); }
    else if op.Memo? { i := AsmIndex(buf, at, mem, op.code); }
    else if IsCall(op) { i := AsmIndex(buf, at, cal, op.code); }
    else if IsLiteral(op) { i := AsmIndex(buf, at, lit, op.code); }
    else if IsSkip(op) { i := AsmSkip(buf, at, tot, op.code); }
    else { i := AsmPlain(buf, at, op); }
  }

  /** While bytes remain to be written, so do instructions. */
  lemma AsmReady(ops: Code, c: Code, t: nat)
    requires c == Reversed(ops) && t <= |ops| && Span(c, |c| - t) > 0
    ensures t < |ops|
  {
  }

  lemma AsmDone(c: Code, n: nat)
    requires n <= |c| && Span(c, n) == 0
    ensures n == 0
  {
  }

  /** The tables the second pass fills, first index first. */
  datatype Tables = Tables(reg: nat, memos: seq<(nat, Noun)>, calls: seq<Noun>, lits: seq<Noun>) {
    function Add(op: Op, tot: nat): Tables {
      if IsRegister(op) then this.(reg := reg + 1)
      else if op.Memo? then this.(memos := memos + [(tot, op.key)])
      else if IsLiteral(op) then this.(lits := lits + [op.arg])
      else if IsCall(op) then this.(calls := calls + [op.arg])
      else this
    }
  }

  function TablesOf(c: Code): Tables { Tables(Registers(c), Memos(c), Calls(c), Literals(c)) }

  lemma TablesGrow(c: Code, k: nat)
    requires k < |c|
    ensures
      var tot := if Skips(c[k]) then Span(c[k + 1..], Jump(c[k])) else 0;
      var t := TablesOf(c[k + 1..]);
      && TablesOf(c[k..]) == t.Add(c[k], tot)
      && EncodeWith(c[k], t.reg, |t.memos|, |t.calls|, |t.lits|, tot) == Encode(c[k..])
      && Bytes(c[k..]) == Encode(c[k..]) + Bytes(c[k + 1..])
      && Sips(c[k..]) == Sips(c[k + 1..]) + (if Skips(c[k]) then [tot] else [])
  {
    Unroll(c, k);
    EncodeBy(c, k);
    KindsApart(c[k]);
    SameEncoding(c[k], Registers(c[k + 1..]), |Memos(c[k + 1..])|, |Calls(c[k + 1..])|, |Literals(c[k + 1..])|,
                 Span(c[k + 1..], Jump(c[k])));
  }

  lemma TotalFits(c: Code, k: nat)
    requires k < |c| && Fits(c)
    ensures Span(c[k + 1..], Jump(c[k])) < 0x1_0000_0000
  {
    SpanPlus(c, k + 1, |c| - k - 1);
    SpanAtMost(c[k + 1..], Jump(c[k]));
  }

  lemma Replaced<T>(now: seq<T>, was: seq<T>, i: nat, mid: seq<T>, done: seq<T>)
    requires i <= |was| && now == was[..i] + mid + done
    ensures now[i..] == mid + done
  {
  }

  /** The second pass: the buffer is filled from its end, and the tables from their start. */
  method Asm(ops: Code, sip: seq<nat>, buf: array<nat>, ghost c: Code) returns (tables: Tables)
    requires c == Reversed(ops) && Fits(c) && sip == Sips(c) && buf.Length == |Bytes(c)|
    modifies buf
    ensures buf[..] == Bytes(c) && tables == TablesOf(c)
  {
    hide Encodable, TablesOf, Sips, Bytes, Span, SizeOf, Encode, EncodeWith, Jump, Skips, Tables.Add;
    NothingYet();
    var t, sip', i := 0, sip, buf.Length - 1;
    Measured(c);
    EmptyTables();
    tables := Tables(0, [], [], []);
    buf[i] := HALT;
    assert c[|c|..] == [];
    assert buf[i..] == [HALT];
    while i > 0
      invariant 0 <= t <= |ops| && i == Span(c, |c| - t)
      invariant i < buf.Length && buf[i..] == Bytes(c[|c| - t..])
      invariant tables == TablesOf(c[|c| - t..]) && sip == Sips(c[|c| - t..]) + sip'
      decreases i
    {
      ghost var k := |c| - t - 1;
      AsmReady(ops, c, t);
      var op := ops[t];
      ReversedAt(ops, t);
      Placed(c, k);
      TablesGrow(c, k);
      TotalFits(c, k);
      ghost var done, was := buf[i..], buf[..];
      var tot := 0;
      if Skips(op) {
        SipsLayout(c, k);
        tot := sip'[0];
        sip' := sip'[1..];
      }
      i := AsmOne(buf, i - 1, op, tables.reg, |tables.memos|, |tables.calls|, |tables.lits|, tot);
      Replaced(buf[..], was, i, Encode(c[k..]), done);
      assert buf[i..] == buf[..][i..];
      tables := tables.Add(op, tot);
      t := t + 1;
    }
    AsmDone(c, |c| - t);
    assert c[0..] == c && buf[0..] == buf[..];
  }

  lemma EmptyTables()
    ensures TablesOf([]) == Tables(0, [], [], [])
  {
  }

  lemma SipsLayout(c: Code, k: nat)
    requires k < |c| && Skips(c[k])
    ensures |Sips(c[k + 1..])| < |Sips(c)| && Sips(c)[|Sips(c[k + 1..])|] == Span(c[k + 1..], Jump(c[k]))
    ensures Sips(c[k..]) == Sips(c[k + 1..]) + [Span(c[k + 1..], Jump(c[k]))]
  {
    assert c[k..][0] == c[k] && c[k..][1..] == c[k + 1..];
    SipsPrefix(c, k);
  }

  lemma {:induction false} SipsPrefix(c: Code, k: nat)
    requires k <= |c|
    ensures Sips(c[k..]) <= Sips(c)
    decreases |c|
  {
    if k == 0 {
      assert c[0..] == c;
    } else {
      SipsPrefix(c[1..], k - 1);
      assert c[1..][k - 1..] == c[k..];
    }
  }

  /** Compile and assemble a formula (`_n_bite`): the program the machine over bytes loads. */
  method Bite(fol: Noun) returns (p: Option<Prog>)
    ensures p == (match Program(fol)
                  case None => None
                  case Some(c) => if Fits(c) then Some(Assemble(c)) else None)
  {
    var ops := new OpList();
    var ok, tot := NComp(ops, fol, true, true);
    if !ok { return None; }
    ghost var c := Program(fol).value;
    ReversedTwice(c);
    CompSound(fol, true, true);
    assert ops.ops == Reversed(c);
    var sip, byc, cal, reg, lit, mem;
    ok, sip, byc, cal, reg, lit, mem := Melt(ops.ops, c);
    Measured(c);
    if !ok || byc >= 0x1_0000_0000 { return None; }
    var buf := new nat[byc];
    var tables := Asm(ops.ops, sip, buf, c);
    p := Some(Prog(buf[..], tables.lits, tables.memos, tables.calls));
  }

  lemma {:induction false} ReversedTwice(c: Code)
    ensures Reversed(Reversed(c)) == c
  {
    if c != [] {
      ReversedTwice(c[1..]);
      ReversedCat(Reversed(c[1..]), [c[0]]);
      assert Reversed([c[0]]) == [c[0]];
    }
  }
}
