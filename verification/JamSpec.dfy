/** Serialization of nouns with back-references, as one recursive preorder specification, its
    reader, and the round trip. */
module JamSpec {
  import opened Nouns
  import opened Bits
  import opened BitWriter
  import opened BitReader

  function MatOf(n: nat): seq<bool> { Mat(Low(n, Met(n))) }

  function AtomBits(n: nat): seq<bool> { [false] + MatOf(n) }

  function BackBits(pos: nat): seq<bool> { [true, true] + MatOf(pos) }

  const CELL_BITS: seq<bool> := [true, false]

  /** The bits of a noun, and where each noun was first written. */
  datatype Jammed = Jammed(bits: seq<bool>, seen: map<Noun, nat>)

  /** Serialize `n` at bit position `pos`. An atom already written is written again when that
      is no longer than a reference to it. */
  function Jam(n: Noun, pos: nat, seen: map<Noun, nat>): Jammed {
    match n
    case Atom(v) =>
      if n !in seen then Jammed(AtomBits(v), seen[n := pos])
      else if Met(v) <= Met(seen[n]) then Jammed(AtomBits(v), seen)
      else Jammed(BackBits(seen[n]), seen)
    case Cell(h, t) =>
      if n in seen then Jammed(BackBits(seen[n]), seen)
      else
        var x := Jam(h, pos + 2, seen[n := pos]);
        var y := Jam(t, pos + 2 + |x.bits|, x.seen);
        Jammed(CELL_BITS + (x.bits + y.bits), y.seen)
  }

  /** The whole serialization of a noun. */
  function JamBits(n: Noun): seq<bool> { Jam(n, 0, map[]).bits }

  // ---- reading ----

  /** What stands at the head of a stream, and the bits it takes. Bad: not a token that lies in
      the stream. */
  datatype Token = CellToken | AtomToken(v: nat, len: nat, used: nat) | BackToken(pos: nat, used: nat) | Bad

  function Next(b: seq<bool>): Token {
    if b == [] then Bad
    else if !b[0] then
      match ReadRub(b[1..])
      case NoRub => Bad
      case Rub(len, used) =>
        if 1 + used + len > |b| then Bad
        else AtomToken(Value(b[1 + used..1 + used + len]), len, 1 + used + len)
    else if |b| == 1 then Bad
    else if !b[1] then CellToken
    else
      match ReadRub(b[2..])
      case NoRub => Bad
      case Rub(len, used) =>
        if len > 62 || 2 + used + len > |b| then Bad
        else BackToken(Value(b[2 + used..2 + used + len]), 2 + used + len)
  }

  /** A noun read, the position after it, the completed nouns by position, and whether no atom of
      up to 62 bits was given more than 62. */
  datatype Cued = Cued(noun: Noun, end: nat, done: map<nat, Noun>, tight: bool) | Failed

  function Cue(b: seq<bool>, cur: nat, done: map<nat, Noun>): (c: Cued)
    requires cur <= |b|
    ensures c.Cued? ==> cur < c.end <= |b|
    decreases |b| - cur
  {
    match Next(b[cur..])
    case Bad => Failed
    case AtomToken(v, len, used) => Cued(Atom(v), cur + used, done[cur := Atom(v)], len <= 62 || v >= Pow2(62))
    case BackToken(pos, used) =>
      if pos in done then Cued(done[pos], cur + used, done, true) else Failed
    case CellToken =>
      match Cue(b, cur + 2, done)
      case Failed => Failed
      case Cued(h, mid, done1, tight1) =>
        match Cue(b, mid, done1)
        case Failed => Failed
        case Cued(t, end, done2, tight2) => Cued(Cell(h, t), end, done2[cur := Cell(h, t)], tight1 && tight2)
  }

  // ---- tokens read back ----

  lemma {:induction false} FirstOneRun(n: nat, tail: seq<bool>)
    ensures FirstOne(Zeros(n) + [true] + tail) == n
  {
    var b := Zeros(n) + [true] + tail;
    assert b[n];
    FirstOneAt(b, n);
  }

  /** The self-delimiting form of a payload, part by part. */
  lemma MatForm(p: seq<bool>)
    requires p != []
    ensures
      var z := Met(|p|);
      z > 0 && Mat(p) == Zeros(z) + [true] + (Low(|p|, z - 1) + p) && |Mat(p)| == 2 * z + |p|
  {
    hide Low, Zeros;
    MetBound(|p|);
  }

  lemma RubForm(z: nat, low: seq<bool>, rest: seq<bool>)
    requires 0 < z < 64 && |low| == z - 1
    ensures ReadRub(Zeros(z) + [true] + (low + rest)) == Rub(Value(low) + Pow2(z - 1), 2 * z)
  {
    hide Value, Zeros, Pow2, FirstOne;
    var b := Zeros(z) + [true] + (low + rest);
    FirstOneRun(z, low + rest);
    assert b[z + 1..2 * z] == low;
  }

  /** The bits of a length below its leading one give the length. */
  lemma LengthBits(len: nat)
    requires len > 0
    ensures Value(Low(len, Met(len) - 1)) + Pow2(Met(len) - 1) == len && Met(len) > 0
  {
    var z := Met(len);
    MetBound(len);
    LowMod(len, z - 1);
    LeadingBit(len);
    ValueLow(len % Pow2(z - 1), z - 1);
    hide *;
  }

  /** A self-delimiting payload reads back its length. */
  lemma RubOfMat(p: seq<bool>, tail: seq<bool>)
    requires |p| < Pow2(62)
    ensures ReadRub(Mat(p) + tail) == Rub(|p|, |Mat(p)| - |p|)
    ensures (Mat(p) + tail)[|Mat(p)| - |p|..|Mat(p)|] == p
  {
    var b := Mat(p) + tail;
    if p == [] {
      hide Low, Value, Zeros;
      assert b[0];
    } else {
      hide *;
      var z := Met(|p|);
      MatForm(p);
      MetSmall(|p|, 62);
      LengthBits(|p|);
      var low := Low(|p|, z - 1);
      Payload(Zeros(z) + [true], low, p, tail);
      RubForm(z, low, p + tail);
    }
  }

  lemma Payload(a: seq<bool>, low: seq<bool>, p: seq<bool>, tail: seq<bool>)
    ensures a + (low + p) + tail == a + (low + (p + tail))
    ensures (a + (low + p) + tail)[|a| + |low|..|a| + |low| + |p|] == p
  {
  }

  lemma MetSmall(n: nat, k: nat)
    requires n < Pow2(k)
    ensures Met(n) <= k
  {
    MetBound(n);
    if n > 0 { PowOrder(k, Met(n) - 1); }
  }

  /** A number is its leading bit and the rest. */
  lemma LeadingBit(n: nat)
    requires n > 0
    ensures n == n % Pow2(Met(n) - 1) + Pow2(Met(n) - 1)
  {
    MetBound(n);
    var p := Pow2(Met(n) - 1);
    assert n < 2 * p;
    DivUnique(n, p, 1, n - p);
  }

  lemma MetValue(n: nat)
    ensures Value(Low(n, Met(n))) == n
  {
    MetBound(n);
    ValueLow(n, Met(n));
  }

  lemma TailOf(head: seq<bool>, p: seq<bool>, tail: seq<bool>)
    ensures (head + Mat(p) + tail)[|head|..] == Mat(p) + tail
    ensures forall i, j :: 0 <= i <= j <= |Mat(p)| ==>
              (head + Mat(p) + tail)[|head| + i..|head| + j] == (Mat(p) + tail)[i..j]
  {
    hide Mat;
  }

  /** An atom's payload reads as its value, zeros on top or not. */
  lemma PayloadNext(p: seq<bool>, tail: seq<bool>)
    requires |p| < Pow2(62)
    ensures Next([false] + Mat(p) + tail) == AtomToken(Value(p), |p|, |[false] + Mat(p)|)
  {
    hide Low, Value, ReadRub, Met, Mat, Pow2;
    var b := [false] + Mat(p) + tail;
    RubOfMat(p, tail);
    TailOf([false], p, tail);
    var used := |Mat(p)| - |p|;
    assert b[1 + used..1 + used + |p|] == p;
  }

  lemma AtomNext(v: nat, tail: seq<bool>)
    requires Met(v) < Pow2(62)
    ensures Next(AtomBits(v) + tail) == AtomToken(v, Met(v), |AtomBits(v)|)
  {
    hide Low, Value, Met, Mat, Pow2, Next;
    PayloadNext(Low(v, Met(v)), tail);
    MetValue(v);
  }

  /** A stream that is not tight: an atom of up to 62 bits that was given more. */
  lemma PaddedAtom(p: seq<bool>, tail: seq<bool>)
    requires 62 < |p| < Pow2(62) && Value(p) < Pow2(62)
    ensures Cue([false] + Mat(p) + tail, 0, map[]) == Cued(Atom(Value(p)), |[false] + Mat(p)|, map[0 := Atom(Value(p))], false)
  {
    hide Value, Mat, Pow2, Next;
    var b := [false] + Mat(p) + tail;
    PayloadNext(p, tail);
    assert b[0..] == b;
  }

  lemma BackNext(pos: nat, tail: seq<bool>)
    requires pos < Pow2(62)
    ensures Next(BackBits(pos) + tail) == BackToken(pos, |BackBits(pos)|)
  {
    hide Low, Value, ReadRub, Met, Mat, Pow2;
    MetSmall(pos, 62);
    SixtyTwo();
    var p := Low(pos, Met(pos));
    var b := BackBits(pos) + tail;
    RubOfMat(p, tail);
    MetValue(pos);
    TailOf([true, true], p, tail);
    var used := |Mat(p)| - |p|;
    assert b[2 + used..2 + used + |p|] == p;
  }

  lemma SixtyTwo()
    ensures 62 < Pow2(62)
  {
    PowOrder(6, 62);
  }

  // ---- one noun at a time ----

  lemma JamNewAtom(n: Noun, pos: nat, seen: map<Noun, nat>)
    requires n.Atom? && n !in seen
    ensures Jam(n, pos, seen) == Jammed([false] + Mat(Low(n.value, Met(n.value))), seen[n := pos])
  {
  }

  lemma JamAgain(n: Noun, pos: nat, seen: map<Noun, nat>)
    requires n.Atom? && n in seen && Met(n.value) <= Met(seen[n])
    ensures Jam(n, pos, seen) == Jammed([false] + Mat(Low(n.value, Met(n.value))), seen)
  {
  }

  lemma JamBack(n: Noun, pos: nat, seen: map<Noun, nat>)
    requires n in seen && (n.Atom? ==> Met(n.value) > Met(seen[n]))
    ensures Jam(n, pos, seen) == Jammed([true, true] + Mat(Low(seen[n], Met(seen[n]))), seen)
  {
  }

  /** What the recursive reader makes of one token. */
  lemma CueToken(b: seq<bool>, cur: nat, done: map<nat, Noun>)
    requires cur <= |b|
    ensures Next(b[cur..]) == Bad ==> Cue(b, cur, done) == Failed
    ensures
      Next(b[cur..]).AtomToken? ==>
        var t := Next(b[cur..]);
        Cue(b, cur, done) == Cued(Atom(t.v), cur + t.used, done[cur := Atom(t.v)], t.len <= 62 || t.v >= Pow2(62))
    ensures
      Next(b[cur..]).BackToken? ==>
        var t := Next(b[cur..]);
        Cue(b, cur, done) == if t.pos in done then Cued(done[t.pos], cur + t.used, done, true) else Failed
  {
    hide Next, Pow2;
  }

  // ---- the round trip ----

  /** Where the serialization of a noun has an atom or the tag of a cell, and not a back-reference. */
  ghost function Marks(n: Noun, pos: nat, seen: map<Noun, nat>): set<nat> {
    match n
    case Atom(v) => if n !in seen || Met(v) <= Met(seen[n]) then {pos} else {}
    case Cell(h, t) =>
      if n in seen then {}
      else
        var x := Jam(h, pos + 2, seen[n := pos]);
        {pos} + Marks(h, pos + 2, seen[n := pos]) + Marks(t, pos + 2 + |x.bits|, x.seen)
  }

  lemma MarkAtom(n: Noun, pos: nat, seen: map<Noun, nat>)
    requires n.Atom?
    ensures Marks(n, pos, seen) == if n !in seen || Met(n.value) <= Met(seen[n]) then {pos} else {}
  {
  }

  lemma MarkCell(n: Noun, pos: nat, seen: map<Noun, nat>)
    requires n.Cell?
    ensures
      var x := Jam(n.head, pos + 2, seen[n := pos]);
      Marks(n, pos, seen) ==
      if n in seen then {} else {pos} + Marks(n.head, pos + 2, seen[n := pos]) + Marks(n.tail, pos + 2 + |x.bits|, x.seen)
  {
    hide Jam;
  }

  function Size(n: Noun): nat {
    match n
    case Atom(_) => 1
    case Cell(h, t) => 1 + Size(h) + Size(t)
  }

  /** Every noun seen is completed at its position, unless it is larger than `size`: still open. */
  predicate Known(seen: map<Noun, nat>, done: map<nat, Noun>, size: nat) {
    forall m | m in seen :: Size(m) > size || Done(seen, done, m)
  }

  predicate Done(seen: map<Noun, nat>, done: map<nat, Noun>, m: Noun)
    requires m in seen
  {
    seen[m] in done && done[seen[m]] == m
  }

  /** All positions lie before `pos`. */
  predicate Before(seen: map<Noun, nat>, done: map<nat, Noun>, pos: nat) {
    (forall m | m in seen :: seen[m] < pos) && (forall k | k in done :: k < pos)
  }

  predicate Extends<K, V(==)>(m: map<K, V>, n: map<K, V>) {
    forall k | k in m :: k in n && n[k] == m[k]
  }

  predicate Lies(b: seq<bool>, pos: nat, part: seq<bool>) {
    pos + |part| <= |b| && b[pos..pos + |part|] == part
  }

  lemma LiesApart(b: seq<bool>, pos: nat, x: seq<bool>, y: seq<bool>)
    requires Lies(b, pos, x + y)
    ensures Lies(b, pos, x) && Lies(b, pos + |x|, y)
  {
    var s := b[pos..pos + |x + y|];
    assert b[pos..pos + |x|] == s[..|x|];
    assert b[pos + |x|..pos + |x| + |y|] == s[|x|..];
  }

  lemma LiesAhead(b: seq<bool>, pos: nat, x: seq<bool>)
    requires Lies(b, pos, x)
    ensures pos + |x| <= |b| && b[pos..] == x + b[pos + |x|..]
  {
  }

  /** Reading what was written gives the noun back and leaves the reader ready for what follows.
      In particular a back-reference always points at a noun already completed: the nouns still
      open are all larger than the one being written. */
  lemma {:induction false} CueOfJam(n: Noun, pos: nat, seen: map<Noun, nat>, b: seq<bool>, done: map<nat, Noun>)
    returns (done': map<nat, Noun>)
    requires Lies(b, pos, Jam(n, pos, seen).bits) && |b| < Pow2(62)
    requires Known(seen, done, Size(n)) && Before(seen, done, pos)
    ensures
      var j := Jam(n, pos, seen);
      && Cue(b, pos, done) == Cued(n, pos + |j.bits|, done', true)
      && Extends(done, done') && Extends(seen, j.seen) && Before(j.seen, done', pos + |j.bits|)
      && (forall m | m in j.seen :: m in seen || Done(j.seen, done', m))
      && done'.Keys == done.Keys + Marks(n, pos, seen) && (forall k | k in Marks(n, pos, seen) :: k >= pos)
    decreases n, 1
  {
    hide Next, Jam, Cue, Mat, Met, Low, Pow2, Lies, Marks;
    var j := Jam(n, pos, seen);
    if n.Atom? { MarkAtom(n, pos, seen); } else { MarkCell(n, pos, seen); }
    LiesAhead(b, pos, j.bits);
    CueToken(b, pos, done);
    var tail := b[pos + |j.bits|..];
    if n in seen && (n.Cell? || Met(n.value) > Met(seen[n])) {
      JamBack(n, pos, seen);
      BackNext(seen[n], tail);
      done' := done;
    } else if n.Atom? {
      if n in seen { JamAgain(n, pos, seen); } else { JamNewAtom(n, pos, seen); }
      AtomLength(n.value, |b|);
      AtomNext(n.value, tail);
      if n.value < Pow2(62) { MetSmall(n.value, 62); }
      done' := done[pos := n];
    } else {
      done' := CueOfCell(n, pos, seen, b, done);
    }
  }

  lemma AtomLength(v: nat, limit: nat)
    requires |AtomBits(v)| <= limit < Pow2(62)
    ensures Met(v) < Pow2(62)
  {
  }

  lemma {:induction false} CueOfCell(n: Noun, pos: nat, seen: map<Noun, nat>, b: seq<bool>, done: map<nat, Noun>)
    returns (done': map<nat, Noun>)
    requires n.Cell? && n !in seen
    requires Lies(b, pos, Jam(n, pos, seen).bits) && |b| < Pow2(62)
    requires Known(seen, done, Size(n)) && Before(seen, done, pos)
    ensures
      var j := Jam(n, pos, seen);
      && Cue(b, pos, done) == Cued(n, pos + |j.bits|, done', true)
      && Extends(done, done') && Extends(seen, j.seen) && Before(j.seen, done', pos + |j.bits|)
      && (forall m | m in j.seen :: m in seen || Done(j.seen, done', m))
      && done'.Keys == done.Keys + Marks(n, pos, seen) && (forall k | k in Marks(n, pos, seen) :: k >= pos)
    decreases n, 0
  {
    hide Next, Jam, Cue, Pow2, Met, Lies, Marks, Known, Before, Done;
    JamCell(n, pos, seen);
    MarkCell(n, pos, seen);
    var x := Jam(n.head, pos + 2, seen[n := pos]);
    var y := Jam(n.tail, pos + 2 + |x.bits|, x.seen);
    LiesApart(b, pos, CELL_BITS, x.bits + y.bits);
    LiesApart(b, pos + 2, x.bits, y.bits);
    LiesAhead(b, pos, CELL_BITS);
    CellNext(b[pos + 2..]);
    OpenKnown(n, pos, seen, done);
    var done1 := CueOfJam(n.head, pos + 2, seen[n := pos], b, done);
    StillKnown(seen[n := pos], done, x.seen, done1, Size(n.tail));
    var done2 := CueOfJam(n.tail, pos + 2 + |x.bits|, x.seen, b, done1);
    done' := done2[pos := n];
    CueCell(b, pos, done, n.head, pos + 2 + |x.bits|, done1, n.tail, pos + 2 + |x.bits| + |y.bits|, done2);
    StillDone(n, pos, seen, x.seen, y.seen, done1, done2);
    CloseBefore(n, pos, y.seen, done2, pos + 2 + |x.bits| + |y.bits|);
  }

  lemma OpenKnown(n: Noun, pos: nat, seen: map<Noun, nat>, done: map<nat, Noun>)
    requires n.Cell? && Known(seen, done, Size(n)) && Before(seen, done, pos)
    ensures Known(seen[n := pos], done, Size(n.head)) && Known(seen[n := pos], done, Size(n.tail))
    ensures Before(seen[n := pos], done, pos + 2) && pos !in done
  {
    forall m | m in seen[n := pos] && m != n ensures Size(m) > Size(n) || Done(seen[n := pos], done, m) {
      assert Size(m) > Size(n) || Done(seen, done, m);
    }
  }

  lemma StillKnown(seen: map<Noun, nat>, done: map<nat, Noun>, seen1: map<Noun, nat>, done1: map<nat, Noun>, size: nat)
    requires Known(seen, done, size) && Extends(seen, seen1) && Extends(done, done1)
    requires forall m | m in seen1 :: m in seen || Done(seen1, done1, m)
    ensures Known(seen1, done1, size)
  {
    forall m | m in seen1 ensures Size(m) > size || Done(seen1, done1, m) {
      if m in seen && Size(m) <= size { assert Done(seen, done, m); }
    }
  }

  lemma CloseBefore(n: Noun, pos: nat, seen: map<Noun, nat>, done: map<nat, Noun>, end: nat)
    requires Before(seen, done, end) && pos < end
    ensures Before(seen, done[pos := n], end)
  {
  }

  lemma JamCell(n: Noun, pos: nat, seen: map<Noun, nat>)
    requires n.Cell? && n !in seen
    ensures
      var x := Jam(n.head, pos + 2, seen[n := pos]);
      var y := Jam(n.tail, pos + 2 + |x.bits|, x.seen);
      Jam(n, pos, seen) == Jammed(CELL_BITS + (x.bits + y.bits), y.seen)
  {
  }

  lemma CellNext(tail: seq<bool>)
    ensures Next(CELL_BITS + tail) == CellToken
  {
  }

  lemma CueCell(b: seq<bool>, cur: nat, done: map<nat, Noun>, h: Noun, mid: nat, done1: map<nat, Noun>,
                t: Noun, end: nat, done2: map<nat, Noun>)
    requires cur + 2 <= |b| && Next(b[cur..]) == CellToken && mid <= |b|
    requires Cue(b, cur + 2, done) == Cued(h, mid, done1, true) && Cue(b, mid, done1) == Cued(t, end, done2, true)
    ensures Cue(b, cur, done) == Cued(Cell(h, t), end, done2[cur := Cell(h, t)], true)
  {
  }

  /** Completing the cell disturbs nothing completed before it. */
  lemma StillDone(n: Noun, pos: nat, seen: map<Noun, nat>, seen1: map<Noun, nat>, seen2: map<Noun, nat>,
                  done1: map<nat, Noun>, done2: map<nat, Noun>)
    requires forall m | m in seen1 :: m in seen[n := pos] || Done(seen1, done1, m)
    requires forall m | m in seen2 :: m in seen1 || Done(seen2, done2, m)
    requires Extends(seen[n := pos], seen1) && Extends(seen1, seen2) && Extends(done1, done2)
    requires pos !in done2
    ensures forall m | m in seen2 :: m in seen || Done(seen2, done2[pos := n], m)
  {
    assert seen1[n] == pos && seen2[n] == pos;
    forall m | m in seen2 && m !in seen && m != n ensures Done(seen2, done2[pos := n], m) {
      if m in seen1 {
        assert Done(seen1, done1, m) && seen2[m] == seen1[m];
      } else {
        assert Done(seen2, done2, m);
      }
    }
  }

  // ---- what is recorded ----

  /** Every noun seen is recorded with all its parts, unless it is larger than `size`: still open. */
  ghost predicate Whole(seen: map<Noun, nat>, size: nat) { forall m | m in seen :: Size(m) > size || Subnouns(m) <= seen.Keys }

  /** What was recorded in the meantime is recorded with all its parts. */
  ghost predicate Closes(seen: map<Noun, nat>, seen': map<Noun, nat>) {
    seen.Keys <= seen'.Keys && forall m | m in seen' :: m in seen || Subnouns(m) <= seen'.Keys
  }

  /** Serializing a noun records it and all its parts, and nothing else. */
  lemma {:induction false} SeenAll(n: Noun, pos: nat, seen: map<Noun, nat>)
    requires Whole(seen, Size(n))
    ensures
      var seen' := Jam(n, pos, seen).seen;
      seen'.Keys == seen.Keys + Subnouns(n) && Closes(seen, seen')
    decreases n
  {
    hide Jam, Subnouns, Size, Whole, Closes;
    SeenParts(n);
    var seen' := Jam(n, pos, seen).seen;
    if n in seen || n.Atom? {
      SeenOne(n, pos, seen);
    } else {
      JamCell(n, pos, seen);
      var x := Jam(n.head, pos + 2, seen[n := pos]);
      WholeOpen(seen, n, pos);
      SeenAll(n.head, pos + 2, seen[n := pos]);
      WholeOn(seen[n := pos], x.seen, Size(n.tail));
      SeenAll(n.tail, pos + 2 + |x.bits|, x.seen);
      ClosesCell(n, pos, seen, x.seen, seen');
    }
  }

  lemma SeenParts(n: Noun)
    ensures n in Subnouns(n)
    ensures n.Atom? ==> Subnouns(n) == {n}
    ensures n.Cell? ==> Subnouns(n) == {n} + Subnouns(n.head) + Subnouns(n.tail) && Size(n.head) < Size(n) && Size(n.tail) < Size(n)
  {
  }

  lemma SeenOne(n: Noun, pos: nat, seen: map<Noun, nat>)
    requires (n in seen || n.Atom?) && Whole(seen, Size(n))
    ensures var seen' := Jam(n, pos, seen).seen; seen'.Keys == seen.Keys + Subnouns(n) && Closes(seen, seen')
  {
    hide Subnouns, AtomBits, BackBits, Met;
    SeenParts(n);
  }

  lemma WholeOpen(seen: map<Noun, nat>, n: Noun, pos: nat)
    requires Whole(seen, Size(n)) && n.Cell?
    ensures Whole(seen[n := pos], Size(n.head)) && Whole(seen[n := pos], Size(n.tail))
  {
    hide Subnouns;
    SeenParts(n);
  }

  lemma WholeOn(seen: map<Noun, nat>, seen': map<Noun, nat>, size: nat)
    requires Whole(seen, size) && Closes(seen, seen')
    ensures Whole(seen', size)
  {
    hide Subnouns, Size;
  }

  lemma ClosesCell(n: Noun, pos: nat, seen: map<Noun, nat>, seen1: map<Noun, nat>, seen2: map<Noun, nat>)
    requires Closes(seen[n := pos], seen1) && Closes(seen1, seen2) && Subnouns(n) <= seen2.Keys
    ensures Closes(seen, seen2)
  {
    hide Subnouns;
    forall m | m in seen2 && m !in seen ensures Subnouns(m) <= seen2.Keys {
      assert m in seen1 ==> m in seen[n := pos] || Subnouns(m) <= seen1.Keys;
    }
  }

  /** Reading the serialization of a noun, with any padding behind it, gives that noun. */
  lemma JamRoundTrip(n: Noun, pad: seq<bool>)
    requires |JamBits(n) + pad| < Pow2(62)
    ensures Cue(JamBits(n) + pad, 0, map[]).Cued?
    ensures Cue(JamBits(n) + pad, 0, map[]).noun == n && Cue(JamBits(n) + pad, 0, map[]).end == |JamBits(n)|
    ensures Cue(JamBits(n) + pad, 0, map[]).tight && Cue(JamBits(n) + pad, 0, map[]).done.Keys == Marks(n, 0, map[])
  {
    hide Cue, Jam, Marks;
    var done := CueOfJam(n, 0, map[], JamBits(n) + pad, map[]);
  }

  /** Serialization is injective. */
  lemma JamInjective(n: Noun, m: Noun)
    requires JamBits(n) == JamBits(m) && |JamBits(n)| < Pow2(62)
    ensures n == m
  {
    assert JamBits(n) + [] == JamBits(n);
    JamRoundTrip(n, []);
    JamRoundTrip(m, []);
  }
}
