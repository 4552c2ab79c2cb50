/** Compaction of a north road's heap (pkg/urbit/noun/allocate.c:2289-2560, manage.c:1881-1905):
    new addresses are noted in the trailing size words, pointers are rewritten from the roots, and
    boxes slide down to the base. */
module Compact {
  import opened Nouns

  /** The top bit of a use count marks a cell as rewritten; the top bits of a word tell a pointer
      to an atom or to a cell from a direct atom. */
  const MARK: nat := 0x8000_0000
  const POM: nat := 0xc000_0000

  /** Offsets are 30 bits. */
  const OFFSETS: nat := 0x4000_0000

  /** The smallest box: a cell with its two-word header and trailing size. */
  const MINIMUM: nat := 6

  // ---- the layout of the heap ----

  /** Boxes of at least the minimum size begin at `bs[0]`, `bs[1]`, ... and end at the last of
      `bs`; each begins with its size. */
  ghost predicate Laid(w: seq<nat>, bs: seq<nat>) {
    && |bs| > 0 && bs[|bs| - 1] <= |w| < OFFSETS
    && forall i | 0 <= i < |bs| - 1 :: BoxAt(w, bs, i)
  }

  predicate BoxAt(w: seq<nat>, bs: seq<nat>, i: nat)
    requires i + 1 < |bs|
  {
    bs[i] + 1 < |w| && w[bs[i]] >= MINIMUM && bs[i + 1] == bs[i] + w[bs[i]] <= |w|
  }

  lemma {:induction false} Ascending(w: seq<nat>, bs: seq<nat>, i: nat, j: nat)
    requires Laid(w, bs) && i <= j < |bs|
    ensures bs[i] <= bs[j] <= bs[|bs| - 1] && (i < j ==> bs[i] + MINIMUM <= bs[i + 1] <= bs[j])
    decreases |bs| - i
  {
    if i < |bs| - 1 {
      assert BoxAt(w, bs, i);
      Ascending(w, bs, i + 1, if i < j then j else i + 1);
    }
  }

  predicate InUse(w: seq<nat>, bs: seq<nat>, i: nat)
    requires i < |bs| && bs[i] + 1 < |w|
  {
    w[bs[i] + 1] > 0
  }

  /** Where box `i` goes: past the boxes in use before it. */
  ghost function NewBox(w: seq<nat>, bs: seq<nat>, i: nat): nat
    requires Laid(w, bs) && i < |bs|
  {
    if i == 0 then bs[0]
    else
      assert BoxAt(w, bs, i - 1);
      NewBox(w, bs, i - 1) + if InUse(w, bs, i - 1) then w[bs[i - 1]] else 0
  }

  lemma {:induction false} NewBoxOrder(w: seq<nat>, bs: seq<nat>, i: nat, j: nat)
    requires Laid(w, bs) && i <= j < |bs|
    ensures bs[0] <= NewBox(w, bs, i) <= NewBox(w, bs, j)
    ensures i < j && BoxAt(w, bs, i) && InUse(w, bs, i) ==> NewBox(w, bs, i) + w[bs[i]] <= NewBox(w, bs, j)
    decreases j
  {
    if i < j {
      assert BoxAt(w, bs, j - 1);
      NewBoxOrder(w, bs, i, j - 1);
    } else {
      NewBoxBase(w, bs, i);
    }
  }

  lemma {:induction false} NewBoxBase(w: seq<nat>, bs: seq<nat>, i: nat)
    requires Laid(w, bs) && i < |bs|
    ensures bs[0] <= NewBox(w, bs, i)
  {
    if i > 0 {
      NewBoxBase(w, bs, i - 1);
      NewBoxNext(w, bs, i - 1);
    }
  }

  /** Boxes only move down. */
  lemma {:induction false} NewBoxDown(w: seq<nat>, bs: seq<nat>, i: nat)
    requires Laid(w, bs) && i < |bs|
    ensures NewBox(w, bs, i) <= bs[i]
  {
    if i > 0 {
      NewBoxDown(w, bs, i - 1);
      assert BoxAt(w, bs, i - 1);
    }
  }

  // ---- what words denote ----

  function IsPug(x: nat): bool { MARK <= x < POM }

  function IsPom(x: nat): bool { x >= POM }

  /** The offset in an indirect noun. */
  function Post(x: nat): nat { if x >= POM then x - POM else if x >= MARK then x - MARK else 0 }

  /** The number made by the words of an atom. */
  function Number(ws: seq<nat>): nat { if ws == [] then 0 else ws[0] + 0x1_0000_0000 * Number(ws[1..]) }

  /** A pointer to the data of box `i`, which is in use. */
  predicate PointsTo(w: seq<nat>, bs: seq<nat>, x: nat, i: nat) {
    i + 1 < |bs| && bs[i] + 1 < |w| && Post(x) == bs[i] + 2 && InUse(w, bs, i)
  }

  /** The word is the noun `n`, through boxes in use that hold all of it; `cs` are the starts of the
      boxes that hold cells, the others hold atoms. */
  ghost predicate NounAt(w: seq<nat>, bs: seq<nat>, cs: set<nat>, x: nat, n: Noun)
    decreases n
  {
    match n
    case Atom(v) => if x < MARK then v == x else exists i: nat :: AtomBox(w, bs, cs, x, i) && AtomIn(w, bs, i, v)
    case Cell(h, t) =>
      exists i: nat :: CellBox(w, bs, cs, x, i) && NounAt(w, bs, cs, w[bs[i] + 3], h) && NounAt(w, bs, cs, w[bs[i] + 4], t)
  }

  predicate AtomBox(w: seq<nat>, bs: seq<nat>, cs: set<nat>, x: nat, i: nat) {
    IsPug(x) && PointsTo(w, bs, x, i) && bs[i] !in cs
  }

  /** A pointer to a cell whose box has room for it: after the mug its head and its tail. */
  predicate CellBox(w: seq<nat>, bs: seq<nat>, cs: set<nat>, x: nat, i: nat) {
    IsPom(x) && PointsTo(w, bs, x, i) && bs[i] in cs && bs[i] + 6 <= bs[i + 1] <= |w|
  }

  /** The box holds an atom: after the mug its length, and its words. */
  predicate AtomIn(w: seq<nat>, bs: seq<nat>, i: nat, v: nat) {
    i + 1 < |bs| && bs[i] + 5 <= bs[i + 1] <= |w| && bs[i] + 5 + w[bs[i] + 3] <= bs[i + 1]
    && Number(w[bs[i] + 4..bs[i] + 4 + w[bs[i] + 3]]) == v
  }

  lemma SameBox(w: seq<nat>, bs: seq<nat>, x: nat, i: nat, j: nat)
    requires Laid(w, bs) && PointsTo(w, bs, x, i) && PointsTo(w, bs, x, j)
    ensures i == j
  {
    if i < j { Ascending(w, bs, i, j); } else { Ascending(w, bs, j, i); }
  }

  lemma CellParts(w: seq<nat>, bs: seq<nat>, cs: set<nat>, x: nat, n: Noun) returns (i: nat)
    requires NounAt(w, bs, cs, x, n) && n.Cell?
    ensures CellBox(w, bs, cs, x, i) && NounAt(w, bs, cs, w[bs[i] + 3], n.head) && NounAt(w, bs, cs, w[bs[i] + 4], n.tail)
  {
    i :| CellBox(w, bs, cs, x, i) && NounAt(w, bs, cs, w[bs[i] + 3], n.head) && NounAt(w, bs, cs, w[bs[i] + 4], n.tail);
  }

  lemma AtomParts(w: seq<nat>, bs: seq<nat>, cs: set<nat>, x: nat, n: Noun) returns (i: nat)
    requires NounAt(w, bs, cs, x, n) && n.Atom? && x >= MARK
    ensures AtomBox(w, bs, cs, x, i) && AtomIn(w, bs, i, n.value)
  {
    i :| AtomBox(w, bs, cs, x, i) && AtomIn(w, bs, i, n.value);
  }

  lemma AtomKind(w: seq<nat>, bs: seq<nat>, cs: set<nat>, x: nat, n: Noun)
    requires NounAt(w, bs, cs, x, n)
    ensures IsPom(x) == n.Cell? && (x < MARK ==> n == Atom(x))
  {
  }

  /** A word is at most one noun. */
  lemma {:induction false} NounUnique(w: seq<nat>, bs: seq<nat>, cs: set<nat>, x: nat, n: Noun, m: Noun)
    requires Laid(w, bs) && NounAt(w, bs, cs, x, n) && NounAt(w, bs, cs, x, m)
    ensures n == m
    decreases n
  {
    hide NounAt, Laid;
    AtomKind(w, bs, cs, x, n);
    AtomKind(w, bs, cs, x, m);
    if n.Cell? {
      var i := CellParts(w, bs, cs, x, n);
      var j := CellParts(w, bs, cs, x, m);
      SameBox(w, bs, x, i, j);
      NounUnique(w, bs, cs, w[bs[i] + 3], n.head, m.head);
      NounUnique(w, bs, cs, w[bs[i] + 4], n.tail, m.tail);
    } else if x >= MARK {
      var i := AtomParts(w, bs, cs, x, n);
      var j := AtomParts(w, bs, cs, x, m);
      SameBox(w, bs, x, i, j);
    }
  }

  // ---- the first sweep ----

  /** After the sweep: the trailing words of boxes in use hold their new addresses, and nothing else
      has changed. */
  ghost predicate Sought(w0: seq<nat>, bs: seq<nat>, w: seq<nat>)
    requires Laid(w0, bs)
  {
    && |w| == |w0|
    && (forall k | 0 <= k < |w0| && (k < bs[0] || k >= bs[|bs| - 1]) :: w[k] == w0[k])
    && (forall i | 0 <= i < |bs| - 1 :: SoughtBox(w0, bs, w, i))
  }

  ghost predicate SoughtBox(w0: seq<nat>, bs: seq<nat>, w: seq<nat>, i: nat)
    requires Laid(w0, bs) && |w| == |w0| && i + 1 < |bs|
  {
    BoxAt(w0, bs, i) &&
    (forall k | bs[i] <= k < bs[i + 1] - 1 :: w[k] == w0[k]) &&
    w[bs[i + 1] - 1] == if InUse(w0, bs, i) then NewBox(w0, bs, i) + 2 else w0[bs[i + 1] - 1]
  }

  lemma LaidEnds(w: seq<nat>, bs: seq<nat>)
    requires Laid(w, bs)
    ensures |bs| > 0 && bs[0] <= bs[|bs| - 1] <= |w| < OFFSETS
  {
    Ascending(w, bs, 0, |bs| - 1);
  }

  lemma LaidBox(w: seq<nat>, bs: seq<nat>, i: nat)
    requires Laid(w, bs) && i + 1 < |bs|
    ensures BoxAt(w, bs, i)
  {
  }

  lemma NewBoxFirst(w: seq<nat>, bs: seq<nat>)
    requires Laid(w, bs)
    ensures NewBox(w, bs, 0) == bs[0]
  {
  }

  lemma NewBoxNext(w: seq<nat>, bs: seq<nat>, i: nat)
    requires Laid(w, bs) && i + 1 < |bs|
    ensures BoxAt(w, bs, i) && NewBox(w, bs, i + 1) == NewBox(w, bs, i) + if InUse(w, bs, i) then w[bs[i]] else 0
  {
  }

  lemma SoughtNow(w0: seq<nat>, bs: seq<nat>, w: seq<nat>, i: nat)
    requires Laid(w0, bs) && |w| == |w0| && i + 1 < |bs| && BoxAt(w0, bs, i)
    requires forall k | bs[i] <= k < bs[i + 1] - 1 :: w[k] == w0[k]
    requires w[bs[i + 1] - 1] == if InUse(w0, bs, i) then NewBox(w0, bs, i) + 2 else w0[bs[i + 1] - 1]
    ensures SoughtBox(w0, bs, w, i)
  {
  }

  lemma SoughtKept(w0: seq<nat>, bs: seq<nat>, w: seq<nat>, w': seq<nat>, j: nat)
    requires Laid(w0, bs) && |w| == |w'| == |w0| && j + 1 < |bs| && SoughtBox(w0, bs, w, j)
    requires forall k | bs[j] <= k < bs[j + 1] && k < |w| :: w'[k] == w[k]
    ensures SoughtBox(w0, bs, w', j)
  {
    hide NewBox;
  }

  /** Sweep the heap, noting new addresses. */
  method Seek(loom: array<nat>, rut: nat, hat: nat, ghost bs: seq<nat>)
    requires Laid(loom[..], bs) && rut == bs[0] && hat == bs[|bs| - 1]
    modifies loom
    ensures Sought(old(loom[..]), bs, loom[..])
  {
    hide NewBox, Laid, SoughtBox;
    ghost var w0 := loom[..];
    LaidEnds(w0, bs);
    NewBoxFirst(w0, bs);
    var box, new_ := rut, rut + 2;
    ghost var i := 0;
    while box < hat
      invariant 0 <= i < |bs| && box == bs[i] && new_ == NewBox(w0, bs, i) + 2
      invariant forall k | 0 <= k < |w0| && (k < rut || k >= box) :: loom[k] == w0[k]
      invariant forall j | 0 <= j < i :: SoughtBox(w0, bs, loom[..], j)
      decreases hat - box
    {
      Ascending(w0, bs, i, |bs| - 1);
      LaidBox(w0, bs, i);
      NewBoxNext(w0, bs, i);
      var siz := loom[box];
      ghost var w := loom[..];
      if loom[box + 1] != 0 {
        loom[box + siz - 1] := new_;
        new_ := new_ + siz;
      }
      box := box + siz;
      SoughtNow(w0, bs, loom[..], i);
      forall j | 0 <= j < i ensures SoughtBox(w0, bs, loom[..], j) {
        LaidBox(w0, bs, j);
        Ascending(w0, bs, j + 1, i);
        SoughtKept(w0, bs, w, loom[..], j);
      }
      i := i + 1;
    }
    if i < |bs| - 1 { Ascending(w0, bs, i, |bs| - 1); }
  }

  // ---- rewriting pointers ----

  function TagOf(x: nat): nat { if x >= POM then POM else MARK }

  /** What a word becomes: a pointer to the new place of its box. */
  ghost predicate IsNew(w0: seq<nat>, bs: seq<nat>, x: nat, y: nat)
    requires Laid(w0, bs)
  {
    if x < MARK then y == x else exists i: nat :: PointsTo(w0, bs, x, i) && y == TagOf(x) + NewBox(w0, bs, i) + 2
  }

  /** Box `i` part way through: marked if its cell is done or being done, its fields rewritten if
      it is done, and its new address still in the trailing word. */
  ghost predicate RwBox(w0: seq<nat>, bs: seq<nat>, w: seq<nat>, done: set<nat>, open_: set<nat>, i: nat)
    requires Laid(w0, bs) && |w| == |w0| && i + 1 < |bs|
  {
    BoxAt(w0, bs, i) &&
    var b, e := bs[i], bs[i + 1];
    && (forall k | b <= k < e - 1 && k != b + 1 && k != b + 3 && k != b + 4 :: w[k] == w0[k])
    && w[b + 1] == w0[b + 1] + (if i in done || i in open_ then MARK else 0)
    && w[e - 1] == (if InUse(w0, bs, i) then NewBox(w0, bs, i) + 2 else w0[e - 1])
    && (if i in done then IsNew(w0, bs, w0[b + 3], w[b + 3]) && IsNew(w0, bs, w0[b + 4], w[b + 4])
        else w[b + 3] == w0[b + 3] && w[b + 4] == w0[b + 4])
  }

  /** A done cell's parts are done. */
  ghost predicate DoneAt(w0: seq<nat>, bs: seq<nat>, x: nat, done: set<nat>) {
    IsPom(x) ==> exists j: nat :: j in done && PointsTo(w0, bs, x, j)
  }

  ghost predicate ClosedAt(w0: seq<nat>, bs: seq<nat>, done: set<nat>, i: nat)
    requires Laid(w0, bs) && i + 1 < |bs|
  {
    BoxAt(w0, bs, i) && DoneAt(w0, bs, w0[bs[i] + 3], done) && DoneAt(w0, bs, w0[bs[i] + 4], done)
  }

  /** Every box is as its mark says, and what is done is closed. */
  ghost predicate Rewriting(w0: seq<nat>, bs: seq<nat>, w: seq<nat>, done: set<nat>, open_: set<nat>)
    requires Laid(w0, bs)
  {
    && |w| == |w0| && done !! open_
    && (forall k | 0 <= k < |w0| && (k < bs[0] || k >= bs[|bs| - 1]) :: w[k] == w0[k])
    && (forall i | 0 <= i < |bs| - 1 :: RwBox(w0, bs, w, done, open_, i))
    && (forall i | i in done :: i + 1 < |bs| && ClosedAt(w0, bs, done, i))
  }

  /** Use counts leave room for the mark. */
  predicate Unmarked(w0: seq<nat>, bs: seq<nat>)
    requires |bs| > 0
  {
    forall i | 0 <= i < |bs| - 1 :: bs[i] + 1 < |w0| && w0[bs[i] + 1] < MARK
  }

  function Size(n: Noun): nat {
    match n
    case Atom(_) => 1
    case Cell(h, t) => 1 + Size(h) + Size(t)
  }

  /** The cells being rewritten are larger than the noun at hand, so it is none of them. */
  ghost predicate Above(w0: seq<nat>, bs: seq<nat>, cs: set<nat>, open_: map<nat, Noun>, size: nat)
    requires Laid(w0, bs)
  {
    forall i | i in open_ :: i + 1 < |bs| && AboveAt(w0, bs, cs, i, open_[i], size)
  }

  ghost predicate AboveAt(w0: seq<nat>, bs: seq<nat>, cs: set<nat>, i: nat, n: Noun, size: nat)
    requires i + 1 < |bs|
  {
    Size(n) > size && NounAt(w0, bs, cs, POM + bs[i] + 2, n)
  }

  lemma NotOpen(w0: seq<nat>, bs: seq<nat>, cs: set<nat>, open_: map<nat, Noun>, x: nat, n: Noun, i: nat)
    requires Laid(w0, bs) && Above(w0, bs, cs, open_, Size(n)) && NounAt(w0, bs, cs, x, n) && CellBox(w0, bs, cs, x, i)
    ensures i !in open_
  {
    hide NounAt, Laid, InUse;
    assert x == POM + bs[i] + 2;
    if i in open_ {
      assert AboveAt(w0, bs, cs, i, open_[i], Size(n));
      NounUnique(w0, bs, cs, x, n, open_[i]);
    }
  }

  lemma RwAt(w0: seq<nat>, bs: seq<nat>, w: seq<nat>, done: set<nat>, open_: set<nat>, i: nat)
    requires Laid(w0, bs) && Rewriting(w0, bs, w, done, open_) && i + 1 < |bs|
    ensures |w| == |w0| && RwBox(w0, bs, w, done, open_, i)
  {
  }

  /** Words of box `i` change, and its state: the other boxes are as they were. */
  lemma RwSet(w0: seq<nat>, bs: seq<nat>, w: seq<nat>, done: set<nat>, open_: set<nat>, w': seq<nat>,
          done': set<nat>, open_': set<nat>, i: nat)
    requires Laid(w0, bs) && Rewriting(w0, bs, w, done, open_) && i + 1 < |bs| && |w'| == |w|
    requires forall k | 0 <= k < |w| && (k < bs[i] || k >= bs[i + 1]) :: w'[k] == w[k]
    requires done <= done' <= done + {i} && done' !! open_' && open_ - {i} == open_' - {i}
    requires RwBox(w0, bs, w', done', open_', i) && (i in done' ==> ClosedAt(w0, bs, done', i))
    ensures Rewriting(w0, bs, w', done', open_')
  {
    hide NewBox, Laid, IsNew;
    LaidBox(w0, bs, i);
    Ascending(w0, bs, 0, i);
    Ascending(w0, bs, i + 1, |bs| - 1);
    forall j | 0 <= j < |bs| - 1 ensures RwBox(w0, bs, w', done', open_', j) {
      if j != i {
        assert RwBox(w0, bs, w, done, open_, j);
        LaidBox(w0, bs, j);
        if j < i { Ascending(w0, bs, j + 1, i); } else { Ascending(w0, bs, i + 1, j); }
        assert j in open_ - {i} <==> j in open_' - {i};
      }
    }
    forall j | j in done' ensures j + 1 < |bs| && ClosedAt(w0, bs, done', j) {
      if j != i { assert ClosedAt(w0, bs, done, j); }
    }
  }

  /** The new pointer for a pointer, from the trailing word of its box (`u3a_rewritten_noun`). */
  method Rewritten(loom: array<nat>, som: nat, ghost w0: seq<nat>, ghost bs: seq<nat>, ghost cs: set<nat>,
          ghost done: set<nat>, ghost open_: set<nat>, ghost n: Noun)
    returns (new_: nat)
    requires Laid(w0, bs) && Rewriting(w0, bs, loom[..], done, open_) && NounAt(w0, bs, cs, som, n)
    ensures IsNew(w0, bs, som, new_)
  {
    hide NewBox, Laid, NounAt;
    AtomKind(w0, bs, cs, som, n);
    if som < MARK { return som; }
    ghost var i := BoxOf(w0, bs, cs, som, n);
    LaidBox(w0, bs, i);
    RwAt(w0, bs, loom[..], done, open_, i);
    var box := Post(som) - 2;
    assert loom[..][bs[i + 1] - 1] == loom[bs[i + 1] - 1];
    assert loom[..][bs[i]] == loom[bs[i]];
    new_ := TagOf(som) + loom[box + loom[box] - 1];
  }

  lemma BoxOf(w: seq<nat>, bs: seq<nat>, cs: set<nat>, x: nat, n: Noun) returns (i: nat)
    requires NounAt(w, bs, cs, x, n) && x >= MARK
    ensures PointsTo(w, bs, x, i)
  {
    if n.Cell? { i := CellParts(w, bs, cs, x, n); } else { i := AtomParts(w, bs, cs, x, n); }
  }

  predicate CellsOnly(bs: seq<nat>, cs: set<nat>, done: set<nat>) { forall j | j in done :: j < |bs| && bs[j] in cs }

  /** Rewrite the pointers in every cell reachable from a noun, once each (`u3a_rewrite_noun`). */
  method RewriteNoun(loom: array<nat>, som: nat, ghost w0: seq<nat>, ghost bs: seq<nat>, ghost cs: set<nat>,
          ghost done: set<nat>, ghost open_: map<nat, Noun>, ghost n: Noun)
    returns (ghost done': set<nat>)
    requires Laid(w0, bs) && Unmarked(w0, bs) && Rewriting(w0, bs, loom[..], done, open_.Keys)
    requires NounAt(w0, bs, cs, som, n) && Above(w0, bs, cs, open_, Size(n))
    requires CellsOnly(bs, cs, done)
    modifies loom
    ensures Rewriting(w0, bs, loom[..], done', open_.Keys) && done <= done' && DoneAt(w0, bs, som, done') && CellsOnly(bs, cs, done')
    decreases n
  {
    hide NewBox, Laid, NounAt, Rewriting, RwBox, Above, IsNew;
    done' := done;
    AtomKind(w0, bs, cs, som, n);
    if !IsPom(som) { return; }
    ghost var i := CellParts(w0, bs, cs, som, n);
    NotOpen(w0, bs, cs, open_, som, n, i);
    CellWords(w0, bs, loom[..], done, open_.Keys, i);
    var p := Post(som);
    assert loom[..][p - 1] == loom[p - 1];
    if loom[p - 1] >= MARK { return; }
    ghost var open1 := open_[i := n];
    ghost var w := loom[..];
    loom[p - 1] := loom[p - 1] + MARK;
    MarkCell(w0, bs, w, done, open_.Keys, loom[..], open1.Keys, i);
    AboveParts(w0, bs, cs, open_, som, n, i);
    CellWords(w0, bs, loom[..], done, open1.Keys, i);
    assert loom[..][p + 1] == loom[p + 1];
    done' := RewriteNoun(loom, loom[p + 1], w0, bs, cs, done, open1, n.head);
    ghost var done1 := done';
    CellWords(w0, bs, loom[..], done1, open1.Keys, i);
    assert loom[..][p + 2] == loom[p + 2];
    done' := RewriteNoun(loom, loom[p + 2], w0, bs, cs, done1, open1, n.tail);
    ghost var done2, w2 := done', loom[..];
    CellWords(w0, bs, w2, done2, open1.Keys, i);
    assert w2[p + 1] == loom[p + 1] && w2[p + 2] == loom[p + 2];
    var hed := Rewritten(loom, loom[p + 1], w0, bs, cs, done2, open1.Keys, n.head);
    var tel := Rewritten(loom, loom[p + 2], w0, bs, cs, done2, open1.Keys, n.tail);
    loom[p + 1] := hed;
    loom[p + 2] := tel;
    done' := done2 + {i};
    DoneMore(w0, bs, w0[bs[i] + 3], done1, done');
    DoneMore(w0, bs, w0[bs[i] + 4], done2, done');
    FinishCell(w0, bs, w2, done2, open1.Keys, loom[..], open_.Keys, i, hed, tel);
  }

  lemma DoneMore(w0: seq<nat>, bs: seq<nat>, x: nat, done: set<nat>, done': set<nat>)
    requires DoneAt(w0, bs, x, done) && done <= done'
    ensures DoneAt(w0, bs, x, done')
  {
  }

  /** What the words of a cell that is not done say. */
  lemma CellWords(w0: seq<nat>, bs: seq<nat>, w: seq<nat>, done: set<nat>, open_: set<nat>, i: nat)
    requires Laid(w0, bs) && Unmarked(w0, bs) && Rewriting(w0, bs, w, done, open_) && i + 1 < |bs|
    ensures BoxAt(w0, bs, i) && |w| == |w0| && (w[bs[i] + 1] >= MARK <==> i in done || i in open_)
    ensures i !in done ==> w[bs[i] + 3] == w0[bs[i] + 3] && w[bs[i] + 4] == w0[bs[i] + 4]
    ensures i in open_ ==> i !in done
  {
    hide NewBox, IsNew;
    assert RwBox(w0, bs, w, done, open_, i);
  }

  lemma MarkCell(w0: seq<nat>, bs: seq<nat>, w: seq<nat>, done: set<nat>, open_: set<nat>, w': seq<nat>,
          open_': set<nat>, i: nat)
    requires Laid(w0, bs) && Rewriting(w0, bs, w, done, open_) && i + 1 < |bs| && i !in done && i !in open_ && open_' == open_ + {i}
    requires bs[i] + 1 < |w| && w' == w[bs[i] + 1 := w[bs[i] + 1] + MARK]
    ensures Rewriting(w0, bs, w', done, open_')
  {
    hide NewBox, Laid, IsNew;
    LaidBox(w0, bs, i);
    RwAt(w0, bs, w, done, open_, i);
    RwSet(w0, bs, w, done, open_, w', done, open_', i);
  }

  lemma FinishCell(w0: seq<nat>, bs: seq<nat>, w: seq<nat>, done: set<nat>, open_: set<nat>, w': seq<nat>,
          open_': set<nat>, i: nat, hed: nat, tel: nat)
    requires Laid(w0, bs) && Rewriting(w0, bs, w, done, open_) && i + 1 < |bs| && i in open_ && open_' == open_ - {i}
    requires bs[i] + 4 < |w| && w' == w[bs[i] + 3 := hed][bs[i] + 4 := tel]
    requires BoxAt(w0, bs, i) && IsNew(w0, bs, w0[bs[i] + 3], hed) && IsNew(w0, bs, w0[bs[i] + 4], tel)
    requires ClosedAt(w0, bs, done + {i}, i)
    ensures Rewriting(w0, bs, w', done + {i}, open_')
  {
    hide NewBox, Laid, IsNew;
    RwAt(w0, bs, w, done, open_, i);
    RwSet(w0, bs, w, done, open_, w', done + {i}, open_', i);
  }

  lemma AboveParts(w0: seq<nat>, bs: seq<nat>, cs: set<nat>, open_: map<nat, Noun>, x: nat, n: Noun, i: nat)
    requires Laid(w0, bs) && n.Cell? && Above(w0, bs, cs, open_, Size(n)) && NounAt(w0, bs, cs, x, n) && CellBox(w0, bs, cs, x, i)
    ensures Above(w0, bs, cs, open_[i := n], Size(n.head)) && Above(w0, bs, cs, open_[i := n], Size(n.tail))
  {
    hide NounAt, Laid, InUse;
    assert x == POM + bs[i] + 2;
    forall j | j in open_ ensures j + 1 < |bs| && AboveAt(w0, bs, cs, j, open_[j], Size(n.head)) && AboveAt(w0, bs, cs, j, open_[j], Size(n.tail)) {
      assert AboveAt(w0, bs, cs, j, open_[j], Size(n));
    }
  }

  // ---- the second sweep ----

  /** A box in use in its new place: its size at both ends, its use count without the mark, and its
      words as rewritten. */
  ghost predicate MovedBox(w0: seq<nat>, bs: seq<nat>, w2: seq<nat>, w3: seq<nat>, i: nat)
    requires Laid(w0, bs) && |w3| == |w2| == |w0| && i + 1 < |bs|
  {
    BoxAt(w0, bs, i) && (InUse(w0, bs, i) ==>
      var q, b, s := NewBox(w0, bs, i), bs[i], w0[bs[i]];
      && q + s <= |w3| && b + s <= |w2| && s >= MINIMUM && (forall k | q <= k < q + s - 1 && k != q + 1 :: w3[k] == w2[k - q + b])
      && w3[q + 1] == w0[b + 1] && w3[q + s - 1] == s)
  }

  /** Copy words down, lowest first, so that an overlap does no harm. */
  method CopyDown(loom: array<nat>, to: nat, from: nat, n: nat)
    requires to < from && from + n <= loom.Length
    modifies loom
    ensures forall k | to <= k < to + n :: loom[k] == old(loom[k - to + from])
    ensures forall k | 0 <= k < loom.Length && (k < to || k >= to + n) :: loom[k] == old(loom[k])
  {
    for i := 0 to n
      invariant forall k | to <= k < to + i :: loom[k] == old(loom[k - to + from])
      invariant forall k | 0 <= k < loom.Length && (k < to || k >= to + i) :: loom[k] == old(loom[k])
    {
      loom[to + i] := loom[from + i];
    }
  }

  /** The words of box `i` after rewriting are as the second sweep expects. */
  lemma RewrittenBox(w0: seq<nat>, bs: seq<nat>, w2: seq<nat>, done: set<nat>, i: nat)
    requires Laid(w0, bs) && Unmarked(w0, bs) && Rewriting(w0, bs, w2, done, {}) && i + 1 < |bs|
    ensures BoxAt(w0, bs, i) && |w2| == |w0| && w2[bs[i]] == w0[bs[i]] && w2[bs[i] + 1] % MARK == w0[bs[i] + 1]
    ensures InUse(w0, bs, i) ==> w2[bs[i + 1] - 1] == NewBox(w0, bs, i) + 2
  {
    hide NewBox, IsNew, Laid;
    RwAt(w0, bs, w2, done, {}, i);
  }

  lemma MovedKept(w0: seq<nat>, bs: seq<nat>, w2: seq<nat>, w: seq<nat>, w': seq<nat>, j: nat, i: nat)
    requires Laid(w0, bs) && |w'| == |w| == |w2| == |w0| && j < i < |bs| && MovedBox(w0, bs, w2, w, j)
    requires forall k | 0 <= k < |w| && k < NewBox(w0, bs, i) :: w'[k] == w[k]
    ensures MovedBox(w0, bs, w2, w', j)
  {
    LaidBox(w0, bs, j);
    NewBoxOrder(w0, bs, j, i);
    hide NewBox, Laid;
  }

  lemma MovedNow(w0: seq<nat>, bs: seq<nat>, w2: seq<nat>, w: seq<nat>, i: nat)
    requires Laid(w0, bs) && |w| == |w2| == |w0| && i + 1 < |bs| && BoxAt(w0, bs, i)
    requires
      InUse(w0, bs, i) ==>
        var q, b, s := NewBox(w0, bs, i), bs[i], w0[bs[i]];
        && q + s <= |w| && b + s <= |w2| && s >= MINIMUM && (forall k | q <= k < q + s - 1 && k != q + 1 :: w[k] == w2[k - q + b])
        && w[q + 1] == w0[b + 1] && w[q + s - 1] == s
    ensures MovedBox(w0, bs, w2, w, i)
  {
    hide NewBox, Laid;
  }

  /** Slide one box down to `at`: its words but the last, then its size. */
  method MoveBox(loom: array<nat>, box: nat, siz: nat, at: nat, ghost w2: seq<nat>)
    requires at <= box && siz >= MINIMUM && box + siz <= loom.Length == |w2|
    requires forall k | box <= k < |w2| && k != box + 1 :: loom[k] == w2[k]
    modifies loom
    ensures forall k | at <= k < at + siz - 1 && k != at + 1 :: loom[k] == w2[k - at + box]
    ensures loom[at + 1] == old(loom[box + 1]) && loom[at + siz - 1] == siz
    ensures forall k | 0 <= k < loom.Length && (k < at || k >= box + siz) :: loom[k] == old(loom[k])
  {
    if at < box {
      CopyDown(loom, at, box, siz - 1);
      assert loom[at + 1] == old(loom[at + 1 - at + box]);
    }
    loom[at + siz - 1] := siz;
  }

  /** Move one box, if it is in use, to the address noted for it. */
  method MoveNext(loom: array<nat>, box: nat, new_: nat, ghost w0: seq<nat>, ghost bs: seq<nat>,
          ghost done: set<nat>, ghost w2: seq<nat>, ghost i: nat)
    returns (siz: nat, new': nat)
    requires Laid(w0, bs) && Unmarked(w0, bs) && Rewriting(w0, bs, w2, done, {}) && i + 1 < |bs|
    requires box == bs[i] && new_ == NewBox(w0, bs, i) + 2 && |w2| == loom.Length
    requires forall k | box <= k < |w2| :: loom[k] == w2[k]
    modifies loom
    ensures BoxAt(w0, bs, i) && siz == w0[bs[i]] && new' == NewBox(w0, bs, i + 1) + 2
    ensures |loom[..]| == |w0| && MovedBox(w0, bs, w2, loom[..], i)
    ensures forall k | 0 <= k < |w2| && (k < NewBox(w0, bs, i) || k >= bs[i + 1]) :: loom[k] == old(loom[k])
  {
    hide NewBox, Laid, Unmarked, Rewriting, RwBox, MovedBox, IsNew;
    LaidBox(w0, bs, i);
    NewBoxNext(w0, bs, i);
    NewBoxDown(w0, bs, i);
    RewrittenBox(w0, bs, w2, done, i);
    siz := loom[box];
    loom[box + 1] := loom[box + 1] % MARK;
    new' := new_;
    if loom[box + 1] != 0 {
      assert loom[box + siz - 1] == new_;
      PlaceBox(loom, box, siz, new_ - 2, w0, bs, w2, i);
      new' := new_ + siz;
    } else {
      MovedNow(w0, bs, w2, loom[..], i);
    }
  }

  /** Move a box in use to its new address. */
  method PlaceBox(loom: array<nat>, box: nat, siz: nat, at: nat, ghost w0: seq<nat>, ghost bs: seq<nat>, ghost w2: seq<nat>, ghost i: nat)
    requires Laid(w0, bs) && i + 1 < |bs| && BoxAt(w0, bs, i) && |w0| == |w2| == loom.Length
    requires box == bs[i] && siz == w0[bs[i]] && at == NewBox(w0, bs, i) <= box && loom[box + 1] == w0[box + 1]
    requires forall k | box <= k < |w2| && k != box + 1 :: loom[k] == w2[k]
    modifies loom
    ensures MovedBox(w0, bs, w2, loom[..], i)
    ensures forall k | 0 <= k < loom.Length && (k < at || k >= box + siz) :: loom[k] == old(loom[k])
  {
    hide NewBox, Laid, MovedBox;
    MoveBox(loom, box, siz, at, w2);
    MovedNow(w0, bs, w2, loom[..], i);
  }

  /** Sweep the heap, moving boxes to the addresses noted; produces the new end (`_ca_pack_move_north`). */
  method MoveNorth(loom: array<nat>, rut: nat, hat: nat, ghost w0: seq<nat>, ghost bs: seq<nat>,
          ghost done: set<nat>) returns (hat': nat)
    requires Laid(w0, bs) && Unmarked(w0, bs) && Rewriting(w0, bs, loom[..], done, {})
    requires rut == bs[0] && hat == bs[|bs| - 1]
    modifies loom
    ensures |loom[..]| == |w0| && hat' == NewBox(w0, bs, |bs| - 1)
    ensures forall i | 0 <= i < |bs| - 1 :: MovedBox(w0, bs, old(loom[..]), loom[..], i)
    ensures forall k | 0 <= k < |w0| && (k < rut || k >= hat) :: loom[k] == w0[k]
  {
    hide NewBox, Laid, Unmarked, Rewriting, RwBox, MovedBox, IsNew, BoxAt;
    ghost var w2 := loom[..];
    LaidEnds(w0, bs);
    NewBoxFirst(w0, bs);
    RwOutside(w0, bs, w2, done);
    var box, new_ := rut, rut + 2;
    ghost var i := 0;
    while box < hat
      invariant 0 <= i < |bs| && box == bs[i] && new_ == NewBox(w0, bs, i) + 2 && |w2| == loom.Length
      invariant forall k | 0 <= k < |w2| && (k < rut || k >= box) :: loom[k] == w2[k]
      invariant forall j | 0 <= j < i :: MovedBox(w0, bs, w2, loom[..], j)
      decreases |bs| - i
    {
      Ascending(w0, bs, i, |bs| - 1);
      NewBoxBase(w0, bs, i);
      ghost var w := loom[..];
      var siz, next := MoveNext(loom, box, new_, w0, bs, done, w2, i);
      BoxEnd(w0, bs, i);
      Ascending(w0, bs, i, i + 1);
      forall j | 0 <= j < i ensures MovedBox(w0, bs, w2, loom[..], j) { MovedKept(w0, bs, w2, w, loom[..], j, i); }
      box, new_ := box + siz, next;
      i := i + 1;
    }
    if i < |bs| - 1 { Ascending(w0, bs, i, |bs| - 1); }
    hat' := new_ - 2;
  }

  lemma BoxEnd(w: seq<nat>, bs: seq<nat>, i: nat)
    requires i + 1 < |bs| && BoxAt(w, bs, i)
    ensures bs[i + 1] == bs[i] + w[bs[i]]
  {
  }

  lemma RwOutside(w0: seq<nat>, bs: seq<nat>, w: seq<nat>, done: set<nat>)
    requires Laid(w0, bs) && Rewriting(w0, bs, w, done, {})
    ensures |w| == |w0| && forall k | 0 <= k < |w0| && (k < bs[0] || k >= bs[|bs| - 1]) :: w[k] == w0[k]
  {
    hide RwBox, ClosedAt, Laid;
  }

  // ---- the heap afterwards ----

  /** Where the boxes in use among the first `i` end up. */
  ghost function NewStarts(w0: seq<nat>, bs: seq<nat>, i: nat): seq<nat>
    requires Laid(w0, bs) && i < |bs|
  {
    if i == 0 then []
    else
      assert BoxAt(w0, bs, i - 1);
      NewStarts(w0, bs, i - 1) + if InUse(w0, bs, i - 1) then [NewBox(w0, bs, i - 1)] else []
  }

  lemma {:induction false} StartAt(w0: seq<nat>, bs: seq<nat>, i: nat, n: nat)
    requires Laid(w0, bs) && i < n < |bs| && BoxAt(w0, bs, i) && InUse(w0, bs, i)
    ensures
      var r := |NewStarts(w0, bs, i)|;
      r < |NewStarts(w0, bs, n)| && NewStarts(w0, bs, n)[r] == NewBox(w0, bs, i)
    decreases n
  {
    hide NewBox, Laid;
    if i < n - 1 { StartAt(w0, bs, i, n - 1); }
  }

  /** Every new box is an old one in use, and the next begins where it ends. */
  lemma {:induction false} StartOf(w0: seq<nat>, bs: seq<nat>, n: nat, r: nat) returns (i: nat)
    requires Laid(w0, bs) && n < |bs| && r < |NewStarts(w0, bs, n)|
    ensures i < n && BoxAt(w0, bs, i) && InUse(w0, bs, i) && |NewStarts(w0, bs, i)| == r
    ensures NewStarts(w0, bs, n)[r] == NewBox(w0, bs, i)
    ensures (NewStarts(w0, bs, n) + [NewBox(w0, bs, n)])[r + 1] == NewBox(w0, bs, i) + w0[bs[i]]
    decreases n
  {
    hide NewBox, Laid;
    LaidBox(w0, bs, n - 1);
    NewBoxNext(w0, bs, n - 1);
    if InUse(w0, bs, n - 1) && r == |NewStarts(w0, bs, n)| - 1 {
      i := n - 1;
    } else {
      i := StartOf(w0, bs, n - 1, r);
    }
  }

  /** The new layout. */
  ghost function Packed(w0: seq<nat>, bs: seq<nat>): (b3: seq<nat>)
    requires Laid(w0, bs)
    ensures |b3| > 0 && b3[|b3| - 1] == NewBox(w0, bs, |bs| - 1)
  {
    NewStarts(w0, bs, |bs| - 1) + [NewBox(w0, bs, |bs| - 1)]
  }

  ghost function PackedCells(w0: seq<nat>, bs: seq<nat>, cs: set<nat>): set<nat>
    requires Laid(w0, bs)
  {
    set i | 0 <= i < |bs| - 1 && BoxAt(w0, bs, i) && InUse(w0, bs, i) && bs[i] in cs :: NewBox(w0, bs, i)
  }

  /** A box of the new heap: in use, with its size at both ends. */
  ghost predicate PackedBox(w3: seq<nat>, b3: seq<nat>, r: nat)
    requires r + 1 < |b3|
  {
    BoxAt(w3, b3, r) && InUse(w3, b3, r) && w3[b3[r + 1] - 1] == w3[b3[r]]
  }

  /** Everything the passes leave behind, for the lemmas about the outcome. */
  ghost predicate AllMoved(w0: seq<nat>, bs: seq<nat>, w2: seq<nat>, done: set<nat>, w3: seq<nat>) {
    && Laid(w0, bs) && Unmarked(w0, bs) && Rewriting(w0, bs, w2, done, {}) && |w3| == |w2|
    && forall i | 0 <= i < |bs| - 1 :: MovedBox(w0, bs, w2, w3, i)
  }

  /** A word of a box in use, in its new place. */
  lemma MovedWord(w0: seq<nat>, bs: seq<nat>, w2: seq<nat>, done: set<nat>, w3: seq<nat>, i: nat)
    requires AllMoved(w0, bs, w2, done, w3) && i + 1 < |bs| && BoxAt(w0, bs, i) && InUse(w0, bs, i)
    ensures
      var q, b, s := NewBox(w0, bs, i), bs[i], w0[bs[i]];
      && q + s <= |w3| && w3[q] == s == w3[q + s - 1] && w3[q + 1] == w0[b + 1] && w3[q + 3] == w2[b + 3] && w3[q + 4] == w2[b + 4]
      && forall k | q <= k < q + s - 1 && (i in done ==> k != q + 3 && k != q + 4) :: w3[k] == w0[k - q + b]
  {
    hide NewBox, Laid, IsNew;
    RwAt(w0, bs, w2, done, {}, i);
    assert MovedBox(w0, bs, w2, w3, i);
    var q, b, s := NewBox(w0, bs, i), bs[i], w0[bs[i]];
    assert w3[q] == w2[q - q + b];
    assert w3[q + 3] == w2[q + 3 - q + b] && w3[q + 4] == w2[q + 4 - q + b];
    forall k | q <= k < q + s - 1 && (i in done ==> k != q + 3 && k != q + 4) ensures w3[k] == w0[k - q + b] {
      var m := k - q + b;
      if m == b + 1 {} else if m == b + 3 {} else if m == b + 4 {} else { assert w2[m] == w0[m]; }
    }
  }

  /** The new heap is laid out without a gap, every box in use. */
  lemma PackedLaid(w0: seq<nat>, bs: seq<nat>, w2: seq<nat>, done: set<nat>, w3: seq<nat>)
    requires AllMoved(w0, bs, w2, done, w3)
    ensures
      var b3 := Packed(w0, bs);
      Laid(w3, b3) && b3[0] == bs[0] && forall r | 0 <= r < |b3| - 1 :: PackedBox(w3, b3, r)
  {
    hide NewBox, Laid, NewStarts, Unmarked, Rewriting, MovedBox;
    var b3 := Packed(w0, bs);
    AllSizes(w0, bs, w2, done, w3);
    LaidEnds(w0, bs);
    NewBoxDown(w0, bs, |bs| - 1);
    forall r | 0 <= r < |b3| - 1 ensures PackedBox(w3, b3, r) {
      var i := StartOf(w0, bs, |bs| - 1, r);
      MovedWord(w0, bs, w2, done, w3, i);
    }
    LaidFrom(w3, b3);
    FirstStart(w0, bs, |bs| - 1);
  }

  lemma LaidFrom(w: seq<nat>, bs: seq<nat>)
    requires |bs| > 0 && bs[|bs| - 1] <= |w| < OFFSETS && forall r | 0 <= r < |bs| - 1 :: PackedBox(w, bs, r)
    ensures Laid(w, bs)
  {
    forall r | 0 <= r < |bs| - 1 ensures BoxAt(w, bs, r) { assert PackedBox(w, bs, r); }
  }

  lemma AllSizes(w0: seq<nat>, bs: seq<nat>, w2: seq<nat>, done: set<nat>, w3: seq<nat>)
    requires AllMoved(w0, bs, w2, done, w3)
    ensures |w3| == |w0|
  {
  }

  lemma {:induction false} FirstStart(w0: seq<nat>, bs: seq<nat>, n: nat)
    requires Laid(w0, bs) && n < |bs|
    ensures (NewStarts(w0, bs, n) + [NewBox(w0, bs, n)])[0] == bs[0]
  {
    hide Laid;
    if n > 0 {
      FirstStart(w0, bs, n - 1);
      NewBoxNext(w0, bs, n - 1);
    }
  }

  /** New places are distinct: what was shared is shared, and nothing else is. */
  lemma NewInjective(w0: seq<nat>, bs: seq<nat>, x: nat, x': nat, y: nat, y': nat)
    requires Laid(w0, bs) && IsNew(w0, bs, x, y) && IsNew(w0, bs, x', y')
    ensures y == y' <==> x == x'
  {
    hide NewBox;
    if x >= MARK && x' >= MARK {
      var i: nat :| PointsTo(w0, bs, x, i) && y == TagOf(x) + NewBox(w0, bs, i) + 2;
      var i': nat :| PointsTo(w0, bs, x', i') && y' == TagOf(x') + NewBox(w0, bs, i') + 2;
      NewApart(w0, bs, i, i');
      NewBoxDown(w0, bs, i);
      NewBoxDown(w0, bs, i');
      LaidEnds(w0, bs);
      Ascending(w0, bs, i, |bs| - 1);
      Ascending(w0, bs, i', |bs| - 1);
      if x == x' { SameBox(w0, bs, x, i, i'); }
    }
  }

  lemma NewApart(w0: seq<nat>, bs: seq<nat>, i: nat, j: nat)
    requires Laid(w0, bs) && i + 1 < |bs| && j + 1 < |bs| && BoxAt(w0, bs, i) && BoxAt(w0, bs, j) && InUse(w0, bs, i) && InUse(w0, bs, j)
    ensures NewBox(w0, bs, i) == NewBox(w0, bs, j) ==> i == j
  {
    hide NewBox;
    if i < j { NewBoxOrder(w0, bs, i, j); } else if j < i { NewBoxOrder(w0, bs, j, i); }
  }

  /** Where a pointer to box `i` leads afterwards. */
  lemma NewPoints(w0: seq<nat>, bs: seq<nat>, w2: seq<nat>, done: set<nat>, w3: seq<nat>, x: nat, y: nat,
          i: nat) returns (r: nat)
    requires AllMoved(w0, bs, w2, done, w3) && x >= MARK && IsNew(w0, bs, x, y) && PointsTo(w0, bs, x, i)
    ensures PointsTo(w3, Packed(w0, bs), y, r) && Packed(w0, bs)[r] == NewBox(w0, bs, i) && (IsPom(y) <==> IsPom(x)) && (IsPug(y) <==> IsPug(x))
    ensures BoxAt(w0, bs, i) && Packed(w0, bs)[r + 1] == NewBox(w0, bs, i) + w0[bs[i]] <= |w3|
  {
    hide NewBox, Laid, NewStarts, Unmarked, Rewriting, MovedBox;
    var j: nat :| PointsTo(w0, bs, x, j) && y == TagOf(x) + NewBox(w0, bs, j) + 2;
    SameBox(w0, bs, x, i, j);
    LaidBox(w0, bs, i);
    MovedWord(w0, bs, w2, done, w3, i);
    StartAt(w0, bs, i, |bs| - 1);
    r := |NewStarts(w0, bs, i)|;
    var i' := StartOf(w0, bs, |bs| - 1, r);
    NewApart(w0, bs, i, i');
    NewBoxDown(w0, bs, i);
    LaidEnds(w0, bs);
    Ascending(w0, bs, i, |bs| - 1);
  }

  /** A noun whose cells are done denotes the same in the new heap. */
  lemma {:induction false} NounMoved(w0: seq<nat>, bs: seq<nat>, cs: set<nat>, w2: seq<nat>, done: set<nat>,
          w3: seq<nat>, x: nat, y: nat, n: Noun)
    requires AllMoved(w0, bs, w2, done, w3) && CellsOnly(bs, cs, done)
    requires NounAt(w0, bs, cs, x, n) && IsNew(w0, bs, x, y) && DoneAt(w0, bs, x, done)
    ensures NounAt(w3, Packed(w0, bs), PackedCells(w0, bs, cs), y, n)
    decreases n
  {
    hide NewBox, Laid, NewStarts, Unmarked, Rewriting, MovedBox, NounAt, Packed, PackedCells, AllMoved;
    MovedFacts(w0, bs, w2, done, w3);
    AtomKind(w0, bs, cs, x, n);
    var b3, c3 := Packed(w0, bs), PackedCells(w0, bs, cs);
    if x < MARK {
      DirectAt(w3, b3, c3, x);
    } else if n.Cell? {
      var i := CellParts(w0, bs, cs, x, n);
      var r := NewPoints(w0, bs, w2, done, w3, x, y, i);
      MovedWord(w0, bs, w2, done, w3, i);
      CellStart(w0, bs, cs, i);
      DoneFields(w0, bs, w2, done, w3, x, i);
      NounMoved(w0, bs, cs, w2, done, w3, w0[bs[i] + 3], w2[bs[i] + 3], n.head);
      NounMoved(w0, bs, cs, w2, done, w3, w0[bs[i] + 4], w2[bs[i] + 4], n.tail);
      CellAgain(w3, b3, c3, y, r, n);
    } else {
      var i := AtomParts(w0, bs, cs, x, n);
      var r := NewPoints(w0, bs, w2, done, w3, x, y, i);
      MovedWord(w0, bs, w2, done, w3, i);
      CellStart(w0, bs, cs, i);
      AtomAgain(w0, bs, i, w3, b3, r, n.value);
      AtomBack(w3, b3, c3, y, r, n.value);
    }
  }

  lemma MovedFacts(w0: seq<nat>, bs: seq<nat>, w2: seq<nat>, done: set<nat>, w3: seq<nat>)
    requires AllMoved(w0, bs, w2, done, w3)
    ensures Laid(w0, bs) && Unmarked(w0, bs) && Rewriting(w0, bs, w2, done, {}) && |w3| == |w2| == |w0|
  {
  }

  lemma DirectAt(w: seq<nat>, bs: seq<nat>, cs: set<nat>, x: nat)
    requires x < MARK
    ensures NounAt(w, bs, cs, x, Atom(x))
  {
  }

  lemma CellAgain(w: seq<nat>, bs: seq<nat>, cs: set<nat>, y: nat, r: nat, n: Noun)
    requires n.Cell? && CellBox(w, bs, cs, y, r) && NounAt(w, bs, cs, w[bs[r] + 3], n.head) && NounAt(w, bs, cs, w[bs[r] + 4], n.tail)
    ensures NounAt(w, bs, cs, y, n)
  {
  }

  lemma AtomBack(w: seq<nat>, bs: seq<nat>, cs: set<nat>, y: nat, r: nat, v: nat)
    requires AtomBox(w, bs, cs, y, r) && AtomIn(w, bs, r, v)
    ensures NounAt(w, bs, cs, y, Atom(v))
  {
  }

  /** The words of an atom are moved as they are. */
  lemma AtomAgain(w0: seq<nat>, bs: seq<nat>, i: nat, w3: seq<nat>, b3: seq<nat>, r: nat, v: nat)
    requires i + 1 < |bs| && r + 1 < |b3| && AtomIn(w0, bs, i, v) && BoxAt(w0, bs, i)
    requires b3[r + 1] == b3[r] + w0[bs[i]] <= |w3|
    requires forall k | b3[r] <= k < b3[r] + w0[bs[i]] - 1 :: w3[k] == w0[k - b3[r] + bs[i]]
    ensures AtomIn(w3, b3, r, v)
  {
    var q, b, len := b3[r], bs[i], w0[bs[i] + 3];
    assert w3[q + 3] == w0[q + 3 - q + b];
    assert w3[q + 4..q + 4 + len] == w0[b + 4..b + 4 + len];
  }

  /** Boxes that held cells hold cells. */
  lemma CellStart(w0: seq<nat>, bs: seq<nat>, cs: set<nat>, i: nat)
    requires Laid(w0, bs) && i + 1 < |bs| && BoxAt(w0, bs, i) && InUse(w0, bs, i)
    ensures NewBox(w0, bs, i) in PackedCells(w0, bs, cs) <==> bs[i] in cs
  {
    hide NewBox, Laid;
    if NewBox(w0, bs, i) in PackedCells(w0, bs, cs) {
      var j :| 0 <= j < |bs| - 1 && BoxAt(w0, bs, j) && InUse(w0, bs, j) && bs[j] in cs && NewBox(w0, bs, j) == NewBox(w0, bs, i);
      NewApart(w0, bs, i, j);
    }
  }

  /** The fields of a done cell are rewritten, and their cells are done. */
  lemma DoneFields(w0: seq<nat>, bs: seq<nat>, w2: seq<nat>, done: set<nat>, w3: seq<nat>, x: nat, i: nat)
    requires AllMoved(w0, bs, w2, done, w3) && IsPom(x) && DoneAt(w0, bs, x, done) && PointsTo(w0, bs, x, i)
    ensures i in done && BoxAt(w0, bs, i) && IsNew(w0, bs, w0[bs[i] + 3], w2[bs[i] + 3]) && IsNew(w0, bs, w0[bs[i] + 4], w2[bs[i] + 4])
    ensures DoneAt(w0, bs, w0[bs[i] + 3], done) && DoneAt(w0, bs, w0[bs[i] + 4], done)
  {
    hide NewBox, IsNew, MovedBox;
    var j: nat :| j in done && PointsTo(w0, bs, x, j);
    SameBox(w0, bs, x, i, j);
    assert RwBox(w0, bs, w2, done, {}, i);
    assert ClosedAt(w0, bs, done, i);
  }

  // ---- the whole compaction ----

  /** Trace the roots, rewriting the pointers in what they reach and the roots themselves. */
  method RewriteRoots(loom: array<nat>, roots: seq<nat>, ghost w0: seq<nat>, ghost bs: seq<nat>,
          ghost cs: set<nat>, ghost ns: seq<Noun>)
    returns (roots': seq<nat>, ghost done: set<nat>)
    requires Laid(w0, bs) && Unmarked(w0, bs) && Rewriting(w0, bs, loom[..], {}, {})
    requires |ns| == |roots| && forall r | 0 <= r < |roots| :: NounAt(w0, bs, cs, roots[r], ns[r])
    modifies loom
    ensures Rewriting(w0, bs, loom[..], done, {}) && CellsOnly(bs, cs, done) && |roots'| == |roots|
    ensures forall r | 0 <= r < |roots| :: IsNew(w0, bs, roots[r], roots'[r]) && DoneAt(w0, bs, roots[r], done)
  {
    hide NewBox, Laid, NounAt, Rewriting, IsNew, DoneAt;
    roots', done := [], {};
    for r := 0 to |roots|
      invariant Rewriting(w0, bs, loom[..], done, {}) && CellsOnly(bs, cs, done) && |roots'| == r
      invariant forall k | 0 <= k < r :: IsNew(w0, bs, roots[k], roots'[k]) && DoneAt(w0, bs, roots[k], done)
    {
      ghost var none: map<nat, Noun> := map[];
      assert none.Keys == {};
      ghost var done1 := RewriteNoun(loom, roots[r], w0, bs, cs, done, none, ns[r]);
      forall k | 0 <= k < r ensures DoneAt(w0, bs, roots[k], done1) { DoneMore(w0, bs, roots[k], done, done1); }
      done := done1;
      var new_ := Rewritten(loom, roots[r], w0, bs, cs, done, {}, ns[r]);
      roots' := roots' + [new_];
    }
  }

  /** After the first sweep nothing has been rewritten. */
  lemma NothingRewritten(w0: seq<nat>, bs: seq<nat>, w1: seq<nat>)
    requires Laid(w0, bs) && Sought(w0, bs, w1)
    ensures Rewriting(w0, bs, w1, {}, {})
  {
    hide NewBox, Laid;
    forall i | 0 <= i < |bs| - 1 ensures RwBox(w0, bs, w1, {}, {}, i) { assert SoughtBox(w0, bs, w1, i); }
  }

  /** Box `i` holds part of the noun `n` that `x` is. */
  ghost predicate Reaches(w: seq<nat>, bs: seq<nat>, x: nat, n: Noun, i: nat)
    decreases n
  {
    || PointsTo(w, bs, x, i)
    || (n.Cell? && exists j: nat :: ReachesBy(w, bs, x, n, i, j))
  }

  /** Through a field of the cell in box `j`. */
  ghost predicate ReachesBy(w: seq<nat>, bs: seq<nat>, x: nat, n: Noun, i: nat, j: nat)
    requires n.Cell?
    decreases n, 0
  {
    IsPom(x) && PointsTo(w, bs, x, j) && bs[j] + 4 < |w| &&
    (Reaches(w, bs, w[bs[j] + 3], n.head, i) || Reaches(w, bs, w[bs[j] + 4], n.tail, i))
  }

  /** A cell's fields lead, in its new place, to the new places of what they led to. */
  ghost predicate FieldsMoved(w0: seq<nat>, bs: seq<nat>, cs: set<nat>, w3: seq<nat>, i: nat)
    requires Laid(w0, bs)
  {
    i + 1 < |bs| && BoxAt(w0, bs, i) && InUse(w0, bs, i) && NewBox(w0, bs, i) + 4 < |w3| &&
    (bs[i] in cs ==> IsNew(w0, bs, w0[bs[i] + 3], w3[NewBox(w0, bs, i) + 3]) && IsNew(w0, bs, w0[bs[i] + 4], w3[NewBox(w0, bs, i) + 4]))
  }

  /** Every box that a noun reaches has its fields moved. */
  lemma {:induction false} ReachedMoved(w0: seq<nat>, bs: seq<nat>, cs: set<nat>, w2: seq<nat>, done: set<nat>,
          w3: seq<nat>, x: nat, n: Noun, i: nat)
    requires AllMoved(w0, bs, w2, done, w3) && NounAt(w0, bs, cs, x, n) && DoneAt(w0, bs, x, done) && Reaches(w0, bs, x, n, i)
    ensures FieldsMoved(w0, bs, cs, w3, i)
    decreases n
  {
    hide NewBox, Laid, Rewriting, MovedBox, NounAt, AllMoved, IsNew, DoneAt;
    MovedFacts(w0, bs, w2, done, w3);
    AtomKind(w0, bs, cs, x, n);
    if n.Cell? {
      var j := CellParts(w0, bs, cs, x, n);
      DoneFields(w0, bs, w2, done, w3, x, j);
      if PointsTo(w0, bs, x, i) {
        SameBox(w0, bs, x, i, j);
        MovedWord(w0, bs, w2, done, w3, i);
      } else {
        var k: nat :| ReachesBy(w0, bs, x, n, i, k);
        SameBox(w0, bs, x, k, j);
        if Reaches(w0, bs, w0[bs[j] + 3], n.head, i) {
          ReachedMoved(w0, bs, cs, w2, done, w3, w0[bs[j] + 3], n.head, i);
        } else {
          ReachedMoved(w0, bs, cs, w2, done, w3, w0[bs[j] + 4], n.tail, i);
        }
      }
    } else {
      var j := AtomParts(w0, bs, cs, x, n);
      SameBox(w0, bs, x, i, j);
      LaidBox(w0, bs, i);
      MovedWord(w0, bs, w2, done, w3, i);
    }
  }

  /** `u3m_pack`, once reclaimed: every root denotes the noun it did, the fields of every cell it
      reaches lead to the new places of the boxes they led to, and all other words of the boxes in use
      are as they were; these tile the heap from its base to its new end. */
  method Pack(loom: array<nat>, rut: nat, hat: nat, roots: seq<nat>, ghost bs: seq<nat>, ghost cs: set<nat>,
          ghost ns: seq<Noun>)
    returns (roots': seq<nat>, hat': nat)
    requires Laid(loom[..], bs) && Unmarked(loom[..], bs) && rut == bs[0] && hat == bs[|bs| - 1]
    requires |ns| == |roots| && forall r | 0 <= r < |roots| :: NounAt(loom[..], bs, cs, roots[r], ns[r])
    modifies loom
    ensures
      var w0, w3, b3 := old(loom[..]), loom[..], Packed(old(loom[..]), bs);
      && Laid(w3, b3) && b3[0] == rut && hat' == b3[|b3| - 1] && (forall r | 0 <= r < |b3| - 1 :: PackedBox(w3, b3, r))
      && (forall i | 0 <= i < |bs| - 1 :: SameWords(w0, bs, cs, w3, i))
      && (forall r, i: nat | 0 <= r < |roots| && Reaches(w0, bs, roots[r], ns[r], i) :: FieldsMoved(w0, bs, cs, w3, i))
      && |roots'| == |roots| && (forall r | 0 <= r < |roots| :: IsNew(w0, bs, roots[r], roots'[r]))
      && (forall r | 0 <= r < |roots| :: NounAt(w3, b3, PackedCells(w0, bs, cs), roots'[r], ns[r]))
      && (forall r, q | 0 <= r < |roots| && 0 <= q < |roots| :: roots'[r] == roots'[q] <==> roots[r] == roots[q])
    ensures forall k | 0 <= k < loom.Length && (k < rut || k >= hat) :: loom[k] == old(loom[k])
  {
    hide NewBox, Laid, NounAt, Rewriting, IsNew, DoneAt, Sought, Packed, PackedCells, AllMoved, PackedBox, MovedBox, Unmarked, CellsOnly;
    ghost var w0 := loom[..];
    Seek(loom, rut, hat, bs);
    NothingRewritten(w0, bs, loom[..]);
    ghost var done;
    roots', done := RewriteRoots(loom, roots, w0, bs, cs, ns);
    ghost var w2 := loom[..];
    RwOutside(w0, bs, w2, done);
    hat' := MoveNorth(loom, rut, hat, w0, bs, done);
    ghost var w3 := loom[..];
    AllMovedIs(w0, bs, w2, done, w3);
    PackedLaid(w0, bs, w2, done, w3);
    PackedEnd(w0, bs);
    forall i | 0 <= i < |bs| - 1 ensures SameWords(w0, bs, cs, w3, i) { WordsMoved(w0, bs, cs, w2, done, w3, i); }
    forall r, i: nat | 0 <= r < |roots| && Reaches(w0, bs, roots[r], ns[r], i) ensures FieldsMoved(w0, bs, cs, w3, i) {
      ReachedMoved(w0, bs, cs, w2, done, w3, roots[r], ns[r], i);
    }
    forall r | 0 <= r < |roots| ensures NounAt(w3, Packed(w0, bs), PackedCells(w0, bs, cs), roots'[r], ns[r]) {
      NounMoved(w0, bs, cs, w2, done, w3, roots[r], roots'[r], ns[r]);
    }
    forall r, q | 0 <= r < |roots| && 0 <= q < |roots| ensures roots'[r] == roots'[q] <==> roots[r] == roots[q] {
      NewInjective(w0, bs, roots[r], roots[q], roots'[r], roots'[q]);
    }
  }

  /** A box in use has its words in its new place, but for a cell's fields and the trailing size. */
  ghost predicate SameWords(w0: seq<nat>, bs: seq<nat>, cs: set<nat>, w3: seq<nat>, i: nat)
    requires Laid(w0, bs) && i + 1 < |bs|
  {
    BoxAt(w0, bs, i) && (InUse(w0, bs, i) ==>
      var q, b, s := NewBox(w0, bs, i), bs[i], w0[bs[i]];
      && b + s <= |w0| && q + s <= |w3| && s > 1 && w3[q + s - 1] == s
      && forall k | q <= k < q + s - 1 && (b in cs ==> k != q + 3 && k != q + 4) :: w3[k] == w0[k - q + b])
  }

  lemma WordsMoved(w0: seq<nat>, bs: seq<nat>, cs: set<nat>, w2: seq<nat>, done: set<nat>, w3: seq<nat>, i: nat)
    requires AllMoved(w0, bs, w2, done, w3) && CellsOnly(bs, cs, done) && Laid(w0, bs) && i + 1 < |bs|
    ensures SameWords(w0, bs, cs, w3, i)
  {
    hide NewBox, Laid, Rewriting, MovedBox, IsNew;
    LaidBox(w0, bs, i);
    if InUse(w0, bs, i) { MovedWord(w0, bs, w2, done, w3, i); }
  }

  lemma AllMovedIs(w0: seq<nat>, bs: seq<nat>, w2: seq<nat>, done: set<nat>, w3: seq<nat>)
    requires Laid(w0, bs) && Unmarked(w0, bs) && Rewriting(w0, bs, w2, done, {}) && |w3| == |w2| == |w0|
    requires forall i | 0 <= i < |bs| - 1 :: MovedBox(w0, bs, w2, w3, i)
    ensures AllMoved(w0, bs, w2, done, w3)
  {
  }

  lemma PackedEnd(w0: seq<nat>, bs: seq<nat>)
    requires Laid(w0, bs)
    ensures var b3 := Packed(w0, bs); |b3| > 0 && b3[|b3| - 1] == NewBox(w0, bs, |bs| - 1)
  {
  }
}
