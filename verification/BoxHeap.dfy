/** The boxes of a road's heap and its free lists (pkg/urbit/noun/allocate.c:43-243): what is true of
    them between operations, and the steps operations are made of. */
module BoxHeap {
  /** The smallest box: a cell with its two-word header and trailing size. */
  const MINIMUM: nat := 6

  /** How many free lists there are. */
  const LISTS: nat := 27

  // ---- which list a size belongs to ----

  function SlotFrom(siz: nat, i: nat): (s: nat)
    requires 1 <= i <= LISTS
    ensures i <= s <= LISTS - 1 || (i == LISTS && s == LISTS - 1)
    decreases LISTS - i
  {
    if i == LISTS then i - 1 else if siz < 16 then i else SlotFrom((siz + 1) / 2, i + 1)
  }

  function Slot(siz: nat): (s: nat)
    ensures s < LISTS
  {
    if siz < MINIMUM then 0 else SlotFrom(siz, 1)
  }

  lemma {:induction false} SlotFromOrder(a: nat, b: nat, i: nat)
    requires a <= b && 1 <= i <= LISTS
    ensures SlotFrom(a, i) <= SlotFrom(b, i)
    decreases LISTS - i
  {
    if i < LISTS && a >= 16 { SlotFromOrder((a + 1) / 2, (b + 1) / 2, i + 1); }
  }

  /** Larger boxes are on later lists. */
  lemma SlotOrder(a: nat, b: nat)
    requires a <= b
    ensures Slot(a) <= Slot(b)
  {
    SlotFromOrder(a, b, 1);
  }

  /** `_box_slot`, as it computes it. */
  method BoxSlot(siz: nat) returns (s: nat)
    ensures s == Slot(siz)
  {
    if siz < MINIMUM { return 0; }
    var i, z := 1, siz;
    while true
      invariant 1 <= i <= LISTS && SlotFrom(z, i) == Slot(siz)
      decreases LISTS - i
    {
      if i == LISTS { return i - 1; }
      if z < 16 { return i; }
      z := (z + 1) / 2;
      i := i + 1;
    }
  }

  // ---- memory ----

  /** The words of the loom, and the heads of the free lists; no offset is 0, which ends a list. */
  datatype Mem = Mem(w: seq<nat>, fre: seq<nat>) {
    function At(k: int): nat { if 0 <= k < |w| then w[k] else 0 }

    function Put(k: int, v: nat): Mem { if 0 <= k < |w| then this.(w := w[k := v]) else this }

    function Head(k: int): nat { if 0 <= k < |fre| then fre[k] else 0 }

    function PutHead(k: int, v: nat): Mem { if 0 <= k < |fre| then this.(fre := fre[k := v]) else this }
  }

  /** The heap's bounds, where its boxes begin, and the unused boxes that are on no list for the
      moment; `born` is when a box was put on its list. */
  datatype Map = Map(low: nat, high: nat, starts: set<nat>, out: set<nat>, born: map<nat, nat>, tick: nat)

  // ---- the boxes ----

  /** A box ends at `p`, or the heap begins there. */
  predicate Prev(m: Mem, g: Map, p: nat) {
    p == g.low || (0 < m.At(p - 1) <= p && p - m.At(p - 1) in g.starts && m.At(p - m.At(p - 1)) == m.At(p - 1))
  }

  /** A box begins with its size and ends with it, where the next begins. */
  predicate Box(m: Mem, g: Map, b: nat) {
    && g.low <= b && m.At(b) >= MINIMUM && b + m.At(b) <= g.high && m.At(b + m.At(b) - 1) == m.At(b)
    && (b + m.At(b) == g.high || b + m.At(b) in g.starts) && Prev(m, g, b)
  }

  predicate Before(m: Mem, b: nat, c: nat) { b + m.At(b) <= c }

  ghost predicate Tiled(m: Mem, g: Map) {
    && 0 < g.low <= g.high <= |m.w| && (g.low == g.high || g.low in g.starts) && Prev(m, g, g.high)
    && (forall b {:trigger Box(m, g, b)} | b in g.starts :: Box(m, g, b))
    && (forall b, c {:trigger Before(m, b, c)} | b in g.starts && c in g.starts && b < c :: Before(m, b, c))
  }

  /** Unused, and on a list. */
  predicate On(m: Mem, g: Map, b: nat) { b in g.starts && b !in g.out && m.At(b + 1) == 0 && b in g.born }

  predicate Used(m: Mem, g: Map, b: nat) { b in g.starts && m.At(b + 1) > 0 }

  /** `p` and `n` are neighbours on the list for their size, the older one after the other. */
  predicate Pair(m: Mem, g: Map, p: nat, n: nat) {
    && On(m, g, p) && On(m, g, n) && Slot(m.At(p)) == Slot(m.At(n)) && p > 0 && n > 0
    && m.At(p + 3) == n && m.At(n + 2) == p && g.born[p] > g.born[n]
  }

  /** A listed box has its neighbours on the list for its size, or heads it. */
  predicate Linked(m: Mem, g: Map, b: nat)
    requires b in g.born
  {
    var pre, nex := m.At(b + 2), m.At(b + 3);
    && g.born[b] < g.tick
    && (if pre == 0 then m.Head(Slot(m.At(b))) == b else Pair(m, g, pre, b))
    && (nex == 0 || Pair(m, g, b, nex))
  }

  predicate Listed(m: Mem, g: Map, b: nat) { b in g.born && Linked(m, g, b) }

  predicate HeadAt(m: Mem, g: Map, k: nat) {
    m.Head(k) != 0 ==> On(m, g, m.Head(k)) && Slot(m.At(m.Head(k))) == k && m.At(m.Head(k) + 2) == 0
  }

  predicate Loose(m: Mem, g: Map, b: nat) { b in g.starts && m.At(b + 1) == 0 }

  /** The boxes tile the heap, and the unused ones are linked but for those in `out`. */
  ghost predicate Fit(m: Mem, g: Map) {
    && Tiled(m, g) && |m.fre| == LISTS
    && (forall b {:trigger Loose(m, g, b)} | b in g.out :: Loose(m, g, b))
    && (forall b {:trigger Listed(m, g, b)} | b in g.starts && b !in g.out && m.At(b + 1) == 0 :: Listed(m, g, b))
    && (forall k | 0 <= k < LISTS :: HeadAt(m, g, k))
  }

  /** Words of different boxes are different words. */
  lemma Apart(m: Mem, g: Map, b: nat, i: nat, c: nat, j: nat)
    requires Tiled(m, g) && b in g.starts && c in g.starts && b != c && i < m.At(b) && j < m.At(c)
    ensures b + i != c + j
  {
    hide Box, Prev;
    assert b < c ==> Before(m, b, c);
    assert c < b ==> Before(m, c, b);
  }

  // ---- what a step leaves alone ----

  /** The boxes in use stay in use, word for word, but for those in `but`. */
  ghost predicate Same(m: Mem, g: Map, m': Mem, g': Map, but: set<nat>) {
    && |m'.w| == |m.w|
    && (forall b | b !in but :: Used(m, g, b) <==> Used(m', g', b))
    && (forall b | b !in but && Used(m, g, b) :: Intact(m, m', b))
  }

  predicate Intact(m: Mem, m': Mem,
          b: nat) { m'.At(b) == m.At(b) && forall k: nat | b <= k < b + m.At(b) :: m'.At(k) == m.At(k) }

  lemma SameTwice(m: Mem, g: Map, m1: Mem, g1: Map, m2: Mem, g2: Map, a: set<nat>, b: set<nat>)
    requires Same(m, g, m1, g1, a) && Same(m1, g1, m2, g2, b)
    ensures Same(m, g, m2, g2, a + b)
  {
  }

  /** Sizes are as they were. */
  predicate SizeKept(m: Mem, m': Mem, c: nat) { m'.At(c) == m.At(c) && m'.At(c + m.At(c) - 1) == m.At(c + m.At(c) - 1) }

  lemma TiledKept(m: Mem, g: Map, m': Mem, g': Map)
    requires Tiled(m, g) && |m'.w| == |m.w| && g'.low == g.low && g'.high == g.high && g'.starts == g.starts
    requires forall c | c in g.starts :: SizeKept(m, m', c)
    ensures Tiled(m', g')
  {
    hide Box, Prev, Before, SizeKept;
    PrevKept(m, g, m', g', g.high);
    forall b | b in g.starts ensures Box(m', g', b) { BoxKept(m, g, m', g', b); }
    forall b, c | b in g.starts && c in g.starts && b < c ensures Before(m', b, c) {
      assert Before(m, b, c) && SizeKept(m, m', b);
      BeforeKept(m, m', b, c);
    }
  }

  lemma BeforeKept(m: Mem, m': Mem, b: nat, c: nat)
    requires Before(m, b, c) && SizeKept(m, m', b)
    ensures Before(m', b, c)
  {
  }

  lemma BoxKept(m: Mem, g: Map, m': Mem, g': Map, b: nat)
    requires Tiled(m, g) && b in g.starts && g'.low == g.low && g'.high == g.high && g'.starts == g.starts
    requires forall c | c in g.starts :: SizeKept(m, m', c)
    ensures Box(m', g', b)
  {
    hide Prev;
    assert Box(m, g, b) && SizeKept(m, m', b);
    PrevKept(m, g, m', g', b);
  }

  lemma PrevKept(m: Mem, g: Map, m': Mem, g': Map, p: nat)
    requires Prev(m, g, p) && g'.low == g.low && g'.starts == g.starts
    requires forall c | c in g.starts :: SizeKept(m, m', c)
    ensures Prev(m', g', p)
  {
    if p != g.low { assert SizeKept(m, m', p - m.At(p - 1)); }
  }

  // ---- taking a box off its list ----

  function Detached(m: Mem, b: nat): Mem {
    var pre, nex := m.At(b + 2), m.At(b + 3);
    var m1 := if nex != 0 then m.Put(nex + 2, pre) else m;
    if pre != 0 then m1.Put(pre + 3, nex) else m1.PutHead(Slot(m.At(b)), nex)
  }

  predicate Sized(m: Mem, m': Mem, b: nat) { SizeKept(m, m', b) && m'.At(b + 1) == m.At(b + 1) }

  /** What taking `x` off its list does to the words of box `b`. */
  lemma DetachWords(m: Mem, g: Map, x: nat, b: nat, j: nat)
    requires Fit(m, g) && On(m, g, x) && b in g.starts && j < m.At(b)
    ensures Detached(m, x).At(b + j) ==
      if b == m.At(x + 3) && j == 2 then m.At(x + 2) else if b == m.At(x + 2) && j == 3 then m.At(x + 3) else m.At(b + j)
  {
    hide Box, Prev, Tiled;
    assert Listed(m, g, x);
    var pre, nex := m.At(x + 2), m.At(x + 3);
    BoxRoom(m, g, b);
    if nex != 0 { BoxRoom(m, g, nex); if b != nex { Apart(m, g, b, j, nex, 2); } }
    if pre != 0 { BoxRoom(m, g, pre); if b != pre { Apart(m, g, b, j, pre, 3); } }
  }

  lemma BoxRoom(m: Mem, g: Map, b: nat)
    requires Tiled(m, g) && b in g.starts
    ensures 0 < g.low <= b && m.At(b) >= MINIMUM && b + m.At(b) <= g.high <= |m.w|
  {
    assert Box(m, g, b);
  }

  lemma FitTiled(m: Mem, g: Map)
    requires Fit(m, g)
    ensures Tiled(m, g)
  {
  }

  lemma DetachSize(m: Mem, x: nat)
    ensures |Detached(m, x).w| == |m.w|
  {
    hide Slot;
  }

  lemma SizedIs(m: Mem, m': Mem, b: nat)
    requires m'.At(b) == m.At(b) && m'.At(b + m.At(b) - 1) == m.At(b + m.At(b) - 1) && m'.At(b + 1) == m.At(b + 1)
    ensures Sized(m, m', b)
  {
  }

  lemma DetachSized(m: Mem, g: Map, x: nat, b: nat)
    requires Fit(m, g) && On(m, g, x) && b in g.starts
    ensures Sized(m, Detached(m, x), b) && |Detached(m, x).w| == |m.w|
    ensures Detached(m, x).At(b + 2) == if b == m.At(x + 3) then m.At(x + 2) else m.At(b + 2)
    ensures Detached(m, x).At(b + 3) == if b == m.At(x + 2) then m.At(x + 3) else m.At(b + 3)
  {
    FitTiled(m, g);
    hide *;
    DetachSize(m, x);
    BoxRoom(m, g, b);
    DetachWords(m, g, x, b, 0);
    DetachWords(m, g, x, b, 1);
    DetachWords(m, g, x, b, 2);
    DetachWords(m, g, x, b, 3);
    DetachWords(m, g, x, b, m.At(b) - 1);
    SizedIs(m, Detached(m, x), b);
    hide Detached;
  }

  lemma IsLinked(m: Mem, g: Map, b: nat)
    requires Fit(m, g) && On(m, g, b)
    ensures
      var pre, nex := m.At(b + 2), m.At(b + 3);
      && b in g.born && g.born[b] < g.tick && b in g.starts && b > 0
      && (if pre == 0 then m.Head(Slot(m.At(b))) == b else Pair(m, g, pre, b))
      && (nex == 0 || Pair(m, g, b, nex))
  {
    hide Box, Prev, Pair;
    assert Listed(m, g, b);
    BoxRoom(m, g, b);
  }

  /** A pair that does not contain `x` stays one. */
  lemma DetachPair(m: Mem, g: Map, x: nat, p: nat, n: nat)
    requires Fit(m, g) && On(m, g, x) && Pair(m, g, p, n) && p != x && n != x
    ensures Pair(Detached(m, x), g.(out := g.out + {x}), p, n)
  {
    hide Fit, Detached, Slot;
    DetachSized(m, g, x, p);
    DetachSized(m, g, x, n);
    IsLinked(m, g, x);
  }

  /** The neighbours of `x` become a pair. */
  lemma DetachJoin(m: Mem, g: Map, x: nat)
    requires Fit(m, g) && On(m, g, x) && m.At(x + 2) != 0 && m.At(x + 3) != 0
    ensures Pair(Detached(m, x), g.(out := g.out + {x}), m.At(x + 2), m.At(x + 3))
  {
    hide Fit, Detached, Slot;
    IsLinked(m, g, x);
    DetachSized(m, g, x, m.At(x + 2));
    DetachSized(m, g, x, m.At(x + 3));
  }

  lemma DetachLinked(m: Mem, g: Map, x: nat, b: nat)
    requires Fit(m, g) && On(m, g, x) && On(m, g, b) && b != x
    ensures Listed(Detached(m, x), g.(out := g.out + {x}), b)
  {
    hide Fit, Slot, On;
    IsLinked(m, g, b);
    IsLinked(m, g, x);
    DetachSized(m, g, x, b);
    DetachHeads(m, x, Slot(m.At(b)));
    hide Detached;
    var pre, nex := m.At(b + 2), m.At(b + 3);
    if pre == x { if m.At(x + 2) != 0 { DetachJoin(m, g, x); } } else if pre != 0 { DetachPair(m, g, x, pre, b); }
    if nex == x { if m.At(x + 3) != 0 { DetachJoin(m, g, x); } } else if nex != 0 { DetachPair(m, g, x, b, nex); }
  }

  lemma DetachHeads(m: Mem, x: nat, k: nat)
    ensures Detached(m, x).Head(k) == if m.At(x + 2) == 0 && k == Slot(m.At(x)) && k < |m.fre| then m.At(x + 3) else m.Head(k)
    ensures |Detached(m, x).fre| == |m.fre|
  {
    hide Slot;
  }

  lemma HeadIs(m: Mem, g: Map, k: nat)
    requires Fit(m, g) && k < LISTS && m.Head(k) != 0
    ensures On(m, g, m.Head(k)) && m.Head(k) in g.starts && Slot(m.At(m.Head(k))) == k && m.At(m.Head(k) + 2) == 0 && |m.fre| == LISTS
  {
    assert HeadAt(m, g, k);
  }

  lemma DetachHead(m: Mem, g: Map, x: nat, k: nat)
    requires Fit(m, g) && On(m, g, x) && k < LISTS
    ensures HeadAt(Detached(m, x), g.(out := g.out + {x}), k)
  {
    hide Fit, Slot;
    IsLinked(m, g, x);
    DetachHeads(m, x, k);
    hide Detached;
    if m.Head(k) != 0 { HeadIs(m, g, k); DetachSized(m, g, x, m.Head(k)); }
    if m.At(x + 3) != 0 { DetachSized(m, g, x, m.At(x + 3)); }
  }

  /** Off its list, a box is loose and everything else is as it should be. */
  lemma DetachFit(m: Mem, g: Map, x: nat)
    requires Fit(m, g) && On(m, g, x)
    ensures var m', g' := Detached(m, x), g.(out := g.out + {x}); Fit(m', g') && Same(m, g, m', g', {})
    ensures Sized(m, Detached(m, x), x)
  {
    hide Box, Prev, Listed, HeadAt, Detached, SizeKept, Linked;
    var m', g' := Detached(m, x), g.(out := g.out + {x});
    FitParts(m, g);
    forall b | b in g.starts ensures SizeKept(m, m', b) && m'.At(b + 1) == m.At(b + 1) { DetachSized(m, g, x, b); }
    DetachSized(m, g, x, x);
    TiledKept(m, g, m', g');
    forall b | On(m', g', b) ensures Listed(m', g', b) { DetachLinked(m, g, x, b); }
    forall k | 0 <= k < LISTS ensures HeadAt(m', g', k) { DetachHead(m, g, x, k); }
    DetachHeads(m, x, 0);
    FitIs(m', g');
    forall b | Used(m, g, b) ensures Intact(m, m', b) { DetachIntact(m, g, x, b); }
  }

  lemma FitParts(m: Mem, g: Map)
    requires Fit(m, g)
    ensures Tiled(m, g) && |m.fre| == LISTS && (forall b | b in g.out :: Loose(m, g, b))
    ensures forall b | Loose(m, g, b) && b !in g.out :: b in g.born
  {
    forall b | Loose(m, g, b) && b !in g.out ensures b in g.born { assert Listed(m, g, b); }
  }

  lemma FitIs(m: Mem, g: Map)
    requires Tiled(m, g) && |m.fre| == LISTS && (forall b | b in g.out :: Loose(m, g, b))
    requires forall b | Loose(m, g, b) && b !in g.out :: b in g.born
    requires forall b | On(m, g, b) :: Listed(m, g, b)
    requires forall k | 0 <= k < LISTS :: HeadAt(m, g, k)
    ensures Fit(m, g)
  {
    forall b | b in g.starts && b !in g.out && m.At(b + 1) == 0 ensures Listed(m, g, b) { assert Loose(m, g, b); assert On(m, g, b); }
  }

  lemma DetachIntact(m: Mem, g: Map, x: nat, b: nat)
    requires Fit(m, g) && On(m, g, x) && Used(m, g, b)
    ensures Intact(m, Detached(m, x), b)
  {
    hide Fit, Detached;
    IsLinked(m, g, x);
    DetachSized(m, g, x, b);
    var nex, pre := m.At(x + 3), m.At(x + 2);
    assert nex != 0 ==> On(m, g, nex);
    assert pre != 0 ==> On(m, g, pre);
    assert b > 0 by { hide *; FitLow(m, g, b); }
    forall k: nat | b <= k < b + m.At(b) ensures Detached(m, x).At(k) == m.At(k) {
      var j := k - b;
      DetachWords(m, g, x, b, j);
      assert b + j == k;
    }
  }

  lemma FitLow(m: Mem, g: Map, b: nat)
    requires Fit(m, g) && Used(m, g, b)
    ensures b > 0
  {
    BoxRoom(m, g, b);
  }

  // ---- putting a box on its list ----

  /** The box goes to the head of the list for its size. */
  function Attached(m: Mem, b: nat): Mem {
    var s := Slot(m.At(b));
    var nex := m.Head(s);
    var m1 := m.Put(b + 2, 0).Put(b + 3, nex);
    (if nex != 0 then m1.Put(nex + 2, b) else m1).PutHead(s, b)
  }

  function AttachedMap(g: Map, b: nat): Map { g.(out := g.out - {b}, born := g.born[b := g.tick], tick := g.tick + 1) }

  lemma AttachWords(m: Mem, g: Map, x: nat, b: nat, j: nat)
    requires Fit(m, g) && x in g.out && b in g.starts && j < m.At(b)
    ensures
      var nex := m.Head(Slot(m.At(x)));
      Attached(m, x).At(b + j) ==
        if b == x && j == 2 then 0 else if b == x && j == 3 then nex else if b == nex && j == 2 then x else m.At(b + j)
  {
    hide Box, Prev, Tiled, Slot, Linked, Listed;
    var s := Slot(m.At(x));
    var nex := m.Head(s);
    assert Loose(m, g, x);
    BoxRoom(m, g, b);
    BoxRoom(m, g, x);
    if b != x { Apart(m, g, b, j, x, 2); Apart(m, g, b, j, x, 3); }
    if nex != 0 {
      HeadIs(m, g, s);
      BoxRoom(m, g, nex);
      if b != nex { Apart(m, g, b, j, nex, 2); }
    }
  }

  lemma AttachHeads(m: Mem, x: nat, k: nat)
    ensures Attached(m, x).Head(k) == if k == Slot(m.At(x)) && k < |m.fre| then x else m.Head(k)
    ensures |Attached(m, x).fre| == |m.fre| && |Attached(m, x).w| == |m.w|
  {
    hide Slot;
  }

  lemma AttachSized(m: Mem, g: Map, x: nat, b: nat)
    requires Fit(m, g) && x in g.out && b in g.starts
    ensures Sized(m, Attached(m, x), b) && b > 0
    ensures
      var nex := m.Head(Slot(m.At(x)));
      && Attached(m, x).At(b + 2) == (if b == x then 0 else if b == nex then x else m.At(b + 2))
      && Attached(m, x).At(b + 3) == (if b == x then nex else m.At(b + 3))
  {
    FitTiled(m, g);
    hide *;
    AttachHeads(m, x, 0);
    BoxRoom(m, g, b);
    AttachWords(m, g, x, b, 0);
    AttachWords(m, g, x, b, 1);
    AttachWords(m, g, x, b, 2);
    AttachWords(m, g, x, b, 3);
    AttachWords(m, g, x, b, m.At(b) - 1);
    SizedIs(m, Attached(m, x), b);
    hide Attached;
  }

  lemma AttachPair(m: Mem, g: Map, x: nat, p: nat, n: nat)
    requires Fit(m, g) && x in g.out && Pair(m, g, p, n)
    ensures Pair(Attached(m, x), AttachedMap(g, x), p, n)
  {
    hide Fit, Attached, Slot;
    AttachSized(m, g, x, p);
    AttachSized(m, g, x, n);
    if m.Head(Slot(m.At(x))) != 0 { SlotBound(m.At(x)); HeadIs(m, g, Slot(m.At(x))); }
  }

  lemma SlotBound(siz: nat)
    ensures Slot(siz) < LISTS
  {
  }

  lemma LooseIs(m: Mem, g: Map, x: nat)
    requires Fit(m, g) && x in g.out
    ensures Loose(m, g, x)
  {
  }

  /** The new head and the old one become a pair. */
  lemma AttachJoin(m: Mem, g: Map, x: nat)
    requires Fit(m, g) && x in g.out && m.Head(Slot(m.At(x))) != 0
    ensures Pair(Attached(m, x), AttachedMap(g, x), x, m.Head(Slot(m.At(x))))
  {
    hide Fit, Attached, Slot;
    var nex := m.Head(Slot(m.At(x)));
    SlotBound(m.At(x));
    HeadIs(m, g, Slot(m.At(x)));
    IsLinked(m, g, nex);
    LooseIs(m, g, x);
    AttachSized(m, g, x, x);
    AttachSized(m, g, x, nex);
  }

  lemma AttachLinked(m: Mem, g: Map, x: nat, b: nat)
    requires Fit(m, g) && x in g.out && (b == x || On(m, g, b))
    ensures Listed(Attached(m, x), AttachedMap(g, x), b)
  {
    hide Fit, Slot, Pair, Box, Prev;
    LooseIs(m, g, x);
    AttachSized(m, g, x, b);
    AttachSized(m, g, x, x);
    SlotBound(m.At(b));
    SlotBound(m.At(x));
    SizesOf(m, g);
    AttachHeads(m, x, Slot(m.At(b)));
    hide Attached;
    var nex := m.Head(Slot(m.At(x)));
    if nex != 0 { AttachJoin(m, g, x); }
    if b != x {
      IsLinked(m, g, b);
      if m.At(b + 2) != 0 { AttachPair(m, g, x, m.At(b + 2), b); }
      if m.At(b + 3) != 0 { AttachPair(m, g, x, b, m.At(b + 3)); }
    }
    if b == nex && nex != 0 { HeadIs(m, g, Slot(m.At(x))); }
  }

  lemma SizesOf(m: Mem, g: Map)
    requires Fit(m, g)
    ensures |m.fre| == LISTS
  {
  }

  lemma AttachHead(m: Mem, g: Map, x: nat, k: nat)
    requires Fit(m, g) && x in g.out && k < LISTS
    ensures HeadAt(Attached(m, x), AttachedMap(g, x), k)
  {
    hide Fit, Slot;
    LooseIs(m, g, x);
    SizesOf(m, g);
    AttachHeads(m, x, k);
    hide Attached;
    SlotBound(m.At(x));
    AttachSized(m, g, x, x);
    if m.Head(Slot(m.At(x))) != 0 { HeadIs(m, g, Slot(m.At(x))); }
    if m.Head(k) != 0 { HeadIs(m, g, k); AttachSized(m, g, x, m.Head(k)); }
  }

  lemma AttachIntact(m: Mem, g: Map, x: nat, b: nat)
    requires Fit(m, g) && x in g.out && Used(m, g, b)
    ensures Intact(m, Attached(m, x), b)
  {
    hide Fit, Attached, Slot;
    LooseIs(m, g, x);
    AttachSized(m, g, x, b);
    SlotBound(m.At(x));
    var nex := m.Head(Slot(m.At(x)));
    if nex != 0 { HeadIs(m, g, Slot(m.At(x))); }
    forall k: nat | b <= k < b + m.At(b) ensures Attached(m, x).At(k) == m.At(k) {
      var j := k - b;
      AttachWords(m, g, x, b, j);
      assert b + j == k;
    }
  }

  /** A loose box put on its list leaves everything as it should be. */
  lemma AttachFit(m: Mem, g: Map, x: nat)
    requires Fit(m, g) && x in g.out
    ensures var m', g' := Attached(m, x), AttachedMap(g, x); Fit(m', g') && Same(m, g, m', g', {})
    ensures forall b | b in g.starts :: Sized(m, Attached(m, x), b)
  {
    hide Box, Prev, Listed, HeadAt, Attached, SizeKept, Linked;
    var m', g' := Attached(m, x), AttachedMap(g, x);
    FitParts(m, g);
    AttachHeads(m, x, 0);
    forall b | b in g.starts ensures SizeKept(m, m', b) && m'.At(b + 1) == m.At(b + 1) { AttachSized(m, g, x, b); }
    TiledKept(m, g, m', g');
    forall b | On(m', g', b) ensures Listed(m', g', b) { AttachLinked(m, g, x, b); }
    forall k | 0 <= k < LISTS ensures HeadAt(m', g', k) { AttachHead(m, g, x, k); }
    FitIs(m', g');
    forall b | Used(m, g, b) ensures Intact(m, m', b) { AttachIntact(m, g, x, b); }
  }

  // ---- steps that leave the lists alone ----

  predicate OnSame(m: Mem, g: Map, m': Mem, g': Map, b: nat) {
    On(m', g', b) && m'.At(b) == m.At(b) && m'.At(b + 2) == m.At(b + 2) && m'.At(b + 3) == m.At(b + 3)
  }

  /** The listed boxes are the same, with the same sizes and links. */
  lemma ListsSame(m: Mem, g: Map, m': Mem, g': Map)
    requires Fit(m, g) && m'.fre == m.fre && g'.born == g.born && g'.tick == g.tick && Tiled(m', g')
    requires forall b | On(m, g, b) :: OnSame(m, g, m', g', b)
    requires forall b | On(m', g', b) :: On(m, g, b)
    requires forall b | b in g'.out :: Loose(m', g', b)
    requires forall b | Loose(m', g', b) && b !in g'.out :: b in g.born
    ensures Fit(m', g')
  {
    hide Tiled, Slot, Listed, HeadAt, On, OnSame, Fit;
    SizesOf(m, g);
    forall b | On(m', g', b) ensures Listed(m', g', b) { LinkedSame(m, g, m', g', b); }
    forall k | 0 <= k < LISTS ensures HeadAt(m', g', k) { HeadSame(m, g, m', g', k); }
    FitIs(m', g');
  }

  lemma LinkedSame(m: Mem, g: Map, m': Mem, g': Map, b: nat)
    requires Fit(m, g) && m'.fre == m.fre && g'.born == g.born && g'.tick == g.tick && On(m, g, b)
    requires forall c | On(m, g, c) :: OnSame(m, g, m', g', c)
    ensures Listed(m', g', b)
  {
    hide Fit, Slot;
    IsLinked(m, g, b);
    assert OnSame(m, g, m', g', b);
    var pre, nex := m.At(b + 2), m.At(b + 3);
    assert pre != 0 ==> OnSame(m, g, m', g', pre);
    assert nex != 0 ==> OnSame(m, g, m', g', nex);
  }

  lemma HeadSame(m: Mem, g: Map, m': Mem, g': Map, k: nat)
    requires Fit(m, g) && m'.fre == m.fre && k < LISTS
    requires forall c | On(m, g, c) :: OnSame(m, g, m', g', c)
    ensures HeadAt(m', g', k)
  {
    hide Fit, Slot;
    if m.Head(k) != 0 { HeadIs(m, g, k); assert OnSame(m, g, m', g', m.Head(k)); }
  }

  // ---- use counts ----

  /** A listless box comes into use, or a used one goes out of it. */
  lemma UseFit(m: Mem, g: Map, x: nat, use: nat)
    requires Fit(m, g) && x in g.starts && (x in g.out || m.At(x + 1) > 0)
    ensures
      var m', g' := m.Put(x + 1, use), g.(out := if use == 0 then g.out + {x} else g.out - {x});
      && Fit(m', g') && Same(m, g, m', g', {x}) && m'.At(x + 1) == use
      && (forall b | b in g.starts :: SizeKept(m, m', b) && (b != x ==> m'.At(b + 1) == m.At(b + 1)))
  {
    hide Box, Prev, Linked, HeadAt, Listed, Slot;
    var m', g' := m.Put(x + 1, use), g.(out := if use == 0 then g.out + {x} else g.out - {x});
    FitParts(m, g);
    forall b | b in g.starts ensures SizeKept(m, m', b) && UseOnly(m, m', x, b) { UseWords(m, g, x, use, b); }
    BoxRoom(m, g, x);
    TiledKept(m, g, m', g');
    forall b | On(m, g, b) ensures OnSame(m, g, m', g', b) { assert UseOnly(m, m', x, b); }
    forall b | On(m', g', b) ensures On(m, g, b) { assert UseOnly(m, m', x, b); }
    forall b | b in g'.out ensures Loose(m', g', b) { if b != x { assert Loose(m, g, b) && UseOnly(m, m', x, b); } }
    forall b | Loose(m', g', b) && b !in g'.out ensures b in g.born { assert UseOnly(m, m', x, b); assert Loose(m, g, b); }
    ListsSame(m, g, m', g');
    forall b | b != x && Used(m, g, b) ensures Intact(m, m', b) { UseIntact(m, g, x, use, b); assert UseOnly(m, m', x, b); }
    forall b | b != x ensures Used(m, g, b) <==> Used(m', g', b) { if b in g.starts { assert UseOnly(m, m', x, b); } }
  }

  predicate UseOnly(m: Mem, m': Mem, x: nat, b: nat) {
    (b != x ==> m'.At(b + 1) == m.At(b + 1)) && m'.At(b + 2) == m.At(b + 2) && m'.At(b + 3) == m.At(b + 3)
  }

  lemma UseWord(m: Mem, g: Map, x: nat, use: nat, b: nat, j: nat)
    requires Tiled(m, g) && x in g.starts && b in g.starts && j < m.At(b) && (b != x || j != 1)
    ensures m.Put(x + 1, use).At(b + j) == m.At(b + j)
  {
    hide Box, Prev, Tiled;
    BoxRoom(m, g, x);
    BoxRoom(m, g, b);
    if b != x { Apart(m, g, b, j, x, 1); }
  }

  lemma UseWords(m: Mem, g: Map, x: nat, use: nat, b: nat)
    requires Tiled(m, g) && x in g.starts && b in g.starts
    ensures var m' := m.Put(x + 1, use); SizeKept(m, m', b) && UseOnly(m, m', x, b)
  {
    hide Tiled;
    BoxRoom(m, g, b);
    UseWord(m, g, x, use, b, 0);
    if b != x { UseWord(m, g, x, use, b, 1); }
    UseWord(m, g, x, use, b, 2);
    UseWord(m, g, x, use, b, 3);
    UseWord(m, g, x, use, b, m.At(b) - 1);
  }

  lemma UseIntact(m: Mem, g: Map, x: nat, use: nat, b: nat)
    requires Tiled(m, g) && x in g.starts && b != x && b in g.starts
    ensures Intact(m, m.Put(x + 1, use), b)
  {
    hide Tiled;
    var m' := m.Put(x + 1, use);
    BoxRoom(m, g, b);
    UseWord(m, g, x, use, b, 0);
    forall k: nat | b <= k < b + m.At(b) ensures m'.At(k) == m.At(k) {
      var j := k - b;
      UseWord(m, g, x, use, b, j);
      assert b + j == k;
    }
  }

  // ---- joining two boxes ----

  /** `_box_make`: the size at both ends, and the use count. */
  function Made(m: Mem, b: nat, siz: nat, use: nat): Mem { m.Put(b, siz).Put(b + siz - 1, siz).Put(b + 1, use) }

  function MergedMap(g: Map, y: nat): Map { g.(starts := g.starts - {y}, out := g.out - {y}) }

  ghost predicate Mergeable(m: Mem, g: Map, x: nat, y: nat) { Fit(m,
          g) && x in g.out && y in g.out && y == x + m.At(x) }

  lemma MergeWord(m: Mem, g: Map, x: nat, y: nat, b: nat, j: nat)
    requires Mergeable(m, g, x, y) && b in g.starts && b != x && b != y && j < m.At(b)
    ensures Made(m, x, m.At(x) + m.At(y), 0).At(b + j) == m.At(b + j)
  {
    hide Box, Prev, Tiled, Fit;
    MergeRoom(m, g, x, y);
    hide Mergeable;
    Apart(m, g, b, j, x, 0);
    Apart(m, g, b, j, x, 1);
    Apart(m, g, b, j, y, m.At(y) - 1);
  }

  lemma MergeRoom(m: Mem, g: Map, x: nat, y: nat)
    requires Mergeable(m, g, x, y)
    ensures Tiled(m, g) && x in g.starts && y in g.starts && m.At(x) >= MINIMUM && m.At(y) >= MINIMUM && y + m.At(y) <= g.high <= |m.w| && x > 0
  {
    assert Loose(m, g, x) && Loose(m, g, y);
    BoxRoom(m, g, x);
    BoxRoom(m, g, y);
  }

  lemma MergeSized(m: Mem, g: Map, x: nat, y: nat, b: nat)
    requires Mergeable(m, g, x, y) && b in g.starts && b != y
    ensures
      var s := m.At(x) + m.At(y);
      var m' := Made(m, x, s, 0);
      if b == x then m'.At(x) == s && m'.At(x + s - 1) == s && m'.At(x + 1) == 0
      else SizeKept(m, m', b) && UseOnly(m, m', x, b) && m'.At(b + 1) == m.At(b + 1)
  {
    hide Box, Prev, Tiled, Fit;
    MergeRoom(m, g, x, y);
    hide Mergeable;
    if b != x {
      BoxRoom(m, g, b);
      MergeWord(m, g, x, y, b, 0);
      MergeWord(m, g, x, y, b, 1);
      MergeWord(m, g, x, y, b, 2);
      MergeWord(m, g, x, y, b, 3);
      MergeWord(m, g, x, y, b, m.At(b) - 1);
    }
  }

  lemma PrevIs(m: Mem, g: Map, p: nat) returns (q: nat)
    requires Tiled(m, g) && (p in g.starts || p == g.high) && p != g.low
    ensures q in g.starts && q + m.At(q) == p && m.At(p - 1) == m.At(q) && q < p
  {
    if p in g.starts { assert Box(m, g, p); }
    q := p - m.At(p - 1);
  }

  lemma PrevFrom(m: Mem, g: Map, q: nat, p: nat)
    requires q in g.starts && q + m.At(q) == p && m.At(p - 1) == m.At(q) > 0
    ensures Prev(m, g, p)
  {
  }

  lemma MergePrev(m: Mem, g: Map, x: nat, y: nat, p: nat)
    requires Mergeable(m, g, x, y) && (p in g.starts || p == g.high) && p != y
    ensures Prev(Made(m, x, m.At(x) + m.At(y), 0), MergedMap(g, y), p)
  {
    hide Box, Tiled, Fit, Made, SizeKept;
    var s := m.At(x) + m.At(y);
    var m', g' := Made(m, x, s, 0), MergedMap(g, y);
    MergeRoom(m, g, x, y);
    if p != g.low {
      var q := PrevIs(m, g, p);
      BoxRoom(m, g, q);
      if q == y {
        MergeSized(m, g, x, y, x);
        hide Prev;
        PrevFrom(m', g', x, p);
      } else if q != x {
        MergeSized(m, g, x, y, q);
        SizeKeptIs(m, m', q);
        hide Prev;
        PrevFrom(m', g', q, p);
      }
    }
  }

  lemma SizeKeptIs(m: Mem, m': Mem, c: nat)
    requires SizeKept(m, m', c)
    ensures m'.At(c) == m.At(c) && m'.At(c + m.At(c) - 1) == m.At(c + m.At(c) - 1)
  {
  }

  lemma BoxIs(m: Mem, g: Map, b: nat)
    requires Tiled(m, g) && b in g.starts
    ensures g.low <= b && m.At(b) >= MINIMUM && b + m.At(b) <= g.high && m.At(b + m.At(b) - 1) == m.At(b)
    ensures b + m.At(b) == g.high || b + m.At(b) in g.starts
  {
    assert Box(m, g, b);
  }

  lemma MergeBox(m: Mem, g: Map, x: nat, y: nat, b: nat)
    requires Mergeable(m, g, x, y) && b in g.starts && b != y
    ensures Box(Made(m, x, m.At(x) + m.At(y), 0), MergedMap(g, y), b)
  {
    hide Prev, Tiled, Fit, Made, SizeKept;
    var s := m.At(x) + m.At(y);
    var m', g' := Made(m, x, s, 0), MergedMap(g, y);
    MergeRoom(m, g, x, y);
    MergePrev(m, g, x, y, b);
    MergeSized(m, g, x, y, b);
    BoxIs(m, g, b);
    BoxIs(m, g, y);
    if b != x {
      SizeKeptIs(m, m', b);
      assert b + m.At(b) != y by { Apart(m, g, b, m.At(b) - 1, x, m.At(x) - 1); }
    }
  }

  lemma BeforeIs(m: Mem, g: Map, b: nat, c: nat)
    requires Tiled(m, g) && b in g.starts && c in g.starts && b < c
    ensures b + m.At(b) <= c
  {
    assert Before(m, b, c);
  }

  lemma MergeBefore(m: Mem, g: Map, x: nat, y: nat, b: nat, c: nat)
    requires Mergeable(m, g, x, y) && b in g.starts && b != y && c in g.starts && c != y && b < c
    ensures Before(Made(m, x, m.At(x) + m.At(y), 0), b, c)
  {
    hide Prev, Tiled, Fit, Made, SizeKept, Box;
    MergeRoom(m, g, x, y);
    MergeSized(m, g, x, y, b);
    BeforeIs(m, g, b, c);
    if b == x { if c < y { BeforeIs(m, g, c, y); } else { BeforeIs(m, g, y, c); } } else { SizeKeptIs(m, Made(m, x, m.At(x) + m.At(y), 0), b); }
  }

  lemma MergeTiled(m: Mem, g: Map, x: nat, y: nat)
    requires Mergeable(m, g, x, y)
    ensures Tiled(Made(m, x, m.At(x) + m.At(y), 0), MergedMap(g, y))
  {
    hide Prev, Fit, Made, SizeKept, Box, Before;
    var s := m.At(x) + m.At(y);
    var m', g' := Made(m, x, s, 0), MergedMap(g, y);
    MergeRoom(m, g, x, y);
    BoxRoom(m, g, x);
    BoxRoom(m, g, y);
    MadeSize(m, x, s, 0);
    MergePrev(m, g, x, y, g.high);
    forall b | b in g'.starts ensures Box(m', g', b) { MergeBox(m, g, x, y, b); }
    forall b, c | b in g'.starts && c in g'.starts && b < c ensures Before(m', b, c) { MergeBefore(m, g, x, y, b, c); }
  }

  lemma MadeSize(m: Mem, b: nat, siz: nat, use: nat)
    ensures |Made(m, b, siz, use).w| == |m.w| && Made(m, b, siz, use).fre == m.fre
  {
  }

  /** Two neighbouring loose boxes become one. */
  lemma MergeFit(m: Mem, g: Map, x: nat, y: nat)
    requires Mergeable(m, g, x, y)
    ensures
      var m', g' := Made(m, x, m.At(x) + m.At(y), 0), MergedMap(g, y);
      Fit(m', g') && Same(m, g, m', g', {}) && m'.At(x) == m.At(x) + m.At(y)
    ensures forall b | b in g.starts && b != x && b != y :: Sized(m, Made(m, x, m.At(x) + m.At(y), 0), b)
  {
    hide Prev, Fit, Made, SizeKept, Box, Before, Tiled;
    var s := m.At(x) + m.At(y);
    var m', g' := Made(m, x, s, 0), MergedMap(g, y);
    MergeRoom(m, g, x, y);
    MergeTiled(m, g, x, y);
    MadeSize(m, x, s, 0);
    FitParts(m, g);
    forall b | b in g.starts && b != x && b != y ensures Sized(m, m', b) && UseOnly(m, m', x, b) { MergeSized(m, g, x, y, b); }
    MergeSized(m, g, x, y, x);
    assert Loose(m, g, x) && Loose(m, g, y);
    forall b | On(m, g, b) ensures OnSame(m, g, m', g', b) { assert Sized(m, m', b) && UseOnly(m, m', x, b); SizeKeptIs(m, m', b); }
    forall b | On(m', g', b) ensures On(m, g, b) { assert b != x ==> Sized(m, m', b); }
    forall b | b in g'.out ensures Loose(m', g', b) { if b != x { assert Loose(m, g, b) && Sized(m, m', b); } }
    forall b | Loose(m', g', b) && b !in g'.out ensures b in g.born { assert Sized(m, m', b); assert Loose(m, g, b); }
    ListsSame(m, g, m', g');
    forall b | Used(m, g, b) ensures Intact(m, m', b) { MergeIntact(m, g, x, y, b); }
    forall b: nat ensures Used(m, g, b) <==> Used(m', g', b) { if b in g.starts && b != x && b != y { assert Sized(m, m', b); } }
  }

  lemma MergeIntact(m: Mem, g: Map, x: nat, y: nat, b: nat)
    requires Mergeable(m, g, x, y) && Used(m, g, b)
    ensures Intact(m, Made(m, x, m.At(x) + m.At(y), 0), b)
  {
    hide Fit, Made, Tiled;
    var m' := Made(m, x, m.At(x) + m.At(y), 0);
    MergeLoose(m, g, x, y);
    MergeRoom(m, g, x, y);
    BoxRoom(m, g, b);
    forall k: nat | b <= k < b + m.At(b) ensures m'.At(k) == m.At(k) {
      var j := k - b;
      MergeWord(m, g, x, y, b, j);
      assert b + j == k;
    }
    MergeWord(m, g, x, y, b, 0);
  }

  lemma MergeLoose(m: Mem, g: Map, x: nat, y: nat)
    requires Mergeable(m, g, x, y)
    ensures m.At(x + 1) == 0 && m.At(y + 1) == 0
  {
    assert Loose(m, g, x) && Loose(m, g, y);
  }

  // ---- dividing a box ----

  /** The box's end becomes an unused box. */
  function Divided(m: Mem, x: nat, a: nat, use: nat): Mem
    requires a <= m.At(x)
  {
    Made(Made(m, x + a, m.At(x) - a, 0), x, a, use)
  }

  function DividedMap(g: Map, x: nat, y: nat): Map { g.(starts := g.starts + {y}, out := g.out - {x} + {y}) }

  ghost predicate Divisible(m: Mem, g: Map, x: nat, a: nat, use: nat) {
    && Fit(m, g) && x in g.starts && (x in g.out || m.At(x + 1) > 0) && use > 0
    && MINIMUM <= a && a + MINIMUM <= m.At(x)
  }

  lemma DivideRoom(m: Mem, g: Map, x: nat, a: nat, use: nat)
    requires Divisible(m, g, x, a, use)
    ensures Tiled(m, g) && x in g.starts && MINIMUM <= a && a + MINIMUM <= m.At(x) && 0 < g.low <= x && x + m.At(x) <= g.high <= |m.w|
    ensures x + a !in g.starts
  {
    BoxRoom(m, g, x);
    if x + a in g.starts { BeforeIs(m, g, x, x + a); }
  }

  lemma DivideHere(m: Mem, g: Map, x: nat, a: nat, use: nat)
    requires Divisible(m, g, x, a, use)
    ensures
      var m', y, l := Divided(m, x, a, use), x + a, m.At(x) - a;
      && m'.At(x) == a && m'.At(x + 1) == use && m'.At(y - 1) == a && m'.At(y) == l && m'.At(y + 1) == 0 && m'.At(y + l - 1) == l
      && (forall k: nat | x + 2 <= k < y - 1 :: m'.At(k) == m.At(k)) && |m'.w| == |m.w| && m'.fre == m.fre
  {
    DivideRoom(m, g, x, a, use);
    hide Tiled, Fit, Divisible;
  }

  lemma DivideWord(m: Mem, g: Map, x: nat, a: nat, use: nat, b: nat, j: nat)
    requires Divisible(m, g, x, a, use) && b in g.starts && b != x && j < m.At(b)
    ensures Divided(m, x, a, use).At(b + j) == m.At(b + j)
  {
    hide Fit, Tiled;
    DivideRoom(m, g, x, a, use);
    hide Divisible;
    Apart(m, g, b, j, x, 0);
    Apart(m, g, b, j, x, 1);
    Apart(m, g, b, j, x, a - 1);
    Apart(m, g, b, j, x, a);
    Apart(m, g, b, j, x, a + 1);
    Apart(m, g, b, j, x, m.At(x) - 1);
  }

  lemma DivideSized(m: Mem, g: Map, x: nat, a: nat, use: nat, b: nat)
    requires Divisible(m, g, x, a, use) && b in g.starts && b != x
    ensures var m' := Divided(m, x, a, use); Sized(m, m', b) && UseOnly(m, m', x, b)
  {
    hide Fit, Tiled, Divided;
    DivideRoom(m, g, x, a, use);
    hide Divisible;
    BoxRoom(m, g, b);
    DivideWord(m, g, x, a, use, b, 0);
    DivideWord(m, g, x, a, use, b, 1);
    DivideWord(m, g, x, a, use, b, 2);
    DivideWord(m, g, x, a, use, b, 3);
    DivideWord(m, g, x, a, use, b, m.At(b) - 1);
  }

  lemma DividePrev(m: Mem, g: Map, x: nat, a: nat, use: nat, p: nat)
    requires Divisible(m, g, x, a, use) && (p in g.starts || p == g.high || p == x + a)
    ensures Prev(Divided(m, x, a, use), DividedMap(g, x, x + a), p)
  {
    hide Fit, Tiled, Box, Divided, SizeKept;
    var m', g', y := Divided(m, x, a, use), DividedMap(g, x, x + a), x + a;
    DivideRoom(m, g, x, a, use);
    DivideHere(m, g, x, a, use);
    hide Divisible;
    if p == y {
      hide Prev;
      PrevFrom(m', g', x, p);
    } else if p != g.low {
      var q := PrevIs(m, g, p);
      hide Prev;
      if q == x {
        PrevFrom(m', g', y, p);
      } else {
        BoxRoom(m, g, q);
        DivideSized(m, g, x, a, use, q);
        SizeKeptIs(m, m', q);
        PrevFrom(m', g', q, p);
      }
    }
  }

  lemma DivideBox(m: Mem, g: Map, x: nat, a: nat, use: nat, b: nat)
    requires Divisible(m, g, x, a, use) && (b in g.starts || b == x + a)
    ensures Box(Divided(m, x, a, use), DividedMap(g, x, x + a), b)
  {
    hide Fit, Tiled, Divided, SizeKept, Prev;
    DivideRoom(m, g, x, a, use);
    DivideHere(m, g, x, a, use);
    DividePrev(m, g, x, a, use, b);
    BoxIs(m, g, x);
    if b != x && b != x + a {
      BoxIs(m, g, b);
      DivideSized(m, g, x, a, use, b);
      SizeKeptIs(m, Divided(m, x, a, use), b);
    }
  }

  lemma DivideBefore(m: Mem, g: Map, x: nat, a: nat, use: nat, b: nat, c: nat)
    requires Divisible(m, g, x, a, use) && (b in g.starts || b == x + a) && (c in g.starts || c == x + a) && b < c
    ensures Before(Divided(m, x, a, use), b, c)
  {
    hide Fit, Tiled, Divided, SizeKept, Prev, Box;
    DivideRoom(m, g, x, a, use);
    DivideHere(m, g, x, a, use);
    var b0, c0 := if b == x + a then x else b, if c == x + a then x else c;
    if b0 < c0 { BeforeIs(m, g, b0, c0); }
    if c0 < b0 { BeforeIs(m, g, c0, b0); }
    if b0 != x {
      DivideSized(m, g, x, a, use, b);
      SizeKeptIs(m, Divided(m, x, a, use), b);
    }
  }

  lemma DivideTiled(m: Mem, g: Map, x: nat, a: nat, use: nat)
    requires Divisible(m, g, x, a, use)
    ensures Tiled(Divided(m, x, a, use), DividedMap(g, x, x + a))
  {
    hide Fit, Divided, Prev, Box, Before;
    DivideRoom(m, g, x, a, use);
    DivideHere(m, g, x, a, use);
    DividePrev(m, g, x, a, use, g.high);
    var m', g' := Divided(m, x, a, use), DividedMap(g, x, x + a);
    forall b | b in g'.starts ensures Box(m', g', b) { DivideBox(m, g, x, a, use, b); }
    forall b, c | b in g'.starts && c in g'.starts && b < c ensures Before(m', b, c) { DivideBefore(m, g, x, a, use, b, c); }
  }

  lemma DivideIntact(m: Mem, g: Map, x: nat, a: nat, use: nat, b: nat)
    requires Divisible(m, g, x, a, use) && b in g.starts && b != x
    ensures Intact(m, Divided(m, x, a, use), b)
  {
    hide Fit, Tiled, Divided;
    DivideRoom(m, g, x, a, use);
    var m' := Divided(m, x, a, use);
    BoxRoom(m, g, b);
    forall k: nat | b <= k < b + m.At(b) ensures m'.At(k) == m.At(k) {
      var j := k - b;
      DivideWord(m, g, x, a, use, b, j);
      assert b + j == k;
    }
    DivideWord(m, g, x, a, use, b, 0);
  }

  /** The front of a box in use, or coming into use, and its end loose. */
  lemma DivideFit(m: Mem, g: Map, x: nat, a: nat, use: nat)
    requires Divisible(m, g, x, a, use)
    ensures var m', g' := Divided(m, x, a, use), DividedMap(g, x, x + a); Fit(m', g') && Same(m, g, m', g', {x})
    ensures forall b | b in g.starts && b != x :: Sized(m, Divided(m, x, a, use), b)
  {
    hide Fit, Tiled, Divided, Prev, Box, Before, SizeKept;
    var m', g', y := Divided(m, x, a, use), DividedMap(g, x, x + a), x + a;
    DivideTiled(m, g, x, a, use);
    DivideHere(m, g, x, a, use);
    DivideRoom(m, g, x, a, use);
    FitParts(m, g);
    forall b | b in g.starts && b != x ensures Sized(m, m', b) && UseOnly(m, m', x, b) { DivideSized(m, g, x, a, use, b); }
    forall b | On(m, g, b) ensures OnSame(m, g, m', g', b) { assert Sized(m, m', b) && UseOnly(m, m', x, b); SizeKeptIs(m, m', b); }
    forall b | On(m', g', b) ensures On(m, g, b) { assert b != x ==> Sized(m, m', b); }
    forall b | b in g'.out ensures Loose(m', g', b) { if b != y { assert Loose(m, g, b) && Sized(m, m', b); } }
    forall b | Loose(m', g', b) && b !in g'.out ensures b in g.born { assert b != x && Sized(m, m', b); assert Loose(m, g, b); }
    ListsSame(m, g, m', g');
    forall b | b != x && Used(m, g, b) ensures Intact(m, m', b) { DivideIntact(m, g, x, a, use, b); }
    forall b: nat | b != x ensures Used(m, g, b) <==> Used(m', g', b) { if b in g.starts { assert Sized(m, m', b); } }
  }

  // ---- moving the heap's end ----

  /** A loose box at the end of the heap is given back. */
  function Shrunk(m: Mem, g: Map, x: nat, top: bool): Map {
    var g1 := g.(starts := g.starts - {x}, out := g.out - {x});
    if top then g1.(high := x) else g1.(low := x + m.At(x))
  }

  ghost predicate AtEnd(m: Mem, g: Map, x: nat, top: bool) {
    Fit(m, g) && x in g.out && if top then x + m.At(x) == g.high else x == g.low
  }

  lemma ShrinkPrev(m: Mem, g: Map, x: nat, top: bool, p: nat)
    requires AtEnd(m, g, x, top) && (p in g.starts || p == g.high) && (if top then p != g.high else p != x)
    ensures Prev(m, Shrunk(m, g, x, top), p)
  {
    hide Fit, Tiled, Box;
    ShrinkRoom(m, g, x, top);
    if p != g.low {
      var q := PrevIs(m, g, p);
      BoxRoom(m, g, q);
      if q != x { hide Prev; PrevFrom(m, Shrunk(m, g, x, top), q, p); }
    }
  }

  lemma ShrinkRoom(m: Mem, g: Map, x: nat, top: bool)
    requires AtEnd(m, g, x, top)
    ensures Tiled(m, g) && x in g.starts && m.At(x + 1) == 0 && m.At(x) >= MINIMUM && 0 < g.low <= x && x + m.At(x) <= g.high <= |m.w|
    ensures x + m.At(x) == g.high || x + m.At(x) in g.starts
    ensures g.low in g.starts
  {
    assert Loose(m, g, x);
    BoxRoom(m, g, x);
    BoxIs(m, g, x);
  }

  lemma ShrinkBox(m: Mem, g: Map, x: nat, top: bool, b: nat)
    requires AtEnd(m, g, x, top) && b in g.starts && b != x
    ensures Box(m, Shrunk(m, g, x, top), b)
  {
    hide Fit, Tiled, Prev;
    ShrinkRoom(m, g, x, top);
    BoxIs(m, g, b);
    ShrinkPrev(m, g, x, top, b);
    if b < x { BeforeIs(m, g, b, x); } else { BeforeIs(m, g, x, b); }
  }

  lemma ShrinkTiled(m: Mem, g: Map, x: nat, top: bool)
    requires AtEnd(m, g, x, top)
    ensures Tiled(m, Shrunk(m, g, x, top))
  {
    hide Fit, Prev, Box, Before;
    var g' := Shrunk(m, g, x, top);
    ShrinkRoom(m, g, x, top);
    BoxIs(m, g, x);
    if top { ShrinkPrev(m, g, x, top, x); } else if g.high != g'.low { ShrinkPrev(m, g, x, top, g.high); } else { hide *; PrevLow(m, g', g.high); }
    forall b | b in g'.starts ensures Box(m, g', b) { ShrinkBox(m, g, x, top, b); }
  }

  lemma PrevLow(m: Mem, g: Map, p: nat)
    requires p == g.low
    ensures Prev(m, g, p)
  {
  }

  lemma ShrinkFit(m: Mem, g: Map, x: nat, top: bool)
    requires AtEnd(m, g, x, top)
    ensures var g' := Shrunk(m, g, x, top); Fit(m, g') && Same(m, g, m, g', {})
  {
    hide Fit, Tiled, Prev, Box, Before;
    var g' := Shrunk(m, g, x, top);
    ShrinkRoom(m, g, x, top);
    ShrinkTiled(m, g, x, top);
    FitParts(m, g);
    forall b | On(m, g, b) ensures OnSame(m, g, m, g', b) { OnNotOut(m, g, b, x); }
    forall b | b in g'.out ensures Loose(m, g', b) { assert Loose(m, g, b); }
    forall b | Loose(m, g', b) && b !in g'.out ensures b in g.born { assert Loose(m, g, b); }
    ListsSame(m, g, m, g');
  }

  lemma OnNotOut(m: Mem, g: Map, b: nat, x: nat)
    requires On(m, g, b) && x in g.out
    ensures b != x
  {
  }

  /** A new box in use at the end of the heap. */
  function Grown(g: Map, siz: nat, top: bool): Map
    requires siz <= g.low || top
  {
    if top then g.(high := g.high + siz, starts := g.starts + {g.high}) else g.(low := g.low - siz, starts := g.starts + {g.low - siz})
  }

  ghost predicate Growable(m: Mem, g: Map, siz: nat, top: bool) {
    Fit(m, g) && siz >= MINIMUM && if top then g.high + siz <= |m.w| else siz < g.low
  }

  function NewAt(g: Map, siz: nat, top: bool): nat
    requires siz <= g.low || top
  {
    if top then g.high else g.low - siz
  }

  lemma GrowRoom(m: Mem, g: Map, siz: nat, top: bool)
    requires Growable(m, g, siz, top)
    ensures Tiled(m, g) && 0 < g.low <= g.high <= |m.w| && siz >= MINIMUM && (if top then g.high + siz <= |m.w| else siz < g.low)
    ensures g.low == g.high || g.low in g.starts
  {
  }

  lemma GrowHere(m: Mem, g: Map, siz: nat, top: bool)
    requires Growable(m, g, siz, top)
    ensures
      var n := NewAt(g, siz, top);
      var m' := Made(m, n, siz, 1);
      m'.At(n) == siz && m'.At(n + siz - 1) == siz && m'.At(n + 1) == 1 && |m'.w| == |m.w| && m'.fre == m.fre
    ensures forall k | g.low <= k < g.high :: Made(m, NewAt(g, siz, top), siz, 1).At(k) == m.At(k)
  {
    GrowRoom(m, g, siz, top);
    hide Fit, Tiled;
  }

  lemma GrowSized(m: Mem, g: Map, siz: nat, top: bool, b: nat)
    requires Growable(m, g, siz, top) && b in g.starts
    ensures var m' := Made(m, NewAt(g, siz, top), siz, 1); Sized(m, m', b) && UseOnly(m, m', b, b) && Intact(m, m', b) && b != NewAt(g, siz, top)
  {
    GrowRoom(m, g, siz, top);
    GrowHere(m, g, siz, top);
    BoxRoom(m, g, b);
    hide Fit, Tiled, Made, Growable;
  }

  lemma GrowPrev(m: Mem, g: Map, siz: nat, top: bool, p: nat)
    requires Growable(m, g, siz, top) && (p in g.starts || p == g.high)
    ensures Prev(Made(m, NewAt(g, siz, top), siz, 1), Grown(g, siz, top), p)
  {
    hide Fit, Tiled, Box, Made, SizeKept;
    var m', g' := Made(m, NewAt(g, siz, top), siz, 1), Grown(g, siz, top);
    GrowRoom(m, g, siz, top);
    GrowHere(m, g, siz, top);
    hide Growable;
    if p != g.low {
      var q := PrevIs(m, g, p);
      BoxRoom(m, g, q);
      GrowSized(m, g, siz, top, q);
      SizeKeptIs(m, m', q);
      hide Prev;
      PrevFrom(m', g', q, p);
    } else if !top {
      hide Prev;
      PrevFrom(m', g', g.low - siz, p);
    }
  }

  lemma GrowBox(m: Mem, g: Map, siz: nat, top: bool, b: nat)
    requires Growable(m, g, siz, top) && b in g.starts
    ensures Box(Made(m, NewAt(g, siz, top), siz, 1), Grown(g, siz, top), b)
  {
    hide Fit, Tiled, Made, SizeKept, Prev;
    GrowRoom(m, g, siz, top);
    GrowSized(m, g, siz, top, b);
    SizeKeptIs(m, Made(m, NewAt(g, siz, top), siz, 1), b);
    GrowPrev(m, g, siz, top, b);
    BoxIs(m, g, b);
  }

  lemma GrowTiled(m: Mem, g: Map, siz: nat, top: bool)
    requires Growable(m, g, siz, top)
    ensures Tiled(Made(m, NewAt(g, siz, top), siz, 1), Grown(g, siz, top))
  {
    hide Fit, Made, Prev, Box, Before, SizeKept;
    var n := NewAt(g, siz, top);
    var m', g' := Made(m, n, siz, 1), Grown(g, siz, top);
    GrowRoom(m, g, siz, top);
    GrowHere(m, g, siz, top);
    GrowPrev(m, g, siz, top, g.high);
    if top { hide *; PrevEnd(m', g', g.high, siz); } else { hide *; PrevLow(m', g', g.low - siz); }
    forall b | b in g'.starts ensures Box(m', g', b) {
      if b != n { GrowBox(m, g, siz, top, b); } else { NewBox(m, g, siz, top); }
    }
    forall b, c | b in g'.starts && c in g'.starts && b < c ensures Before(m', b, c) { GrowBefore(m, g, siz, top, b, c); }
  }

  lemma PrevEnd(m: Mem, g: Map, b: nat, siz: nat)
    requires b in g.starts && m.At(b) == siz == m.At(b + siz - 1) && siz > 0
    ensures Prev(m, g, b + siz)
  {
  }

  lemma NewBox(m: Mem, g: Map, siz: nat, top: bool)
    requires Growable(m, g, siz, top)
    ensures Box(Made(m, NewAt(g, siz, top), siz, 1), Grown(g, siz, top), NewAt(g, siz, top))
  {
    hide Fit, Tiled, Made, Prev;
    GrowRoom(m, g, siz, top);
    GrowHere(m, g, siz, top);
    if top { GrowPrev(m, g, siz, top, g.high); } else { PrevLow(Made(m, NewAt(g, siz, top), siz, 1), Grown(g, siz, top), g.low - siz); }
  }

  lemma GrowBefore(m: Mem, g: Map, siz: nat, top: bool, b: nat, c: nat)
    requires Growable(m, g, siz, top) && b in Grown(g, siz, top).starts && c in Grown(g, siz, top).starts && b < c
    ensures Before(Made(m, NewAt(g, siz, top), siz, 1), b, c)
  {
    hide Fit, Tiled, Made, Prev, Box, SizeKept;
    GrowRoom(m, g, siz, top);
    GrowHere(m, g, siz, top);
    var n := NewAt(g, siz, top);
    if b != n {
      GrowSized(m, g, siz, top, b);
      SizeKeptIs(m, Made(m, n, siz, 1), b);
      BoxRoom(m, g, b);
      if c != n { BeforeIs(m, g, b, c); }
    } else {
      BoxRoom(m, g, c);
    }
  }

  lemma GrowFit(m: Mem, g: Map, siz: nat, top: bool)
    requires Growable(m, g, siz, top)
    ensures
      var n := NewAt(g, siz, top);
      var m', g' := Made(m, n, siz, 1), Grown(g, siz, top);
      Fit(m', g') && Same(m, g, m', g', {n}) && n !in g.starts && m'.At(n) == siz && Used(m', g', n)
    ensures forall b | b in g.starts :: Sized(m, Made(m, NewAt(g, siz, top), siz, 1), b)
  {
    hide Fit, Tiled, Made, Prev, Box, Before, SizeKept;
    var n := NewAt(g, siz, top);
    var m', g' := Made(m, n, siz, 1), Grown(g, siz, top);
    GrowTiled(m, g, siz, top);
    GrowHere(m, g, siz, top);
    GrowRoom(m, g, siz, top);
    FitParts(m, g);
    forall b | b in g.starts ensures Sized(m, m', b) && UseOnly(m, m', b, b) && Intact(m, m', b) && b != n { GrowSized(m, g, siz, top, b); }
    forall b | On(m, g, b) ensures OnSame(m, g, m', g', b) { assert Sized(m, m', b) && UseOnly(m, m', b, b); SizeKeptIs(m, m', b); }
    forall b | On(m', g', b) ensures On(m, g, b) { assert b in g.starts && Sized(m, m', b); }
    forall b | b in g'.out ensures Loose(m', g', b) { assert Loose(m, g, b) && Sized(m, m', b); }
    forall b | Loose(m', g', b) && b !in g'.out ensures b in g.born { assert b != n && Sized(m, m', b); assert Loose(m, g, b); }
    ListsSame(m, g, m', g');
    forall b: nat | b != n ensures Used(m, g, b) <==> Used(m', g', b) { if b in g.starts { assert Sized(m, m', b); } }
  }

  // ---- the whole of a list ----

  /** The boxes of a list from `x` on. */
  ghost function ListFrom(m: Mem, g: Map, x: nat): seq<nat>
    requires Fit(m, g) && (x == 0 || On(m, g, x))
    decreases if x != 0 && x in g.born then g.born[x] + 1 else 0
  {
    if x == 0 then []
    else
      IsLinked(m, g, x);
      [x] + ListFrom(m, g, m.At(x + 3))
  }

  lemma {:induction false} ListNext(m: Mem, g: Map, x: nat, b: nat)
    requires Fit(m, g) && On(m, g, x) && b in ListFrom(m, g, x)
    ensures On(m, g, b) && Slot(m.At(b)) == Slot(m.At(x)) && g.born[b] <= g.born[x]
    ensures m.At(b + 3) != 0 ==> m.At(b + 3) in ListFrom(m, g, x)
    decreases g.born[x]
  {
    hide Fit, Slot;
    IsLinked(m, g, x);
    var nex := m.At(x + 3);
    if b == x {
      if nex != 0 { assert ListFrom(m, g, nex)[0] == nex; }
    } else {
      assert b in ListFrom(m, g, nex);
      if nex == 0 { assert false; }
      ListNext(m, g, nex, b);
    }
  }

  lemma {:induction false} ListHas(m: Mem, g: Map, b: nat)
    requires Fit(m, g) && On(m, g, b)
    ensures var h := m.Head(Slot(m.At(b))); h != 0 && On(m, g, h) && b in ListFrom(m, g, h)
    decreases g.tick - g.born[b]
  {
    hide Fit, Slot;
    IsLinked(m, g, b);
    var pre := m.At(b + 2);
    if pre == 0 {
      assert ListFrom(m, g, b)[0] == b;
    } else {
      IsLinked(m, g, pre);
      ListHas(m, g, pre);
      ListNext(m, g, m.Head(Slot(m.At(b))), pre);
    }
  }

  lemma {:induction false} ListOnce(m: Mem, g: Map, x: nat, i: nat, j: nat)
    requires Fit(m, g) && On(m, g, x) && i < j < |ListFrom(m, g, x)|
    ensures ListFrom(m, g, x)[i] != ListFrom(m, g, x)[j]
    decreases g.born[x]
  {
    hide Fit, Slot;
    IsLinked(m, g, x);
    var l := ListFrom(m, g, x);
    var nex := m.At(x + 3);
    if nex != 0 {
      assert l[1..] == ListFrom(m, g, nex);
      if i > 0 { ListOnce(m, g, nex, i - 1, j - 1); } else {
        assert l[j] in ListFrom(m, g, nex);
        ListNext(m, g, nex, l[j]);
      }
    }
  }

  /** A box with no use that is not being moved is once on the list for its size and on no other;
      the lists hold nothing else. */
  lemma ListExactly(m: Mem, g: Map, k: nat, b: nat)
    requires Fit(m, g) && g.out == {} && k < LISTS
    ensures m.Head(k) == 0 || On(m, g, m.Head(k))
    ensures b in ListFrom(m, g, m.Head(k)) <==> b in g.starts && m.At(b + 1) == 0 && k == Slot(m.At(b))
    ensures
      var l := ListFrom(m, g, m.Head(k));
      forall i, j | 0 <= i < j < |l| :: l[i] != l[j]
  {
    hide Slot, Tiled, Linked, Listed, HeadAt;
    if m.Head(k) != 0 { HeadIs(m, g, k); }
    if b in g.starts && m.At(b + 1) == 0 { assert Listed(m, g, b); OnIs(m, g, b); }
    hide Fit;
    var l := ListFrom(m, g, m.Head(k));
    if On(m, g, b) && k == Slot(m.At(b)) { ListHas(m, g, b); }
    if b in l { ListNext(m, g, m.Head(k), b); }
    forall i, j | 0 <= i < j < |l| ensures l[i] != l[j] { ListOnce(m, g, m.Head(k), i, j); }
  }

  lemma OnIs(m: Mem, g: Map, b: nat)
    requires Listed(m, g, b) && b in g.starts && b !in g.out && m.At(b + 1) == 0
    ensures On(m, g, b)
  {
  }

  // ---- the whole of the heap ----

  /** Every word of the heap is in exactly one box. */
  lemma {:induction false} Covered(m: Mem, g: Map, k: nat) returns (b: nat)
    requires Tiled(m, g) && g.low <= k < g.high
    ensures b in g.starts && b <= k < b + m.At(b)
    ensures forall c | c in g.starts && c <= k < c + m.At(c) :: c == b
    decreases k
  {
    hide Box, Prev, Before, Tiled;
    TiledLow(m, g);
    if k == g.low {
      b := k;
      BoxRoom(m, g, b);
    } else {
      b := Covered(m, g, k - 1);
      BoxIs(m, g, b);
      if k == b + m.At(b) { b := k; BoxRoom(m, g, b); }
    }
    forall c | c in g.starts && c <= k < c + m.At(c) ensures c == b { if c != b { Apart(m, g, c, k - c, b, k - b); } }
  }

  lemma TiledLow(m: Mem, g: Map)
    requires Tiled(m, g)
    ensures 0 < g.low <= g.high <= |m.w| && (g.low == g.high || g.low in g.starts)
  {
  }

  // ---- no two unused neighbours ----

  /** No unused box but `f` has an unused neighbour, or is at the heap's open end; nor does `f`
      below it, if `lo`, or above it, if `hi`. */
  ghost predicate Settled(m: Mem, g: Map, top: bool, f: int, lo: bool, hi: bool) {
    forall b {:trigger SettledAt(m, g, top, f, lo, hi, b)} | b in g.starts :: SettledAt(m, g, top, f, lo, hi, b)
  }

  predicate SettledAt(m: Mem, g: Map, top: bool, f: int, lo: bool, hi: bool, b: nat) {
    var n := b + m.At(b);
    && (b != f && m.At(b + 1) == 0 ==>
          && (n in g.starts && n != f ==> m.At(n + 1) > 0) && (lo ==> n != f)
          && (if top then n != g.high else b != g.low))
    && (b == f && hi ==> n in g.starts ==> m.At(n + 1) > 0)
  }

  ghost predicate Merged(m: Mem, g: Map, top: bool) { Settled(m, g, top, -1, true, true) }

  lemma SettledBox(m: Mem, g: Map, top: bool, f: int, lo: bool, hi: bool, b: nat)
    requires Settled(m, g, top, f, lo, hi) && b in g.starts
    ensures SettledAt(m, g, top, f, lo, hi, b)
  {
  }

  /** Sizes and uses are the same. */
  lemma SettledSame(m: Mem, g: Map, m': Mem, g': Map, top: bool, f: int, lo: bool, hi: bool)
    requires Settled(m, g, top, f, lo, hi) && g'.starts == g.starts && g'.low == g.low && g'.high == g.high
    requires forall b | b in g.starts :: Sized(m, m', b)
    ensures Settled(m', g', top, f, lo, hi)
  {
    forall b | b in g.starts ensures SettledAt(m', g', top, f, lo, hi, b) {
      assert SettledAt(m, g, top, f, lo, hi, b);
      assert Sized(m, m', b);
      if b + m.At(b) in g.starts { assert Sized(m, m', b + m.At(b)); }
    }
  }

  /** A box goes out of use. */
  lemma SettledOut(m: Mem, g: Map, m': Mem, g': Map, top: bool, x: nat)
    requires Merged(m, g, top) && g'.starts == g.starts && g'.low == g.low && g'.high == g.high && x in g.starts && m.At(x + 1) > 0
    requires forall b | b in g.starts :: SizeKept(m, m', b) && (b != x ==> m'.At(b + 1) == m.At(b + 1))
    ensures Settled(m', g', top, x, false, false)
  {
    hide SizeKept;
    forall b | b in g.starts ensures SettledAt(m', g', top, x, false, false, b) {
      SettledBox(m, g, top, -1, true, true, b);
      SizeKeptIs(m, m', b);
    }
  }

  /** `f` joins the unused box below it. */
  lemma SettledBelow(m: Mem, g: Map, m': Mem, g': Map, top: bool, x: nat, f: nat, hi: bool)
    requires Mergeable(m, g, x, f) && Settled(m, g, top, f, false, hi)
    requires m' == Made(m, x, m.At(x) + m.At(f), 0) && g' == MergedMap(g, f)
    ensures Settled(m', g', top, x, true, hi)
  {
    hide Fit, Made, SettledAt, Settled;
    forall b | b in g'.starts ensures SettledAt(m', g', top, x, true, hi, b) { SettledBelowAt(m, g, m', g', top, x, f, hi, b); }
    hide *;
    SettledIs(m', g', top, x, true, hi);
  }

  lemma SettledIs(m: Mem, g: Map, top: bool, f: int, lo: bool, hi: bool)
    requires forall b | b in g.starts :: SettledAt(m, g, top, f, lo, hi, b)
    ensures Settled(m, g, top, f, lo, hi)
  {
  }

  lemma SettledBelowAt(m: Mem, g: Map, m': Mem, g': Map, top: bool, x: nat, f: nat, hi: bool, b: nat)
    requires Mergeable(m, g, x, f) && Settled(m, g, top, f, false, hi)
    requires m' == Made(m, x, m.At(x) + m.At(f), 0) && g' == MergedMap(g, f) && b in g'.starts
    ensures SettledAt(m', g', top, x, true, hi, b)
  {
    hide Fit, Made, SizeKept, Tiled, Settled;
    MergeRoom(m, g, x, f);
    MergeLoose(m, g, x, f);
    SettledBox(m, g, top, f, false, hi, b);
    SettledBox(m, g, top, f, false, hi, f);
    MergeSized(m, g, x, f, b);
    BoxIs(m, g, f);
    if b != x {
      SizeKeptIs(m, m', b);
      BoxIs(m, g, b);
      assert b + m.At(b) != f by { hide *; Apart(m, g, b, m.At(b) - 1, x, m.At(x) - 1); }
    }
    var n := b + m'.At(b);
    if n in g'.starts { MergeSized(m, g, x, f, n); }
  }

  /** `f` is joined by the unused box above it. */
  lemma SettledAbove(m: Mem, g: Map, m': Mem, g': Map, top: bool, f: nat, y: nat, lo: bool)
    requires Mergeable(m, g, f, y) && Settled(m, g, top, f, lo, false)
    requires m' == Made(m, f, m.At(f) + m.At(y), 0) && g' == MergedMap(g, y)
    ensures Settled(m', g', top, f, lo, true)
  {
    hide Fit, Made, SettledAt, Settled;
    forall b | b in g'.starts ensures SettledAt(m', g', top, f, lo, true, b) { SettledAboveAt(m, g, m', g', top, f, y, lo, b); }
    hide *;
    SettledIs(m', g', top, f, lo, true);
  }

  lemma SettledAboveAt(m: Mem, g: Map, m': Mem, g': Map, top: bool, f: nat, y: nat, lo: bool, b: nat)
    requires Mergeable(m, g, f, y) && Settled(m, g, top, f, lo, false)
    requires m' == Made(m, f, m.At(f) + m.At(y), 0) && g' == MergedMap(g, y) && b in g'.starts
    ensures SettledAt(m', g', top, f, lo, true, b)
  {
    hide Fit, Made, SizeKept, Tiled, Settled;
    MergeRoom(m, g, f, y);
    MergeLoose(m, g, f, y);
    SettledBox(m, g, top, f, lo, false, b);
    SettledBox(m, g, top, f, lo, false, y);
    MergeSized(m, g, f, y, b);
    BoxIs(m, g, y);
    if b != f {
      SizeKeptIs(m, m', b);
      BoxIs(m, g, b);
      assert b + m.At(b) != y by { hide *; Apart(m, g, b, m.At(b) - 1, f, m.At(f) - 1); }
    }
    var n := b + m'.At(b);
    if n in g'.starts { MergeSized(m, g, f, y, n); }
  }

  /** Nothing unused is next to `f`, and `f` is not at the open end. */
  lemma SettledAll(m: Mem, g: Map, top: bool, f: nat)
    requires Settled(m, g, top, f, true, true) && Tiled(m, g) && f in g.starts && (if top then f + m.At(f) != g.high else f != g.low)
    ensures Merged(m, g, top)
  {
    hide Tiled;
    forall b | b in g.starts ensures SettledAt(m, g, top, -1, true, true, b) {
      SettledBox(m, g, top, f, true, true, b);
    }
  }

  /** `f` was at the open end, and is given back. */
  lemma SettledEnd(m: Mem, g: Map, top: bool, f: nat)
    requires AtEnd(m, g, f, top) && Settled(m, g, top, f, top, !top)
    ensures Merged(m, Shrunk(m, g, f, top), top)
  {
    hide Fit, Tiled, AtEnd;
    ShrinkRoom(m, g, f, top);
    var g' := Shrunk(m, g, f, top);
    EndIs(m, g, f, top);
    forall b | b in g'.starts ensures SettledAt(m, g', top, -1, true, true, b) {
      SettledBox(m, g, top, f, top, !top, b);
      SettledBox(m, g, top, f, top, !top, f);
      BoxRoom(m, g, b);
      if b + m.At(b) == f && !top { assert false; }
    }
  }

  lemma EndIs(m: Mem, g: Map, x: nat, top: bool)
    requires AtEnd(m, g, x, top)
    ensures if top then x + m.At(x) == g.high else x == g.low
  {
  }

  /** A box comes into use. */
  lemma SettledIn(m: Mem, g: Map, m': Mem, g': Map, top: bool, x: nat)
    requires Merged(m, g, top) && g'.starts == g.starts && g'.low == g.low && g'.high == g.high && x in g.starts && m'.At(x + 1) > 0
    requires forall b | b in g.starts :: SizeKept(m, m', b) && (b != x ==> m'.At(b + 1) == m.At(b + 1))
    ensures Merged(m', g', top)
  {
    hide SizeKept;
    forall b | b in g.starts ensures SettledAt(m', g', top, -1, true, true, b) {
      SettledBox(m, g, top, -1, true, true, b);
      SizeKeptIs(m, m', b);
    }
  }

  /** An unused box comes into use but for its end. */
  lemma SettledDivide(m: Mem, g: Map, top: bool, x: nat, a: nat, use: nat)
    requires Merged(m, g, top) && Divisible(m, g, x, a, use) && m.At(x + 1) == 0
    ensures Merged(Divided(m, x, a, use), DividedMap(g, x, x + a), top)
  {
    hide Fit, Divided, SettledAt, Settled;
    var m', g' := Divided(m, x, a, use), DividedMap(g, x, x + a);
    DivideRoom(m, g, x, a, use);
    forall b | b in g'.starts ensures SettledAt(m', g', top, -1, true, true, b) { SettledDivideAt(m, g, top, x, a, use, b); }
    hide *;
    MergedIs(m', g', top);
  }

  lemma MergedIs(m: Mem, g: Map, top: bool)
    requires forall b | b in g.starts :: SettledAt(m, g, top, -1, true, true, b)
    ensures Merged(m, g, top)
  {
  }

  lemma MergedBox(m: Mem, g: Map, top: bool, b: nat)
    requires Merged(m, g, top) && b in g.starts
    ensures SettledAt(m, g, top, -1, true, true, b)
  {
  }

  lemma SettledDivideAt(m: Mem, g: Map, top: bool, x: nat, a: nat, use: nat, b: nat)
    requires Merged(m, g, top) && Divisible(m, g, x, a, use) && m.At(x + 1) == 0 && (b in g.starts || b == x + a)
    ensures SettledAt(Divided(m, x, a, use), DividedMap(g, x, x + a), top, -1, true, true, b)
  {
    hide Fit, Divided, SizeKept, Tiled, Settled, Merged;
    var m' := Divided(m, x, a, use);
    DivideRoom(m, g, x, a, use);
    DivideHere(m, g, x, a, use);
    MergedBox(m, g, top, x);
    BoxIs(m, g, x);
    hide Divisible;
    if b != x && b != x + a {
      MergedBox(m, g, top, b);
      DivideSized(m, g, x, a, use, b);
      SizeKeptIs(m, m', b);
      BoxIs(m, g, b);
    }
    var n := b + m'.At(b);
    if n in g.starts && n != x { DivideSized(m, g, x, a, use, n); }
  }

  /** A new box in use at the open end. */
  lemma SettledGrow(m: Mem, g: Map, siz: nat, top: bool)
    requires Merged(m, g, top) && Growable(m, g, siz, top)
    ensures Merged(Made(m, NewAt(g, siz, top), siz, 1), Grown(g, siz, top), top)
  {
    hide Fit, Made, SizeKept, Tiled, Settled, Merged, SettledAt;
    var n := NewAt(g, siz, top);
    var m', g' := Made(m, n, siz, 1), Grown(g, siz, top);
    GrowHere(m, g, siz, top);
    forall b | b in g'.starts ensures SettledAt(m', g', top, -1, true, true, b) { SettledGrowAt(m, g, siz, top, b); }
    hide *;
    MergedIs(m', g', top);
  }

  lemma SettledGrowAt(m: Mem, g: Map, siz: nat, top: bool, b: nat)
    requires Merged(m, g, top) && Growable(m, g, siz, top) && b in Grown(g, siz, top).starts
    ensures SettledAt(Made(m, NewAt(g, siz, top), siz, 1), Grown(g, siz, top), top, -1, true, true, b)
  {
    hide Fit, Made, SizeKept, Tiled, Settled, Merged;
    var n := NewAt(g, siz, top);
    var m', g' := Made(m, n, siz, 1), Grown(g, siz, top);
    GrowRoom(m, g, siz, top);
    GrowHere(m, g, siz, top);
    if b != n {
      MergedBox(m, g, top, b);
      GrowSized(m, g, siz, top, b);
      SizeKeptIs(m, m', b);
      BoxIs(m, g, b);
    }
    var e := b + m'.At(b);
    if e in g.starts { GrowSized(m, g, siz, top, e); }
  }

  // ---- joining neighbours ----

  /** What joining loose box `f` with its unused neighbour makes of memory; `x` is the lower of them
      and `y` the higher. */
  function Joined(m: Mem, x: nat, y: nat, listed: nat): Mem {
    var m1 := Detached(m, listed);
    Made(m1, x, m1.At(x) + m1.At(y), 0)
  }

  ghost predicate Joinable(m: Mem, g: Map, x: nat, y: nat, f: nat) {
    && Fit(m, g) && g.out == {f} && x in g.starts && y in g.starts && x + m.At(x) == y && (f == x || f == y)
    && m.At((if f == x then y else x) + 1) == 0
  }

  lemma JoinFacts(m: Mem, g: Map, x: nat, y: nat, f: nat)
    requires Joinable(m, g, x, y, f)
    ensures
      var l := if f == x then y else x;
      var m1, g1 := Detached(m, l), g.(out := {x, y});
      && On(m, g, l) && x != y && Fit(m1, g1) && Same(m, g, m1, g1, {}) && m1.At(x) == m.At(x) && m1.At(y) == m.At(y)
      && Mergeable(m1, g1, x, y) && (forall b | b in g.starts :: Sized(m, m1, b))
  {
    hide Tiled, Linked, HeadAt, SizeKept, Mem.At, Slot;
    BoxRoom(m, g, x);
    var l := if f == x then y else x;
    assert Listed(m, g, l);
    OnIs(m, g, l);
    hide Fit, Listed;
    DetachFit(m, g, l);
    forall b | b in g.starts ensures Sized(m, Detached(m, l), b) { DetachSized(m, g, l, b); }
    assert g.out + {l} == {x, y};
    assert Sized(m, Detached(m, l), x) && Sized(m, Detached(m, l), y);
    SizeKeptIs(m, Detached(m, l), x);
    SizeKeptIs(m, Detached(m, l), y);
  }

  /** Then the two are one loose box. */
  lemma JoinFit(m: Mem, g: Map, x: nat, y: nat, f: nat, top: bool)
    requires Joinable(m, g, x, y, f)
    ensures
      var m', g' := Joined(m, x, y, if f == x then y else x), g.(starts := g.starts - {y}, out := {x});
      && Fit(m', g') && Same(m, g, m', g', {}) && m'.At(x) == m.At(x) + m.At(y)
      && (forall hi :: Settled(m, g, top, f, false, hi) && f == y ==> Settled(m', g', top, x, true, hi))
      && (forall lo :: Settled(m, g, top, f, lo, false) && f == x ==> Settled(m', g', top, x, lo, true))
  {
    hide Fit, Detached, Same, Made, Settled;
    var l := if f == x then y else x;
    JoinFacts(m, g, x, y, f);
    hide Joinable;
    var m1, g1 := Detached(m, l), g.(out := {x, y});
    MergeFit(m1, g1, x, y);
    var m', g' := Joined(m, x, y, l), g.(starts := g.starts - {y}, out := {x});
    assert MergedMap(g1, y) == g' by { assert {x, y} - {y} == {x}; }
    assert m' == Made(m1, x, m1.At(x) + m1.At(y), 0);
    SameTwice(m, g, m1, g1, m', g', {}, {});
    NoneTwice();
    if f == y {
      forall hi | Settled(m, g, top, f, false, hi) ensures Settled(m', g', top, x, true, hi) {
        SettledSame(m, g, m1, g1, top, f, false, hi);
        SettledBelow(m1, g1, m', g', top, x, y, hi);
      }
    } else {
      forall lo | Settled(m, g, top, f, lo, false) ensures Settled(m', g', top, x, lo, true) {
        SettledSame(m, g, m1, g1, top, f, lo, false);
        SettledAbove(m1, g1, m', g', top, x, y, lo);
      }
    }
  }

  /** The box below `f` is in use. */
  lemma SettledLow(m: Mem, g: Map, top: bool, q: nat, f: nat, hi: bool)
    requires Tiled(m, g) && Settled(m, g, top, f, false, hi) && Used(m, g, q) && q + m.At(q) == f
    ensures Settled(m, g, top, f, true, hi)
  {
    hide Tiled;
    forall b | b in g.starts ensures SettledAt(m, g, top, f, true, hi, b) {
      SettledBox(m, g, top, f, false, hi, b);
      if b + m.At(b) == f && b != q { BoxRoom(m, g, q); BoxRoom(m, g, b); Apart(m, g, b, m.At(b) - 1, q, m.At(q) - 1); }
    }
  }

  /** There is no box below `f`. */
  lemma SettledLowest(m: Mem, g: Map, top: bool, f: nat, hi: bool)
    requires Tiled(m, g) && Settled(m, g, top, f, false, hi) && f == g.low
    ensures Settled(m, g, top, f, true, hi)
  {
    hide Tiled;
    forall b | b in g.starts ensures SettledAt(m, g, top, f, true, hi, b) {
      SettledBox(m, g, top, f, false, hi, b);
      BoxRoom(m, g, b);
    }
  }

  /** There is no unused box above `f`. */
  lemma SettledHigh(m: Mem, g: Map, top: bool, f: nat, lo: bool)
    requires Settled(m, g, top, f, lo, false) && (f + m.At(f) in g.starts ==> m.At(f + m.At(f) + 1) > 0)
    ensures Settled(m, g, top, f, lo, true)
  {
    forall b | b in g.starts ensures SettledAt(m, g, top, f, lo, true, b) { SettledBox(m, g, top, f, lo, false, b); }
  }

  lemma NoneTwice()
    ensures var none: set<nat> := {}; none + none == none
  {
  }

  // ---- the words a client owns ----

  /** Writing a client's word of a box in use. */
  lemma DataFit(m: Mem, g: Map, x: nat, k: nat, v: nat)
    requires Fit(m, g) && Used(m, g, x) && x + 2 <= k < x + m.At(x) - 1
    ensures
      var m' := m.Put(k, v);
      && Fit(m', g) && Same(m, g, m', g, {x}) && m'.At(x) == m.At(x) && m'.At(x + 1) == m.At(x + 1) && m'.At(k) == v
      && (forall b | b in g.starts :: Sized(m, m', b))
  {
    hide Box, Prev, Linked, HeadAt, Listed, Slot, Tiled;
    var m' := m.Put(k, v);
    FitParts(m, g);
    BoxRoom(m, g, x);
    forall b | b in g.starts ensures Sized(m, m', b) { DataSized(m, g, x, k, v, b); }
    forall c | c in g.starts ensures SizeKept(m, m', c) { assert Sized(m, m', c); }
    TiledKept(m, g, m', g);
    forall b | On(m, g, b) ensures OnSame(m, g, m', g, b) { DataSized(m, g, x, k, v, b); }
    forall b | On(m', g, b) ensures On(m, g, b) { assert Sized(m, m', b); }
    forall b | b in g.out ensures Loose(m', g, b) { assert Loose(m, g, b) && Sized(m, m', b); }
    forall b | Loose(m', g, b) && b !in g.out ensures b in g.born { assert Sized(m, m', b); assert Loose(m, g, b); }
    ListsSame(m, g, m', g);
    forall b | b != x && Used(m, g, b) ensures Intact(m, m', b) { DataIntact(m, g, x, k, v, b); }
    forall b: nat ensures Used(m, g, b) <==> Used(m', g, b) { if b in g.starts { assert Sized(m, m', b); } }
  }

  lemma DataWord(m: Mem, g: Map, x: nat, k: nat, v: nat, b: nat, j: nat)
    requires Tiled(m, g) && x in g.starts && x <= k < x + m.At(x) && b in g.starts && j < m.At(b) && b != x
    ensures m.Put(k, v).At(b + j) == m.At(b + j)
  {
    hide Tiled;
    BoxRoom(m, g, b);
    Apart(m, g, b, j, x, k - x);
  }

  lemma DataSized(m: Mem, g: Map, x: nat, k: nat, v: nat, b: nat)
    requires Tiled(m, g) && Used(m, g, x) && x + 2 <= k < x + m.At(x) - 1 && b in g.starts
    ensures Sized(m, m.Put(k, v), b) && (b != x ==> m.Put(k, v).At(b + 2) == m.At(b + 2) && m.Put(k, v).At(b + 3) == m.At(b + 3))
  {
    hide Tiled;
    BoxRoom(m, g, b);
    if b != x {
      DataWord(m, g, x, k, v, b, 0);
      DataWord(m, g, x, k, v, b, 1);
      DataWord(m, g, x, k, v, b, 2);
      DataWord(m, g, x, k, v, b, 3);
      DataWord(m, g, x, k, v, b, m.At(b) - 1);
    }
  }

  lemma DataIntact(m: Mem, g: Map, x: nat, k: nat, v: nat, b: nat)
    requires Tiled(m, g) && x in g.starts && x <= k < x + m.At(x) && b in g.starts && b != x
    ensures Intact(m, m.Put(k, v), b)
  {
    hide Tiled;
    var m' := m.Put(k, v);
    BoxRoom(m, g, b);
    forall i: nat | b <= i < b + m.At(b) ensures m'.At(i) == m.At(i) {
      var j := i - b;
      DataWord(m, g, x, k, v, b, j);
      assert b + j == i;
    }
    DataWord(m, g, x, k, v, b, 0);
  }

  /** It makes no difference whether a box's end is put on its list before the box is cut short. */
  lemma AttachEarly(m: Mem, x: nat, a: nat, use: nat, y: nat)
    requires y == x + a && a >= MINIMUM && y + 3 < |m.w|
    requires var nex := m.Head(Slot(m.At(y))); nex != 0 ==> nex + 2 != x && nex + 2 != x + 1 && nex + 2 != y - 1
    ensures Made(Attached(m, y), x, a, use) == Attached(Made(m, x, a, use), y)
  {
    hide Slot;
    var p, q := Made(Attached(m, y), x, a, use), Attached(Made(m, x, a, use), y);
    assert |p.w| == |q.w| && p.fre == q.fre;
    assert p.w == q.w;
  }
}
