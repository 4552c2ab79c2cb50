/** The noun hash table (pkg/urbit/noun/hashtable.c): a hash array mapped trie of nodes indexed by
    bitmap, with buckets at the bottom and a clock-style eviction arm. */
module HashTable {
  import opened Nouns
  import opened Bits

  /** Mugs are 31 bits: 6 for the root's slots, then five fragments of 5 bits. */
  const MUGS: nat := 0x8000_0000

  /** Mugs below a slot at depth `d` from the bottom. */
  function Span(d: nat): (n: nat)
    ensures n > 0
  {
    match d
    case 0 => 1
    case 1 => 0x20
    case 2 => 0x400
    case 3 => 0x8000
    case 4 => 0x10_0000
    case _ => 0x200_0000
  }

  /** What a mug and the others below the same slot have in common. */
  function Pre(mug: nat, d: nat): nat { mug / Span(d) }

  /** The fragment that picks a child at depth `d`. */
  function Frag(mug: nat, d: nat): (b: nat)
    ensures b < 32
  {
    Pre(mug, d) % 32
  }

  lemma PreStep(mug: nat, d: nat)
    requires 0 < d <= 5
    ensures Pre(mug, d - 1) == 32 * Pre(mug, d) + Frag(mug, d - 1)
    ensures mug % Span(d) / Span(d - 1) == Frag(mug, d - 1)
    ensures mug % Span(d) % Span(d - 1) == mug % Span(d - 1)
  {
  }

  lemma PreZero(mug: nat)
    ensures Pre(mug, 0) == mug
  {
  }

  /** A stored line: the value and the bit that spares it from one pass of the arm. */
  datatype Line = Line(val: Noun, warm: bool)

  datatype Row = Row(key: Noun, line: Line)

  datatype Slot = Null | Entry(row: Row) | Node(bits: seq<bool>, slots: seq<Slot>) | Buck(rows: seq<Row>)

  function Popcount(bits: seq<bool>): nat {
    if bits == [] then 0 else (if bits[|bits| - 1] then 1 else 0) + Popcount(bits[..|bits| - 1])
  }

  /** Where the child for fragment `b` is among the slots. */
  function Rank(bits: seq<bool>, b: nat): nat
    requires b <= |bits|
  {
    Popcount(bits[..b])
  }

  lemma RankStep(bits: seq<bool>, b: nat)
    requires b < |bits|
    ensures Rank(bits, b + 1) == Rank(bits, b) + if bits[b] then 1 else 0
  {
    assert bits[..b + 1][..b] == bits[..b];
  }

  lemma {:induction false} RankOrder(bits: seq<bool>, b: nat, c: nat)
    requires b <= c <= |bits|
    ensures Rank(bits, b) <= Rank(bits, c)
    ensures b < c && bits[b] ==> Rank(bits, b) < Rank(bits, c)
    decreases c - b
  {
    if b < c {
      RankStep(bits, b);
      RankOrder(bits, b + 1, c);
    }
  }

  lemma RankBound(bits: seq<bool>, b: nat)
    requires b < |bits| && bits[b]
    ensures Rank(bits, b) < Popcount(bits)
  {
    RankOrder(bits, b, |bits|);
    assert bits[..|bits|] == bits;
  }

  /** Setting a clear bit moves the ranks past it up by one; clearing a set bit moves them down. */
  lemma {:induction false} RankSet(bits: seq<bool>, b: nat, c: nat)
    requires b < |bits| && c <= |bits| && !bits[b]
    ensures Rank(bits[b := true], c) == Rank(bits, c) + if c > b then 1 else 0
    decreases c
  {
    var on := bits[b := true];
    if c == 0 {
    } else {
      RankStep(bits, c - 1);
      RankStep(on, c - 1);
      RankSet(bits, b, c - 1);
    }
  }

  lemma PopSet(bits: seq<bool>, b: nat)
    requires b < |bits| && !bits[b]
    ensures Popcount(bits[b := true]) == Popcount(bits) + 1
  {
    RankSet(bits, b, |bits|);
    assert bits[..|bits|] == bits && bits[b := true][..|bits|] == bits[b := true];
  }

  // ---- what a slot represents ----

  function Mug(h: Noun -> nat, key: Noun): (m: nat)
    ensures m < MUGS
  {
    h(key) % MUGS
  }

  predicate Below(h: Noun -> nat, key: Noun, d: nat, pre: nat) { Pre(Mug(h, key), d) == pre }

  /** No key of the map belongs below this slot. */
  ghost predicate Free(h: Noun -> nat, d: nat, pre: nat, m: map<Noun, Line>) {
    forall k | k in m :: !Below(h, k, d, pre)
  }

  /** The slot holds exactly the lines of the map whose keys belong below it. */
  ghost predicate Rep(h: Noun -> nat, s: Slot, d: nat, pre: nat, m: map<Noun, Line>)
    decreases s, 1
  {
    match s
    case Null => Free(h, d, pre, m)
    case Entry(row) => Stored(h, row, d, pre, m) && forall k | k in m && Below(h, k, d, pre) :: k == row.key
    case Buck(rows) => d == 0 && |rows| >= 2 && RepRows(h, rows, pre, m)
    case Node(bits, slots) =>
      0 < d <= 5 && |bits| == 32 && Popcount(bits) == |slots| &&
      forall b | 0 <= b < 32 :: RepChild(h, s, d, pre, b, m)
  }

  ghost predicate Stored(h: Noun -> nat, row: Row, d: nat, pre: nat, m: map<Noun, Line>) {
    row.key in m && m[row.key] == row.line && Below(h, row.key, d, pre)
  }

  ghost predicate RepRows(h: Noun -> nat, rows: seq<Row>, pre: nat, m: map<Noun, Line>) {
    && (forall j | 0 <= j < |rows| :: Stored(h, rows[j], 0, pre, m))
    && (forall i, j | 0 <= i < j < |rows| :: rows[i].key != rows[j].key)
    && (forall k | k in m && Below(h, k, 0, pre) :: KeyIn(rows, k))
  }

  ghost predicate KeyIn(rows: seq<Row>, k: Noun) { exists j :: 0 <= j < |rows| && rows[j].key == k }

  ghost predicate RepChild(h: Noun -> nat, s: Slot, d: nat, pre: nat, b: nat, m: map<Noun, Line>)
    requires s.Node? && |s.bits| == 32 && Popcount(s.bits) == |s.slots| && b < 32 && d > 0
    decreases s, 0
  {
    if s.bits[b] then
      RankBound(s.bits, b);
      var c := s.slots[Rank(s.bits, b)];
      !c.Null? && Rep(h, c, d - 1, 32 * pre + b, m)
    else Free(h, d - 1, 32 * pre + b, m)
  }

  /** Maps that agree on the keys below a slot. */
  ghost predicate Alike(h: Noun -> nat, d: nat, pre: nat, m: map<Noun, Line>, n: map<Noun, Line>) {
    forall k | Below(h, k, d, pre) :: (k in m <==> k in n) && (k in m ==> m[k] == n[k])
  }

  /** Only the lines below a slot matter to it. */
  lemma {:induction false} RepAlike(h: Noun -> nat, s: Slot, d: nat, pre: nat, m: map<Noun, Line>, n: map<Noun, Line>)
    requires Rep(h, s, d, pre, m) && Alike(h, d, pre, m, n)
    ensures Rep(h, s, d, pre, n)
    decreases s
  {
    hide Below;
    if s.Node? {
      forall b | 0 <= b < 32 ensures RepChild(h, s, d, pre, b, n) {
        assert RepChild(h, s, d, pre, b, m);
        AlikeChild(h, d, pre, b, m, n);
        if s.bits[b] {
          RankBound(s.bits, b);
          RepAlike(h, s.slots[Rank(s.bits, b)], d - 1, 32 * pre + b, m, n);
        }
      }
    }
  }

  lemma AlikeChild(h: Noun -> nat, d: nat, pre: nat, b: nat, m: map<Noun, Line>, n: map<Noun, Line>)
    requires 0 < d <= 5 && b < 32 && Alike(h, d, pre, m, n)
    ensures Alike(h, d - 1, 32 * pre + b, m, n)
  {
    forall k | Below(h, k, d - 1, 32 * pre + b) ensures Below(h, k, d, pre) { PreStep(Mug(h, k), d); }
  }

  /** A change to one key leaves every slot it does not belong below alone. */
  lemma AlikeApart(h: Noun -> nat, d: nat, pre: nat, m: map<Noun, Line>, n: map<Noun, Line>, key: Noun)
    requires !Below(h, key, d, pre) && m - {key} == n - {key}
    ensures Alike(h, d, pre, m, n)
  {
    forall k | Below(h, k, d, pre) ensures (k in m <==> k in n) && (k in m ==> m[k] == n[k]) {
      assert k in m <==> k in m - {key};
      assert k in n <==> k in n - {key};
    }
  }

  /** Away from one child. */
  ghost predicate Elsewhere(h: Noun -> nat, d: nat, pre: nat, b: nat, m: map<Noun, Line>, n: map<Noun, Line>)
    requires d > 0
  {
    forall c | 0 <= c < 32 && c != b :: AlikeAt(h, d, pre, c, m, n)
  }

  ghost predicate AlikeAt(h: Noun -> nat, d: nat, pre: nat, c: nat, m: map<Noun, Line>, n: map<Noun, Line>)
    requires d > 0
  {
    Alike(h, d - 1, 32 * pre + c, m, n)
  }

  /** What a node says of the child for one fragment. */
  lemma Child(h: Noun -> nat, s: Slot, d: nat, pre: nat, b: nat, m: map<Noun, Line>)
    requires s.Node? && Rep(h, s, d, pre, m) && b < 32
    ensures
      && 0 < d <= 5 && |s.bits| == 32
      && if s.bits[b] then
           var r := Rank(s.bits, b);
           r < |s.slots| && !s.slots[r].Null? && Rep(h, s.slots[r], d - 1, 32 * pre + b, m)
         else Free(h, d - 1, 32 * pre + b, m)
  {
    hide Free;
    assert RepChild(h, s, d, pre, b, m);
    if s.bits[b] { RankBound(s.bits, b); }
  }

  lemma FreeAlike(h: Noun -> nat, d: nat, pre: nat, m: map<Noun, Line>, n: map<Noun, Line>)
    requires Free(h, d, pre, m) && Alike(h, d, pre, m, n)
    ensures Free(h, d, pre, n)
  {
    hide Below;
  }

  lemma ElsewhereKey(h: Noun -> nat, d: nat, pre: nat, key: Noun, m: map<Noun, Line>, n: map<Noun, Line>)
    requires 0 < d <= 5 && Below(h, key, d, pre) && m - {key} == n - {key}
    ensures Elsewhere(h, d, pre, Frag(Mug(h, key), d - 1), m, n)
    ensures Below(h, key, d - 1, 32 * pre + Frag(Mug(h, key), d - 1))
  {
    PreStep(Mug(h, key), d);
    var b := Frag(Mug(h, key), d - 1);
    forall c | 0 <= c < 32 && c != b ensures AlikeAt(h, d, pre, c, m, n) {
      AlikeApart(h, d - 1, 32 * pre + c, m, n, key);
    }
  }

  lemma OtherRank(bits: seq<bool>, b: nat, c: nat)
    requires b < |bits| && c < |bits| && b != c && bits[b] && bits[c]
    ensures Rank(bits, b) != Rank(bits, c)
  {
    if b < c { RankOrder(bits, b, c); } else { RankOrder(bits, c, b); }
  }

  /** The child for another fragment, in a map that differs elsewhere. */
  lemma Spared(h: Noun -> nat, s: Slot, d: nat, pre: nat, b: nat, x: nat, m: map<Noun, Line>, n: map<Noun, Line>)
    requires s.Node? && Rep(h, s, d, pre, m) && b < 32 && x < 32 && x != b && d > 0 && Elsewhere(h, d, pre, b, m, n)
    ensures
      && 0 < d <= 5 && |s.bits| == 32
      && if s.bits[x] then
           var r := Rank(s.bits, x);
           r < |s.slots| && !s.slots[r].Null? && Rep(h, s.slots[r], d - 1, 32 * pre + x, n)
         else Free(h, d - 1, 32 * pre + x, n)
  {
    hide Rep, Free, Below, Rank, Popcount, Alike;
    Child(h, s, d, pre, x, m);
    assert AlikeAt(h, d, pre, x, m, n);
    if s.bits[x] {
      RepAlike(h, s.slots[Rank(s.bits, x)], d - 1, 32 * pre + x, m, n);
    } else {
      FreeAlike(h, d - 1, 32 * pre + x, m, n);
    }
  }

  /** A node from its children. */
  lemma Assembled(h: Noun -> nat, s: Slot, d: nat, pre: nat, n: map<Noun, Line>)
    requires s.Node? && 0 < d <= 5 && |s.bits| == 32 && Popcount(s.bits) == |s.slots|
    requires forall x | 0 <= x < 32 :: RepChild(h, s, d, pre, x, n)
    ensures Rep(h, s, d, pre, n)
  {
    hide RepChild, Popcount;
  }

  lemma NodeShape(h: Noun -> nat, s: Slot, d: nat, pre: nat, m: map<Noun, Line>)
    requires s.Node? && Rep(h, s, d, pre, m)
    ensures 0 < d <= 5 && |s.bits| == 32 && Popcount(s.bits) == |s.slots|
  {
    hide RepChild, Popcount;
  }

  lemma ChildRep(h: Noun -> nat, s: Slot, d: nat, pre: nat, b: nat, n: map<Noun, Line>)
    requires s.Node? && 0 < d <= 5 && |s.bits| == 32 && Popcount(s.bits) == |s.slots| && b < 32
    requires
      if s.bits[b] then
        var r := Rank(s.bits, b);
        r < |s.slots| && !s.slots[r].Null? && Rep(h, s.slots[r], d - 1, 32 * pre + b, n)
      else Free(h, d - 1, 32 * pre + b, n)
    ensures RepChild(h, s, d, pre, b, n)
  {
    hide Rep, Free;
  }

  /** Replace the child of a set bit. */
  lemma NodeSet(h: Noun -> nat, s: Slot, d: nat, pre: nat, b: nat, m: map<Noun, Line>, n: map<Noun, Line>, c: Slot)
    requires s.Node? && Rep(h, s, d, pre, m) && b < 32 && |s.bits| == 32 && s.bits[b] && d > 0 && Elsewhere(h, d, pre, b, m, n)
    requires !c.Null? && Rep(h, c, d - 1, 32 * pre + b, n)
    ensures Rank(s.bits, b) < |s.slots| && Rep(h, s.(slots := s.slots[Rank(s.bits, b) := c]), d, pre, n)
  {
    hide Rep, Free, Below, Rank, Popcount, RepChild, Elsewhere;
    NodeShape(h, s, d, pre, m);
    Child(h, s, d, pre, b, m);
    var s' := s.(slots := s.slots[Rank(s.bits, b) := c]);
    forall x | 0 <= x < 32 ensures RepChild(h, s', d, pre, x, n) {
      if x != b {
        Spared(h, s, d, pre, b, x, m, n);
        if s.bits[x] { OtherRank(s.bits, x, b); }
      }
      ChildRep(h, s', d, pre, x, n);
    }
    Assembled(h, s', d, pre, n);
  }

  /** Where a child goes when another is inserted before or after it. */
  lemma RankInserted(bits: seq<bool>, b: nat, x: nat)
    requires b < |bits| && x < |bits| && x != b && !bits[b] && bits[x]
    ensures
      var r, q, q' := Rank(bits, b), Rank(bits, x), Rank(bits[b := true], x);
      if x < b then q' == q < r else q' == q + 1 && q >= r
  {
    hide Popcount;
    RankSet(bits, b, x);
    if x < b { RankOrder(bits, x, b); } else { RankOrder(bits, b, x); }
  }

  /** Add a child for a clear bit. */
  lemma NodeInsert(h: Noun -> nat, s: Slot, d: nat, pre: nat, b: nat, m: map<Noun, Line>, n: map<Noun, Line>, c: Slot)
    requires s.Node? && Rep(h, s, d, pre, m) && b < 32 && |s.bits| == 32 && !s.bits[b] && d > 0 && Elsewhere(h, d, pre, b, m, n)
    requires !c.Null? && Rep(h, c, d - 1, 32 * pre + b, n)
    ensures
      var r := Rank(s.bits, b);
      r <= |s.slots| && Rep(h, Node(s.bits[b := true], s.slots[..r] + [c] + s.slots[r..]), d, pre, n)
  {
    hide Rep, Free, Below, Rank, Popcount, RepChild, Elsewhere;
    NodeShape(h, s, d, pre, m);
    var r := Rank(s.bits, b);
    RankLast(s.bits, b);
    PopSet(s.bits, b);
    RankSet(s.bits, b, b);
    var s' := Node(s.bits[b := true], s.slots[..r] + [c] + s.slots[r..]);
    forall x | 0 <= x < 32 ensures RepChild(h, s', d, pre, x, n) {
      if x != b {
        Spared(h, s, d, pre, b, x, m, n);
        if s.bits[x] { RankInserted(s.bits, b, x); }
      }
      ChildRep(h, s', d, pre, x, n);
    }
    Assembled(h, s', d, pre, n);
  }

  lemma RankLast(bits: seq<bool>, b: nat)
    requires b <= |bits|
    ensures Rank(bits, b) <= Popcount(bits)
  {
    RankOrder(bits, b, |bits|);
    assert bits[..|bits|] == bits;
  }

  /** Drop the child of a set bit, nothing being left below it. */
  lemma NodeRemove(h: Noun -> nat, s: Slot, d: nat, pre: nat, b: nat, m: map<Noun, Line>, n: map<Noun, Line>)
    requires s.Node? && Rep(h, s, d, pre, m) && b < 32 && |s.bits| == 32 && s.bits[b] && d > 0 && Elsewhere(h, d, pre, b, m, n)
    requires Free(h, d - 1, 32 * pre + b, n)
    ensures
      var r := Rank(s.bits, b);
      r < |s.slots| && Rep(h, Node(s.bits[b := false], s.slots[..r] + s.slots[r + 1..]), d, pre, n)
  {
    hide Rep, Free, Below, Rank, Popcount, RepChild, Elsewhere;
    NodeShape(h, s, d, pre, m);
    Child(h, s, d, pre, b, m);
    var r := Rank(s.bits, b);
    var off := s.bits[b := false];
    assert off[b := true] == s.bits;
    PopSet(off, b);
    RankSet(off, b, b);
    var s' := Node(off, s.slots[..r] + s.slots[r + 1..]);
    forall x | 0 <= x < 32 ensures RepChild(h, s', d, pre, x, n) {
      if x != b {
        Spared(h, s, d, pre, b, x, m, n);
        if s.bits[x] { RankInserted(off, b, x); }
      }
      ChildRep(h, s', d, pre, x, n);
    }
    Assembled(h, s', d, pre, n);
  }

  // ---- reading ----

  function Lookup(m: map<Noun, Line>, key: Noun): Option<Noun> { if key in m then Some(m[key].val) else None }

  /** Read in a bucket. */
  method BuckGit(h: Noun -> nat, rows: seq<Row>, key: Noun, ghost m: map<Noun, Line>) returns (r: Option<Noun>)
    requires RepRows(h, rows, Mug(h, key), m)
    ensures r == Lookup(m, key)
  {
    PreZero(Mug(h, key));
    for i := 0 to |rows|
      invariant forall j | 0 <= j < i :: rows[j].key != key
    {
      if rows[i].key == key {
        assert Stored(h, rows[i], 0, Mug(h, key), m);
        return Some(rows[i].line.val);
      }
    }
    assert key in m && Below(h, key, 0, Mug(h, key)) ==> KeyIn(rows, key);
    r := None;
  }

  /** Read in a node. */
  method NodeGit(h: Noun -> nat, s: Slot, d: nat, rem: nat, key: Noun, ghost pre: nat, ghost m: map<Noun,
          Line>) returns (r: Option<Noun>)
    requires s.Node? && Rep(h, s, d, pre, m) && Below(h, key, d, pre) && rem == Mug(h, key) % Span(d)
    ensures r == Lookup(m, key)
    decreases d
  {
    hide Span, Mug, Rank, Popcount, RepChild;
    NodeShape(h, s, d, pre, m);
    PreStep(Mug(h, key), d);
    ElsewhereKey(h, d, pre, key, m, m);
    var lef := d - 1;
    var bit := rem / Span(lef);
    Child(h, s, d, pre, bit, m);
    if !s.bits[bit] { return None; }
    var c := s.slots[Rank(s.bits, bit)];
    match c
    case Entry(row) =>
      assert Stored(h, row, lef, 32 * pre + bit, m);
      r := if key == row.key then Some(row.line.val) else None;
    case Buck(rows) =>
      PreZero(Mug(h, key));
      r := BuckGit(h, rows, key, m);
    case Node(_, _) => r := NodeGit(h, c, lef, rem % Span(lef), key, 32 * pre + bit, m);
    case Null =>
  }

  // ---- writing ----

  /** Add to a bucket, replacing the line of an equal key. */
  method BuckAdd(h: Noun -> nat, rows: seq<Row>, row: Row, ghost pre: nat, ghost m: map<Noun,
          Line>) returns (rows': seq<Row>, isNew: bool)
    requires RepRows(h, rows, pre, m) && Below(h, row.key, 0, pre)
    ensures RepRows(h, rows', pre, m[row.key := row.line]) && |rows'| >= |rows|
    ensures isNew == (row.key !in m)
  {
    hide Below;
    ghost var n := m[row.key := row.line];
    for i := 0 to |rows|
      invariant forall j | 0 <= j < i :: rows[j].key != row.key
    {
      if rows[i].key == row.key {
        rows' := rows[i := row];
        isNew := false;
        assert Stored(h, rows[i], 0, pre, m);
        forall j | 0 <= j < |rows| ensures Stored(h, rows'[j], 0, pre, n) { assert Stored(h, rows[j], 0, pre, m); }
        forall k | k in n && Below(h, k, 0, pre) ensures KeyIn(rows', k) {
          assert KeyIn(rows, k);
          var j :| 0 <= j < |rows| && rows[j].key == k;
          assert rows'[j].key == k;
        }
        return;
      }
    }
    assert row.key in m && Below(h, row.key, 0, pre) ==> KeyIn(rows, row.key);
    rows', isNew := [row] + rows, true;
    forall j | 0 <= j < |rows'| ensures Stored(h, rows'[j], 0, pre, n) {
      if j > 0 { assert Stored(h, rows[j - 1], 0, pre, m); }
    }
    forall k | k in n && Below(h, k, 0, pre) ensures KeyIn(rows', k) {
      if k == row.key {
        assert rows'[0].key == k;
      } else {
        assert KeyIn(rows, k);
        var j :| 0 <= j < |rows| && rows[j].key == k;
        assert rows'[j + 1].key == k;
      }
    }
  }

  const NO_BITS: seq<bool> := seq(32, i => false)

  lemma {:induction false} NoBitsRank(b: nat)
    requires b <= 32
    ensures Rank(NO_BITS, b) == 0
  {
    if b > 0 {
      RankStep(NO_BITS, b - 1);
      NoBitsRank(b - 1);
    }
  }

  /** An empty node represents no lines. */
  lemma EmptyNode(h: Noun -> nat, d: nat, pre: nat)
    requires 0 < d <= 5
    ensures Rep(h, Node(NO_BITS, []), d, pre, map[])
  {
    var s := Node(NO_BITS, []);
    NoBitsRank(32);
    assert NO_BITS[..32] == NO_BITS;
    forall b | 0 <= b < 32 ensures RepChild(h, s, d, pre, b, map[]) {}
  }

  lemma OneEntry(h: Noun -> nat, row: Row, d: nat, pre: nat)
    requires Below(h, row.key, d, pre)
    ensures Rep(h, Entry(row), d, pre, map[row.key := row.line])
  {
  }

  /** Two lines with different keys below one slot: nodes down to where their mugs differ, or a
      bucket if they do not. */
  method Two(h: Noun -> nat, had: Row, add: Row, d: nat, ham: nat, mad: nat, ghost pre: nat) returns (s: Slot)
    requires d <= 5 && Below(h, had.key, d, pre) && Below(h, add.key, d, pre) && had.key != add.key
    requires ham == Mug(h, had.key) % Span(d) && mad == Mug(h, add.key) % Span(d)
    ensures !s.Null? && Rep(h, s, d, pre, map[had.key := had.line, add.key := add.line])
    decreases d
  {
    hide Span, Below, Mug, Rank, Popcount, Elsewhere, RepChild;
    ghost var m := map[had.key := had.line, add.key := add.line];
    if d == 0 {
      hide Rep;
      s := Buck([had, add]);
      TwoRows(h, had, add, pre);
    } else {
      hide Rep;
      var lef := d - 1;
      PreStep(Mug(h, had.key), d);
      PreStep(Mug(h, add.key), d);
      OneLine(had, add);
      ElsewhereKey(h, d, pre, had.key, map[], map[had.key := had.line]);
      ElsewhereKey(h, d, pre, add.key, map[had.key := had.line], m);
      EmptyNode(h, d, pre);
      var hop, tad := ham / Span(lef), mad / Span(lef);
      NoBitsRank(hop);
      if hop == tad {
        var c := Two(h, had, add, lef, ham % Span(lef), mad % Span(lef), 32 * pre + hop);
        ElsewhereTwo(h, d, pre, hop, map[], map[had.key := had.line], m);
        NodeInsert(h, Node(NO_BITS, []), d, pre, hop, map[], m, c);
        InsertFirst(c);
        s := Node(NO_BITS[hop := true], [c]);
      } else {
        OneEntry(h, had, lef, 32 * pre + hop);
        NodeInsert(h, Node(NO_BITS, []), d, pre, hop, map[], map[had.key := had.line], Entry(had));
        InsertFirst(Entry(had));
        InsertOne(Entry(had), Entry(add));
        var one := Node(NO_BITS[hop := true], [Entry(had)]);
        TwoRank(hop, tad);
        EntryAmong(h, add, had, lef, 32 * pre + tad, hop, tad, pre);
        NodeInsert(h, one, d, pre, tad, map[had.key := had.line], m, Entry(add));
        s := Node(NO_BITS[hop := true][tad := true], if hop < tad then [Entry(had), Entry(add)] else [Entry(add), Entry(had)]);
      }
    }
  }

  lemma TwoRows(h: Noun -> nat, had: Row, add: Row, pre: nat)
    requires Below(h, had.key, 0, pre) && Below(h, add.key, 0, pre) && had.key != add.key
    ensures Rep(h, Buck([had, add]), 0, pre, map[had.key := had.line, add.key := add.line])
  {
    hide Below;
    var m, rows := map[had.key := had.line, add.key := add.line], [had, add];
    assert rows[0] == had && rows[1] == add;
    forall k | k in m && Below(h, k, 0, pre) ensures KeyIn(rows, k) { assert k == rows[0].key || k == rows[1].key; }
  }

  lemma InsertFirst(c: Slot)
    ensures [][..0] + [c] + [][0..] == [c]
  {
  }

  lemma InsertOne(x: Slot, c: Slot)
    ensures [x][..0] + [c] + [x][0..] == [c, x] && [x][..1] + [c] + [x][1..] == [x, c]
  {
  }

  lemma OneLine(had: Row, add: Row)
    requires had.key != add.key
    ensures map[] - {had.key} == map[had.key := had.line] - {had.key}
    ensures map[had.key := had.line] - {add.key} == map[had.key := had.line, add.key := add.line] - {add.key}
  {
  }

  lemma ElsewhereTwo(h: Noun -> nat, d: nat, pre: nat, b: nat, l: map<Noun, Line>, m: map<Noun, Line>,
          n: map<Noun, Line>)
    requires d > 0 && Elsewhere(h, d, pre, b, l, m) && Elsewhere(h, d, pre, b, m, n)
    ensures Elsewhere(h, d, pre, b, l, n)
  {
    hide Below;
    forall c | 0 <= c < 32 && c != b ensures AlikeAt(h, d, pre, c, l, n) {
      assert AlikeAt(h, d, pre, c, l, m) && AlikeAt(h, d, pre, c, m, n);
    }
  }

  lemma TwoRank(hop: nat, tad: nat)
    requires hop < 32 && tad < 32 && hop != tad
    ensures Rank(NO_BITS[hop := true], tad) == if hop < tad then 1 else 0
  {
    hide Popcount;
    RankSet(NO_BITS, hop, tad);
    NoBitsRank(tad);
  }

  lemma EntryAmong(h: Noun -> nat, add: Row, had: Row, d: nat, pre': nat, hop: nat, tad: nat, pre: nat)
    requires Below(h, add.key, d, pre') && Below(h, had.key, d, 32 * pre + hop) && pre' == 32 * pre + tad && hop != tad
    requires had.key != add.key
    ensures Rep(h, Entry(add), d, pre', map[had.key := had.line, add.key := add.line])
  {
  }

  /** Store a line below a slot that is in use. */
  method SlotPut(h: Noun -> nat, s: Slot, d: nat, rem: nat, row: Row, ghost pre: nat, ghost m: map<Noun, Line>)
    returns (s': Slot, isNew: bool)
    requires !s.Null? && d <= 5 && Rep(h, s, d, pre, m) && Below(h, row.key, d, pre) && rem == Mug(h, row.key) % Span(d)
    ensures !s'.Null? && Rep(h, s', d, pre, m[row.key := row.line]) && isNew == (row.key !in m)
    decreases d, 1
  {
    hide Span, Mug, Below;
    match s
    case Buck(rows) =>
      var rows';
      rows', isNew := BuckAdd(h, rows, row, pre, m);
      s' := Buck(rows');
    case Node(_, _) =>
      s', isNew := NodeAdd(h, s, d, rem, row, pre, m);
    case Entry(had) =>
      isNew := had.key != row.key;
      if isNew {
        s' := Two(h, had, row, d, Mug(h, had.key) % Span(d), rem, pre);
        EntryMap(h, had, d, pre, m, row);
        RepAlike(h, s', d, pre, map[had.key := had.line, row.key := row.line], m[row.key := row.line]);
      } else {
        s' := Entry(row);
      }
    case Null =>
  }

  lemma EntryMap(h: Noun -> nat, had: Row, d: nat, pre: nat, m: map<Noun, Line>, row: Row)
    requires Rep(h, Entry(had), d, pre, m)
    ensures Alike(h, d, pre, map[had.key := had.line, row.key := row.line], m[row.key := row.line])
  {
    hide Below;
  }

  /** Store a line in a node: in the child for its fragment, or as a new child. */
  method NodeAdd(h: Noun -> nat, s: Slot, d: nat, rem: nat, row: Row, ghost pre: nat, ghost m: map<Noun, Line>)
    returns (s': Slot, isNew: bool)
    requires s.Node? && d <= 5 && Rep(h, s, d, pre, m) && Below(h, row.key, d, pre) && rem == Mug(h, row.key) % Span(d)
    ensures s'.Node? && Rep(h, s', d, pre, m[row.key := row.line]) && isNew == (row.key !in m)
    decreases d, 0
  {
    hide Span, Mug, Below, Rank, Popcount, Rep, RepChild, Elsewhere;
    NodeShape(h, s, d, pre, m);
    ghost var n := m[row.key := row.line];
    assert m - {row.key} == n - {row.key};
    var lef := d - 1;
    PreStep(Mug(h, row.key), d);
    ElsewhereKey(h, d, pre, row.key, m, n);
    var bit := rem / Span(lef);
    var inx := Rank(s.bits, bit);
    Child(h, s, d, pre, bit, m);
    if s.bits[bit] {
      var c;
      c, isNew := SlotPut(h, s.slots[inx], lef, rem % Span(lef), row, 32 * pre + bit, m);
      NodeSet(h, s, d, pre, bit, m, n, c);
      s' := s.(slots := s.slots[inx := c]);
    } else {
      EntryAlone(h, row, lef, 32 * pre + bit, m);
      NodeInsert(h, s, d, pre, bit, m, n, Entry(row));
      s', isNew := Node(s.bits[bit := true], s.slots[..inx] + [Entry(row)] + s.slots[inx..]), true;
    }
  }

  lemma EntryAlone(h: Noun -> nat, row: Row, d: nat, pre: nat, m: map<Noun, Line>)
    requires Below(h, row.key, d, pre) && Free(h, d, pre, m)
    ensures Rep(h, Entry(row), d, pre, m[row.key := row.line]) && row.key !in m
  {
    hide Below;
  }

  // ---- trimming ----

  /** What trimming may do: drop lines, and cool those that stay. */
  ghost predicate Trimmed(m: map<Noun, Line>, n: map<Noun, Line>) {
    n.Keys <= m.Keys && forall k | k in n :: n[k].val == m[k].val && (n[k].warm ==> m[k].warm)
  }

  /** Maps that agree on the keys not below a slot. */
  ghost predicate Outside(h: Noun -> nat, d: nat, pre: nat, m: map<Noun, Line>, n: map<Noun, Line>) {
    forall k | !Below(h, k, d, pre) :: (k in m <==> k in n) && (k in m ==> m[k] == n[k])
  }

  /** A change outside a slot of the same depth. */
  lemma OutsideAlike(h: Noun -> nat, d: nat, pre: nat, pre': nat, m: map<Noun, Line>, n: map<Noun, Line>)
    requires Outside(h, d, pre, m, n) && pre != pre'
    ensures Alike(h, d, pre', m, n)
  {
    forall k | Below(h, k, d, pre') ensures (k in m <==> k in n) && (k in m ==> m[k] == n[k]) {}
  }

  lemma OutsideChild(h: Noun -> nat, d: nat, pre: nat, b: nat, m: map<Noun, Line>, n: map<Noun, Line>)
    requires 0 < d <= 5 && b < 32 && Outside(h, d - 1, 32 * pre + b, m, n)
    ensures Outside(h, d, pre, m, n) && Elsewhere(h, d, pre, b, m, n)
  {
    forall k | !Below(h, k, d, pre) ensures !Below(h, k, d - 1, 32 * pre + b) { PreStep(Mug(h, k), d); }
    forall c | 0 <= c < 32 && c != b ensures AlikeAt(h, d, pre, c, m, n) { OutsideAlike(h, d - 1, 32 * pre + b, 32 * pre + c, m, n); }
  }

  function Cold(row: Row): Row { Row(row.key, row.line.(warm := false)) }

  lemma CoolRow(h: Noun -> nat, rows: seq<Row>, pre: nat, m: map<Noun, Line>, i: nat)
    requires RepRows(h, rows, pre, m) && i < |rows|
    ensures
      var n := m[rows[i].key := Cold(rows[i]).line];
      rows[i].key in m && m[rows[i].key] == rows[i].line && Below(h, rows[i].key, 0, pre) && RepRows(h, rows[i := Cold(rows[i])], pre, n)
  {
    hide Below;
    var rows', n := rows[i := Cold(rows[i])], m[rows[i].key := Cold(rows[i]).line];
    assert Stored(h, rows[i], 0, pre, m);
    forall j | 0 <= j < |rows| ensures Stored(h, rows'[j], 0, pre, n) { assert Stored(h, rows[j], 0, pre, m); }
    forall k | k in n && Below(h, k, 0, pre) ensures KeyIn(rows', k) {
      assert KeyIn(rows, k);
      var j :| 0 <= j < |rows| && rows[j].key == k;
      assert rows'[j].key == k;
    }
  }

  lemma DropRow(h: Noun -> nat, rows: seq<Row>, pre: nat, m: map<Noun, Line>, i: nat)
    requires RepRows(h, rows, pre, m) && i < |rows|
    ensures rows[i].key in m && Below(h, rows[i].key, 0, pre) && RepRows(h, rows[..i] + rows[i + 1..], pre, m - {rows[i].key})
  {
    hide Below;
    var rows', n := rows[..i] + rows[i + 1..], m - {rows[i].key};
    assert Stored(h, rows[i], 0, pre, m);
    forall j | 0 <= j < |rows'| ensures Stored(h, rows'[j], 0, pre, n) { assert Stored(h, rows[if j < i then j else j + 1], 0, pre, m); }
    forall k | k in n && Below(h, k, 0, pre) ensures KeyIn(rows', k) {
      assert KeyIn(rows, k);
      var j :| 0 <= j < |rows| && rows[j].key == k;
      assert rows'[if j < i then j else j - 1].key == k;
    }
  }

  /** A bucket of one line is that line. */
  lemma SoleRow(h: Noun -> nat, rows: seq<Row>, pre: nat, m: map<Noun, Line>)
    requires RepRows(h, rows, pre, m) && |rows| == 1
    ensures Rep(h, Entry(rows[0]), 0, pre, m)
  {
    hide Below;
    assert Stored(h, rows[0], 0, pre, m);
    forall k | k in m && Below(h, k, 0, pre) ensures k == rows[0].key { assert KeyIn(rows, k); }
  }

  lemma CoolLine(h: Noun -> nat, d: nat, pre: nat, m: map<Noun, Line>, l: map<Noun, Line>, k: Noun)
    requires Trimmed(m, l) && Outside(h, d, pre, m, l) && l.Keys == m.Keys && k in l && l[k].warm && Below(h, k, d, pre)
    ensures
      var n := l[k := l[k].(warm := false)];
      Trimmed(m, n) && Outside(h, d, pre, m, n) && n.Keys == m.Keys && n != m
  {
    hide Below;
    var n := l[k := l[k].(warm := false)];
    assert n[k] != m[k];
  }

  lemma DropLine(h: Noun -> nat, d: nat, pre: nat, m: map<Noun, Line>, l: map<Noun, Line>, k: Noun)
    requires Trimmed(m, l) && Outside(h, d, pre, m, l) && l.Keys == m.Keys && k in l && Below(h, k, d, pre)
    ensures Trimmed(m, l - {k}) && Outside(h, d, pre, m, l - {k}) && |l - {k}| + 1 == |m|
  {
    hide Below;
    var n := l - {k};
    assert n.Keys == l.Keys - {k};
    assert |m.Keys| == |l.Keys|;
    assert |n.Keys| == |l.Keys| - 1;
  }

  /** Past the mugs that share the prefix of `mug`, round to zero at the end. */
  function Skip(mug: nat, d: nat): nat { (Pre(mug, d) + 1) % Blocks(d) * Span(d) }

  /** How many prefixes there are. */
  function Blocks(d: nat): (n: nat)
    ensures n > 0
  {
    match d
    case 0 => 0x8000_0000
    case 1 => 0x400_0000
    case 2 => 0x20_0000
    case 3 => 0x1_0000
    case 4 => 0x800
    case _ => 0x40
  }

  /** The arm moved without touching a line: past mugs that no key has, or out of a bucket it had
      already gone through. */
  ghost predicate Advanced(h: Noun -> nat, m: map<Noun, Line>, arm: nat, inx: nat, arm': nat, inx': nat) {
    (inx' == 0 < inx) || (inx' == inx && exists d :: Passed(h, m, arm, arm', d))
  }

  ghost predicate Passed(h: Noun -> nat, m: map<Noun, Line>, arm: nat, arm': nat, d: nat) {
    d <= 5 && arm' == Skip(arm, d) && Free(h, d, Pre(arm, d), m)
  }

  /** The outcome of trimming below a slot. */
  ghost predicate Trim(h: Noun -> nat, d: nat, pre: nat, arm: nat, inx: nat, m: map<Noun, Line>,
                       yes: bool, arm': nat, inx': nat, n: map<Noun, Line>)
  {
    && Trimmed(m, n) && Outside(h, d, pre, m, n) && arm' < MUGS
    && (yes ==> |n| + 1 == |m|)
    && (!yes ==> n.Keys == m.Keys && (n != m || Advanced(h, m, arm, inx, arm', inx')))
  }

  lemma SpanBlocks(d: nat)
    requires d <= 5
    ensures Span(d) * Blocks(d) == MUGS
  {
  }

  lemma ModUpTo(p: nat, b: nat)
    requires 0 < p <= b
    ensures p % b == if p == b then 0 else p
  {
  }

  lemma MulStep(s: nat, p: nat)
    ensures s * (p + 1) == s * p + s
  {
  }

  lemma Wrapped(s: nat, b: nat, p: nat, r: nat)
    requires s * b == MUGS && s * p + r < MUGS && r < s
    ensures p < b && (p + 1) % b == (if p + 1 == b then 0 else p + 1)
    ensures s * p + s <= MUGS && (s * p + s == MUGS <==> p + 1 == b)
  {
    MulMono(s, b, p);
    MulMono(s, p, b);
    MulMono(s, p + 1, b);
    MulStep(s, p);
    if p < b { ModUpTo(p + 1, b); }
  }

  /** Where the mugs that share a prefix begin and end. */
  lemma Block(arm: nat, d: nat)
    requires d <= 5 && arm < MUGS
    ensures
      var lo := arm - arm % Span(d);
      var hi := lo + Span(d);
      lo <= arm < hi <= MUGS && Skip(arm, d) == if hi == MUGS then 0 else hi
  {
    hide Span, Blocks;
    var s, p, r := Span(d), arm / Span(d), arm % Span(d);
    SpanBlocks(d);
    assert arm == s * p + r;
    Wrapped(s, Blocks(d), p, r);
    MulStep(s, p);
  }

  lemma SkipInRange(mug: nat, d: nat)
    requires d <= 5 && mug < MUGS
    ensures Skip(mug, d) < MUGS
  {
    hide Span, Skip;
    Block(mug, d);
  }

  lemma TrimAbove(h: Noun -> nat, d: nat, pre: nat, b: nat, arm: nat, inx: nat, m: map<Noun, Line>,
                  yes: bool, arm': nat, inx': nat, n: map<Noun, Line>)
    requires 0 < d <= 5 && b < 32 && Trim(h, d - 1, 32 * pre + b, arm, inx, m, yes, arm', inx', n)
    ensures Trim(h, d, pre, arm, inx, m, yes, arm', inx', n) && Elsewhere(h, d, pre, b, m, n)
  {
    hide Advanced, Elsewhere, Below;
    OutsideChild(h, d, pre, b, m, n);
  }

  /** Trim one line of a bucket, from the arm's index on; warm lines met on the way are cooled. */
  method TrimBuck(h: Noun -> nat, s: Slot, arm: nat, inx: nat, ghost pre: nat, ghost m: map<Noun, Line>)
    returns (yes: bool, s': Slot, arm': nat, inx': nat, ghost n: map<Noun, Line>)
    requires s.Buck? && Rep(h, s, 0, pre, m) && arm < MUGS
    ensures Trim(h, 0, pre, arm, inx, m, yes, arm', inx', n) && !s'.Null? && Rep(h, s', 0, pre, n)
  {
    hide Below, RepRows, Skip, Outside, Trimmed;
    var rows := s.rows;
    n := m;
    Unchanged(h, 0, pre, m);
    arm', inx' := arm, inx;
    while inx' < |rows|
      invariant RepRows(h, rows, pre, n) && |rows| == |s.rows| && Trimmed(m, n) && Outside(h, 0, pre, m, n) && n.Keys == m.Keys
      invariant inx' >= inx && (inx' > inx ==> n != m)
      decreases |rows| - inx'
    {
      CoolRow(h, rows, pre, n, inx');
      if rows[inx'].line.warm {
        CoolLine(h, 0, pre, m, n, rows[inx'].key);
        n := n[rows[inx'].key := Cold(rows[inx']).line];
        rows := rows[inx' := Cold(rows[inx'])];
        inx' := inx' + 1;
      } else {
        DropRow(h, rows, pre, n, inx');
        DropLine(h, 0, pre, m, n, rows[inx'].key);
        n := n - {rows[inx'].key};
        rows := rows[..inx'] + rows[inx' + 1..];
        if |rows| == 1 {
          SoleRow(h, rows, pre, n);
          s', inx' := Entry(rows[0]), 0;
        } else {
          s', inx' := Buck(rows), inx' + 1;
        }
        yes := true;
        return;
      }
    }
    arm', inx' := (arm + 1) % MUGS, 0;
    yes, s' := false, Buck(rows);
  }

  lemma Unchanged(h: Noun -> nat, d: nat, pre: nat, m: map<Noun, Line>)
    ensures Trimmed(m, m) && Outside(h, d, pre, m, m)
  {
  }

  /** Trim a line that stands alone: cool it, or drop it if it is cold. */
  method TrimEntry(h: Noun -> nat, s: Slot, d: nat, arm: nat, inx: nat, ghost pre: nat, ghost m: map<Noun, Line>)
    returns (yes: bool, s': Slot, arm': nat, ghost n: map<Noun, Line>)
    requires s.Entry? && d <= 5 && Rep(h, s, d, pre, m) && arm < MUGS
    ensures Trim(h, d, pre, arm, inx, m, yes, arm', inx, n) && Rep(h, s', d, pre, n) && (s'.Null? <==> yes)
  {
    hide Below, Skip, Outside, Trimmed;
    SkipInRange(arm, d);
    Unchanged(h, d, pre, m);
    arm' := Skip(arm, d);
    ghost var k := s.row.key;
    if s.row.line.warm {
      CoolLine(h, d, pre, m, m, k);
      n := m[k := m[k].(warm := false)];
      yes, s' := false, Entry(Cold(s.row));
    } else {
      DropLine(h, d, pre, m, m, k);
      n := m - {k};
      yes, s' := true, Null;
    }
  }

  /** Trim below a slot that is in use. */
  method TrimSlot(h: Noun -> nat, s: Slot, d: nat, rem: nat, arm: nat, inx: nat, ghost pre: nat,
          ghost m: map<Noun, Line>)
    returns (yes: bool, s': Slot, arm': nat, inx': nat, ghost n: map<Noun, Line>)
    requires !s.Null? && d <= 5 && Rep(h, s, d, pre, m) && arm < MUGS && Pre(arm, d) == pre && rem == arm % Span(d)
    ensures Trim(h, d, pre, arm, inx, m, yes, arm', inx', n) && Rep(h, s', d, pre, n) && (!yes ==> !s'.Null?)
    decreases d, 1
  {
    hide Trim;
    match s
    case Entry(_) =>
      yes, s', arm', n := TrimEntry(h, s, d, arm, inx, pre, m);
      inx' := inx;
    case Buck(_) => yes, s', arm', inx', n := TrimBuck(h, s, arm, inx, pre, m);
    case Node(_, _) => yes, s', arm', inx', n := TrimNode(h, s, d, rem, arm, inx, pre, m);
    case Null =>
  }

  lemma {:induction false} SomeBit(bits: seq<bool>) returns (b: nat)
    requires Popcount(bits) > 0
    ensures b < |bits| && bits[b]
  {
    b := |bits| - 1;
    if !bits[b] { b := SomeBit(bits[..b]); }
  }

  /** A node with a single line below it is that line. */
  lemma SoleEntry(h: Noun -> nat, s: Slot, row: Row, d: nat, pre: nat, m: map<Noun, Line>)
    requires s.Node? && s.slots == [Entry(row)] && Rep(h, s, d, pre, m)
    ensures Rep(h, Entry(row), d, pre, m)
  {
    hide Below, RepChild, Rank;
    NodeShape(h, s, d, pre, m);
    var b := SomeBit(s.bits);
    Child(h, s, d, pre, b, m);
    assert Stored(h, row, d - 1, 32 * pre + b, m);
    BelowChild(h, row.key, d, pre, b);
    forall k | k in m && Below(h, k, d, pre) ensures k == row.key {
      PreStep(Mug(h, k), d);
      FragBelow(h, k, d, pre);
      Child(h, s, d, pre, Frag(Mug(h, k), d - 1), m);
    }
  }

  lemma BelowChild(h: Noun -> nat, k: Noun, d: nat, pre: nat, b: nat)
    requires 0 < d <= 5 && b < 32 && Below(h, k, d - 1, 32 * pre + b)
    ensures Below(h, k, d, pre)
  {
    PreStep(Mug(h, k), d);
  }

  lemma FragBelow(h: Noun -> nat, k: Noun, d: nat, pre: nat)
    requires 0 < d <= 5 && Below(h, k, d, pre)
    ensures Below(h, k, d - 1, 32 * pre + Frag(Mug(h, k), d - 1))
  {
    PreStep(Mug(h, k), d);
  }

  /** Trim below a node: the child the arm points at. A child left empty is dropped; a node left
      with one line becomes that line. */
  method TrimNode(h: Noun -> nat, s: Slot, d: nat, rem: nat, arm: nat, inx: nat, ghost pre: nat,
          ghost m: map<Noun, Line>)
    returns (yes: bool, s': Slot, arm': nat, inx': nat, ghost n: map<Noun, Line>)
    requires s.Node? && d <= 5 && Rep(h, s, d, pre, m) && arm < MUGS && Pre(arm, d) == pre && rem == arm % Span(d)
    ensures Trim(h, d, pre, arm, inx, m, yes, arm', inx', n) && Rep(h, s', d, pre, n) && !s'.Null?
    decreases d, 0
  {
    hide Span, Below, Rank, Popcount, Rep, RepChild, Elsewhere, Trim, Skip, Free;
    NodeShape(h, s, d, pre, m);
    PreStep(arm, d);
    var lef := d - 1;
    var bit := rem / Span(lef);
    Child(h, s, d, pre, bit, m);
    if !s.bits[bit] {
      SkipInRange(arm, lef);
      NothingThere(h, d, pre, arm, inx, m);
      return false, s, Skip(arm, lef), inx, m;
    }
    var r := Rank(s.bits, bit);
    var c;
    yes, c, arm', inx', n := TrimSlot(h, s.slots[r], lef, rem % Span(lef), arm, inx, 32 * pre + bit, m);
    TrimAbove(h, d, pre, bit, arm, inx, m, yes, arm', inx', n);
    if !c.Null? {
      NodeSet(h, s, d, pre, bit, m, n, c);
      s' := s.(slots := s.slots[r := c]);
    } else {
      NullFree(h, lef, 32 * pre + bit, n);
      NodeRemove(h, s, d, pre, bit, m, n);
      s' := Node(s.bits[bit := false], s.slots[..r] + s.slots[r + 1..]);
      var ken := if r == 0 then 1 else 0;
      if |s.slots| == 2 && s.slots[ken].Entry? {
        assert s'.slots == [s.slots[ken]];
        SoleEntry(h, s', s.slots[ken].row, d, pre, n);
        s' := s.slots[ken];
      }
    }
  }

  lemma NullFree(h: Noun -> nat, d: nat, pre: nat, m: map<Noun, Line>)
    requires Rep(h, Null, d, pre, m)
    ensures Free(h, d, pre, m)
  {
  }

  lemma NothingThere(h: Noun -> nat, d: nat, pre: nat, arm: nat, inx: nat, m: map<Noun, Line>)
    requires 0 < d <= 5 && arm < MUGS && Free(h, d - 1, Pre(arm, d - 1), m) && Skip(arm, d - 1) < MUGS
    ensures Trim(h, d, pre, arm, inx, m, false, Skip(arm, d - 1), inx, m)
  {
    hide Skip, Free;
    assert Passed(h, m, arm, Skip(arm, d - 1), d - 1);
  }

  // ---- the arm always comes round ----

  function Dist(arm: nat, t: nat): int { if t >= arm then t - arm else t - arm + MUGS }

  lemma OutOfBlock(arm: nat, d: nat, lo: nat, hi: nat, t: nat)
    requires d <= 5 && lo == arm - arm % Span(d) && hi == lo + Span(d) && Pre(t, d) != Pre(arm, d)
    ensures t < lo || t >= hi
  {
    hide Span;
    var s := Span(d);
    if lo <= t < hi {
      SameQuotient(arm, t, s);
    }
  }

  lemma SameQuotient(a: nat, t: nat, s: nat)
    requires s > 0 && a - a % s <= t < a - a % s + s
    ensures t / s == a / s
  {
    DivUnique(t, s, a / s, t - (a - a % s));
  }

  /** Passing mugs that no key has brings the arm nearer to every key. */
  lemma Nearer(arm: nat, d: nat, t: nat)
    requires d <= 5 && arm < MUGS && t < MUGS && Pre(t, d) != Pre(arm, d)
    ensures 0 <= Dist(Skip(arm, d), t) < Dist(arm, t)
  {
    hide Span, Pre, Skip;
    var lo, hi := arm - arm % Span(d), arm - arm % Span(d) + Span(d);
    Block(arm, d);
    OutOfBlock(arm, d, lo, hi, t);
  }

  ghost function WarmKeys(m: map<Noun, Line>): set<Noun> { set k | k in m && m[k].warm }

  lemma Cooler(m: map<Noun, Line>, n: map<Noun, Line>)
    requires Trimmed(m, n)
    ensures |WarmKeys(n)| <= |WarmKeys(m)| && |n| <= |m|
    ensures n.Keys == m.Keys && n != m ==> |WarmKeys(n)| < |WarmKeys(m)|
  {
    Subset(WarmKeys(n), WarmKeys(m));
    Subset(n.Keys, m.Keys);
    if n.Keys == m.Keys && n != m {
      var k :| k in m && n[k] != m[k];
      assert k in WarmKeys(m) && k !in WarmKeys(n);
      Subset(WarmKeys(n), WarmKeys(m) - {k});
    }
  }

  lemma Subset<T>(a: set<T>, b: set<T>)
    requires a <= b
    ensures |a| <= |b|
  {
    assert b == a + (b - a);
    assert |b| == |a| + |b - a|;
  }

  /** The table: lines in use, the bound (0 for none), the arm and the root's slots. */
  class Root {
    const h: Noun -> nat
    const max: nat
    var use: nat
    var arm: nat
    var inx: nat
    var sot: seq<Slot>
    ghost var m: map<Noun, Line>

    ghost predicate Valid()
      reads this
    {
      |sot| == 64 && arm < MUGS && use == |m| && forall i | 0 <= i < 64 :: Rep(h, sot[i], 5, i, m)
    }

    constructor (h: Noun -> nat, max: nat)
      ensures Valid() && m == map[] && this.h == h && this.max == max
    {
      this.h, this.max := h, max;
      use, arm, inx, m := 0, 0, 0, map[];
      sot := seq(64, i => Null);
    }

    /** The latest value stored for a key, if it is still there. */
    method Git(key: Noun) returns (r: Option<Noun>)
      requires Valid()
      modifies this`sot, this`m
      ensures Valid() && r == Lookup(old(m), key)
      ensures m.Keys == old(m).Keys && forall k | k in m :: m[k].val == old(m)[k].val && (m[k] != old(m)[k] ==> k == key)
    {
      hide Span, Below;
      var i := Mug(h, key) / Span(5);
      InRoot(h, key);
      match sot[i]
      case Null => r := None;
      case Entry(row) =>
        if row.key != key { return None; }
        r := Some(row.line.val);
        var warm := Row(key, row.line.(warm := true));
        ghost var n := m[key := warm.line];
        assert m - {key} == n - {key};
        RootsAlike(h, sot, i, m, n, key);
        sot := sot[i := Entry(warm)];
        m := n;
      case Node(_, _) => r := NodeGit(h, sot[i], 5, Mug(h, key) % Span(5), key, i, m);
      case Buck(_) =>
    }

    /** Store a value. A bounded table then evicts down to its bound. */
    method Put(key: Noun, val: Noun)
      requires Valid()
      modifies this
      ensures Valid()
      ensures max == 0 ==> m == old(m)[key := Line(val, true)]
      ensures Trimmed(old(m)[key := Line(val, true)], m)
      ensures max > 0 ==> |m| == if |old(m)[key := Line(val, true)]| > max then max else |old(m)[key := Line(val, true)]|
    {
      hide Span, Below, Rep, Trimmed;
      var i, row := Mug(h, key) / Span(5), Row(key, Line(val, true));
      ghost var n := m[key := row.line];
      InRoot(h, key);
      assert m - {key} == n - {key};
      RootsAlike(h, sot, i, m, n, key);
      PutSize(m, key, row.line);
      if sot[i].Null? {
        NullFree(h, 5, i, m);
        EntryAlone(h, row, 5, i, m);
        sot := sot[i := Entry(row)];
        use := use + 1;
      } else {
        var s, isNew := SlotPut(h, sot[i], 5, Mug(h, key) % Span(5), row, i, m);
        sot := sot[i := s];
        use := use + if isNew then 1 else 0;
      }
      m := n;
      Unchanged(h, 5, i, n);
      if max > 0 { TrimTo(max); }
    }

    /** One step of the arm. */
    method TrimRoot() returns (yes: bool)
      requires Valid()
      modifies this`arm, this`inx, this`sot, this`m
      ensures |sot| == 64 && arm < MUGS && (forall i | 0 <= i < 64 :: Rep(h, sot[i], 5, i, m))
      ensures Trimmed(old(m), m)
      ensures yes ==> |m| + 1 == |old(m)|
      ensures !yes ==> m.Keys == old(m).Keys && (m != old(m) || Advanced(h, old(m), old(arm), old(inx), arm, inx))
    {
      hide Span, Below, Rep, Trimmed, Free, Skip, Advanced;
      var i := arm / Span(5);
      ArmInRoot(arm);
      Unchanged(h, 5, i, m);
      if sot[i].Null? {
        NullFree(h, 5, i, m);
        SkipInRange(arm, 5);
        Moved(h, m, arm, inx);
        arm := Skip(arm, 5);
        return false;
      }
      var s, a, x;
      ghost var n;
      yes, s, a, x, n := TrimSlot(h, sot[i], 5, arm % Span(5), arm, inx, i, m);
      forall j | 0 <= j < 64 && j != i ensures Rep(h, sot[j], 5, j, n) {
        OutsideAlike(h, 5, i, j, m, n);
        RepAlike(h, sot[j], 5, j, m, n);
      }
      sot := sot[i := s];
      arm, inx, m := a, x, n;
    }

    /** Evict until at most `n` lines are left. It ends whatever the table: every step drops a line,
        cools one, leaves a bucket, or brings the arm nearer to a given key. */
    method TrimTo(n: nat)
      requires Valid()
      modifies this`use, this`arm, this`inx, this`sot, this`m
      ensures Valid() && Trimmed(old(m), m)
      ensures |m| == if |old(m)| > n then n else |old(m)|
    {
      hide Span, Below, Rep, Skip, Dist, Trimmed, Advanced;
      Unchanged(h, 5, 0, m);
      while use > n
        invariant Valid() && Trimmed(old(m), m)
        invariant |m| <= |old(m)| && (|old(m)| > n ==> |m| >= n) && (|old(m)| <= n ==> m == old(m))
        decreases |m|, |WarmKeys(m)|, if inx > 0 then 1 else 0, Nearest(h, m, arm)
      {
        ghost var was, arm0, inx0 := m, arm, inx;
        var yes := TrimRoot();
        Cooler(was, m);
        TrimmedTwice(old(m), was, m);
        if yes {
          use := use - 1;
        } else {
          assert |was.Keys| == |m.Keys|;
          if m == was { ArmMoved(h, was, arm0, inx0, arm, inx); }
        }
      }
    }
  }

  lemma TrimmedTwice(l: map<Noun, Line>, m: map<Noun, Line>, n: map<Noun, Line>)
    requires Trimmed(l, m) && Trimmed(m, n)
    ensures Trimmed(l, n)
  {
  }

  lemma PutSize(m: map<Noun, Line>, k: Noun, l: Line)
    ensures |m[k := l]| == |m| + if k in m then 0 else 1
  {
    assert m[k := l].Keys == m.Keys + {k};
  }

  lemma InRoot(h: Noun -> nat, key: Noun)
    ensures Mug(h, key) / Span(5) < 64 && Below(h, key, 5, Mug(h, key) / Span(5))
  {
  }

  lemma ArmInRoot(arm: nat)
    requires arm < MUGS
    ensures arm / Span(5) < 64 && Pre(arm, 5) == arm / Span(5)
  {
  }

  lemma RootsAlike(h: Noun -> nat, sot: seq<Slot>, i: nat, m: map<Noun, Line>, n: map<Noun, Line>, key: Noun)
    requires |sot| == 64 && (forall j | 0 <= j < 64 :: Rep(h, sot[j], 5, j, m)) && m - {key} == n - {key} && Below(h, key, 5, i)
    ensures forall j | 0 <= j < 64 && j != i :: Rep(h, sot[j], 5, j, n)
  {
    hide Rep;
    forall j | 0 <= j < 64 && j != i ensures Rep(h, sot[j], 5, j, n) {
      AlikeApart(h, 5, j, m, n, key);
      RepAlike(h, sot[j], 5, j, m, n);
    }
  }

  lemma Moved(h: Noun -> nat, m: map<Noun, Line>, arm: nat, inx: nat)
    requires Free(h, 5, Pre(arm, 5), m)
    ensures Advanced(h, m, arm, inx, Skip(arm, 5), inx)
  {
    hide Skip, Free;
    assert Passed(h, m, arm, Skip(arm, 5), 5);
  }

  /** The distance from the arm to some key, the same one whatever the arm. */
  ghost function Nearest(h: Noun -> nat, m: map<Noun, Line>, arm: nat): nat
    requires arm < MUGS
  {
    if m.Keys == {} then 0 else var k :| k in m; Dist(arm, Mug(h, k))
  }

  lemma ArmMoved(h: Noun -> nat, m: map<Noun, Line>, arm: nat, inx: nat, arm': nat, inx': nat)
    requires Advanced(h, m, arm, inx, arm', inx') && arm < MUGS && arm' < MUGS && m.Keys != {}
    ensures (inx' == 0 < inx) || (inx' == inx && Nearest(h, m, arm') < Nearest(h, m, arm))
  {
    hide Span, Skip, Dist, Mug;
    if inx' == inx && !(inx' == 0 < inx) {
      var d :| Passed(h, m, arm, arm', d);
      forall k | k in m ensures Dist(arm', Mug(h, k)) < Dist(arm, Mug(h, k)) { Nearer(arm, d, Mug(h, k)); }
    }
  }
}
