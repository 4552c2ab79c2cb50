/** The preorder walk every encoder makes: a stack of nouns still to be written
    (pkg/urbit/ur/hashcons.c:963-1006). */
module JamWalk {
  import opened Nouns
  import opened Bits
  import opened BitWriter
  import opened JamSpec

  /** Serialize a stack of nouns, the last one first. */
  function JamAll(ns: seq<Noun>, pos: nat, seen: map<Noun, nat>): Jammed
    decreases |ns|
  {
    if ns == [] then Jammed([], seen)
    else
      var x := Jam(ns[|ns| - 1], pos, seen);
      var y := JamAll(ns[..|ns| - 1], pos + |x.bits|, x.seen);
      Jammed(x.bits + y.bits, y.seen)
  }

  /** What remains to be walked. */
  function Weight(ns: seq<Noun>): nat {
    if ns == [] then 0 else Size(ns[|ns| - 1]) + Weight(ns[..|ns| - 1])
  }

  lemma SizePositive(n: Noun)
    ensures Size(n) > 0
  {
  }

  /** Writing the top of the stack and popping it. */
  lemma PopTop(ns: seq<Noun>, written: seq<bool>, seen: map<Noun, nat>)
    requires ns != []
    ensures
      var x := Jam(ns[|ns| - 1], |written|, seen);
      var rest := ns[..|ns| - 1];
      && written + JamAll(ns, |written|, seen).bits == (written + x.bits) + JamAll(rest, |written + x.bits|, x.seen).bits
      && JamAll(ns, |written|, seen).seen == JamAll(rest, |written + x.bits|, x.seen).seen
      && Weight(rest) < Weight(ns)
  {
    hide Jam;
    SizePositive(ns[|ns| - 1]);
    var x := Jam(ns[|ns| - 1], |written|, seen);
    Assoc(written, x.bits, JamAll(ns[..|ns| - 1], |written| + |x.bits|, x.seen).bits);
  }

  /** Writing the tag of a new cell and going on to its head and then its tail. */
  lemma PushCell(ns: seq<Noun>, n: Noun, written: seq<bool>, seen: map<Noun, nat>)
    requires n.Cell? && n !in seen
    ensures
      && written + JamAll(ns + [n], |written|, seen).bits
         == (written + CELL_BITS) + JamAll(ns + [n.tail, n.head], |written + CELL_BITS|, seen[n := |written|]).bits
      && JamAll(ns + [n], |written|, seen).seen == JamAll(ns + [n.tail, n.head], |written + CELL_BITS|, seen[n := |written|]).seen
      && Weight(ns + [n.tail, n.head]) < Weight(ns + [n])
  {
    hide Jam, JamAll, Weight, Size;
    var pos := |written|;
    CellSize(n);
    JamCell(n, pos, seen);
    var x := Jam(n.head, pos + 2, seen[n := pos]);
    var y := Jam(n.tail, pos + 2 + |x.bits|, x.seen);
    var z := JamAll(ns, pos + 2 + |x.bits| + |y.bits|, y.seen);
    JamTop(ns, n, pos, seen);
    JamTop(ns + [n.tail], n.head, pos + 2, seen[n := pos]);
    JamTop(ns, n.tail, pos + 2 + |x.bits|, x.seen);
    assert (ns + [n.tail]) + [n.head] == ns + [n.tail, n.head];
    assert written + (CELL_BITS + (x.bits + y.bits) + z.bits) == (written + CELL_BITS) + (x.bits + (y.bits + z.bits));
  }

  lemma CellSize(n: Noun)
    requires n.Cell?
    ensures Size(n) == 1 + Size(n.head) + Size(n.tail)
  {
  }

  lemma JamTop(ns: seq<Noun>, n: Noun, pos: nat, seen: map<Noun, nat>)
    ensures
      var x := Jam(n, pos, seen);
      JamAll(ns + [n], pos, seen) == Jammed(x.bits + JamAll(ns, pos + |x.bits|, x.seen).bits, JamAll(ns, pos + |x.bits|, x.seen).seen)
    ensures Weight(ns + [n]) == Size(n) + Weight(ns)
  {
    assert (ns + [n])[..|ns|] == ns;
  }

  /** The whole walk. */
  lemma JamOne(n: Noun)
    ensures [] + JamAll([n], 0, map[]).bits == JamBits(n) && JamAll([n], 0, map[]).seen == Jam(n, 0, map[]).seen
  {
    hide Jam, JamAll;
    JamTop([], n, 0, map[]);
    var x := Jam(n, 0, map[]);
    NothingLeft(|x.bits|, x.seen);
    assert [] + [n] == [n];
    assert JamBits(n) + [] == JamBits(n);
  }

  lemma NothingLeft(pos: nat, seen: map<Noun, nat>)
    ensures JamAll([], pos, seen) == Jammed([], seen)
  {
  }
}
