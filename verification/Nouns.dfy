/** Nouns, tree addressing and tree editing, as the Nock 4K specification defines them
    (doc/spec/nock/4.txt), together with the top-down forms the runtime uses. */
module Nouns {

  datatype Option<+T> = None | Some(value: T)

  datatype Noun = Atom(value: nat) | Cell(head: Noun, tail: Noun)

  const YES := Atom(0)
  const NO := Atom(1)

  function Loob(b: bool): Noun { if b then YES else NO }

  /** The `/` reductions: even axes are heads, odd ones tails, of the axis halved. */
  function At(axis: nat, b: Noun): Option<Noun> {
    if axis == 0 then None
    else if axis == 1 then Some(b)
    else
      match At(axis / 2, b)
      case Some(Cell(h, t)) => Some(if axis % 2 == 0 then h else t)
      case _ => None
  }

  /** The `#` reductions: replace the part of `c` at `axis` by `b`. */
  function Edit(axis: nat, b: Noun, c: Noun): Option<Noun> {
    if axis == 0 then None
    else if axis == 1 then Some(b)
    else if axis % 2 == 0 then
      match At(axis + 1, c)
      case Some(x) => Edit(axis / 2, Cell(b, x), c)
      case None => None
    else
      match At(axis - 1, c)
      case Some(x) => Edit(axis / 2, Cell(x, b), c)
      case None => None
  }

  /** An axis given as a noun: only atoms address anything. */
  function AtNoun(axis: Noun, b: Noun): Option<Noun> {
    if axis.Atom? then At(axis.value, b) else None
  }

  function EditNoun(axis: Noun, b: Noun, c: Noun): Option<Noun> {
    if axis.Atom? then Edit(axis.value, b, c) else None
  }

  /** The first step from the root that an axis names: 2 for the head, 3 for the tail. */
  function Cap(axis: nat): (r: nat)
    requires axis > 1
    ensures r == 2 || r == 3
  {
    if axis <= 3 then axis else Cap(axis / 2)
  }

  /** The axis that remains after the first step. */
  function Mas(axis: nat): (r: nat)
    requires axis > 1
    ensures 1 <= r < axis
  {
    if axis <= 3 then 1 else 2 * Mas(axis / 2) + axis % 2
  }

  /** The part of a cell that `Cap` selects. */
  function Branch(cap: nat, b: Noun): Option<Noun> {
    match b
    case Cell(h, t) => Some(if cap == 2 then h else t)
    case Atom(_) => None
  }

  /** Addressing from the root down agrees with the specification's bottom-up rule. */
  lemma {:induction false} AtFromRoot(axis: nat, b: Noun)
    requires axis > 1
    ensures At(axis, b) == (match Branch(Cap(axis), b) case Some(x) => At(Mas(axis), x) case None => None)
  {
    assert At(1, b) == Some(b);
    if axis > 3 {
      AtFromRoot(axis / 2, b);
      assert Mas(axis) / 2 == Mas(axis / 2) && Mas(axis) % 2 == axis % 2;
    }
  }

  /** Editing from the root down, as the runtime recurs. */
  function EditDown(axis: nat, b: Noun, c: Noun): Option<Noun> {
    if axis == 0 then None
    else if axis == 1 then Some(b)
    else
      match c
      case Atom(_) => None
      case Cell(h, t) =>
        match EditDown(Mas(axis), b, if Cap(axis) == 2 then h else t)
        case None => None
        case Some(x) => Some(if Cap(axis) == 2 then Cell(x, t) else Cell(h, x))
  }

  /** The other part of the cell that an axis is in. */
  function Sibling(axis: nat): nat
    requires axis > 1
  {
    if axis % 2 == 0 then axis + 1 else axis - 1
  }

  function Joined(axis: nat, b: Noun, x: Noun): Noun { if axis % 2 == 0 then Cell(b, x) else Cell(x, b) }

  lemma EditStep(axis: nat, b: Noun, c: Noun)
    requires axis > 1
    ensures Edit(axis, b, c) ==
            (match At(Sibling(axis), c) case Some(x) => Edit(axis / 2, Joined(axis, b, x), c) case None => None)
  {
    hide At;
  }

  /** Halving an axis keeps its first step and halves the rest. */
  lemma HalfAxis(axis: nat)
    requires axis > 3
    ensures Cap(axis) == Cap(axis / 2) && Mas(axis) > 1 && Mas(axis) / 2 == Mas(axis / 2)
    ensures Mas(axis) % 2 == axis % 2 && Sibling(axis) > 3 && Sibling(axis) / 2 == axis / 2
    ensures Mas(Sibling(axis)) == Sibling(Mas(axis)) && Cap(Sibling(axis)) == Cap(axis)
  {
  }

  /** One bottom-up editing step, seen from the root: it stays inside the branch. */
  lemma {:induction false} EditFromRoot(axis: nat, b: Noun, h: Noun, t: Noun)
    requires axis > 1
    ensures Edit(axis, b, Cell(h, t)) ==
            (match Edit(Mas(axis), b, if Cap(axis) == 2 then h else t)
             case None => None
             case Some(x) => Some(if Cap(axis) == 2 then Cell(x, t) else Cell(h, x)))
    decreases axis
  {
    var c := Cell(h, t);
    if axis <= 3 {
      AtFromRoot(2, c);
      AtFromRoot(3, c);
      assert forall x :: Edit(1, x, c) == Some(x);
    } else {
      var side := if Cap(axis) == 2 then h else t;
      HalfAxis(axis);
      HalfAxis(Sibling(axis));
      AtFromRoot(Sibling(axis), c);
      EditStep(axis, b, c);
      EditStep(Mas(axis), b, side);
      hide At, Edit, Cap, Mas;
      if At(Sibling(axis), c).Some? {
        EditFromRoot(axis / 2, Joined(axis, b, At(Sibling(axis), c).value), h, t);
      }
    }
  }

  lemma {:induction false} EditAtom(axis: nat, b: Noun, c: Noun)
    requires axis > 1 && c.Atom?
    ensures Edit(axis, b, c) == None
  {
    AtFromRoot(axis + 1, c);
    if axis > 2 { AtFromRoot(axis - 1, c); }
    if axis == 3 { AtFromRoot(2, c); }
  }

  /** The runtime's recursion computes the specification's edit, failures included. */
  lemma {:induction false} EditDownIsEdit(axis: nat, b: Noun, c: Noun)
    ensures EditDown(axis, b, c) == Edit(axis, b, c)
    decreases axis
  {
    if axis > 1 {
      if c.Cell? {
        EditFromRoot(axis, b, c.head, c.tail);
        EditDownIsEdit(Mas(axis), b, if Cap(axis) == 2 then c.head else c.tail);
      } else {
        EditAtom(axis, b, c);
      }
    }
  }

  /** Editing an axis and reading it back gives the new part; an edit succeeds exactly where reading does. */
  lemma {:induction false} AtAfterEdit(axis: nat, b: Noun, c: Noun)
    requires axis > 0
    ensures Edit(axis, b, c).Some? <==> At(axis, c).Some?
    ensures Edit(axis, b, c).Some? ==> At(axis, Edit(axis, b, c).value) == Some(b)
    decreases axis
  {
    if axis > 1 {
      AtFromRoot(axis, c);
      EditDownIsEdit(axis, b, c);
      if c.Cell? {
        var side := if Cap(axis) == 2 then c.head else c.tail;
        EditFromRoot(axis, b, c.head, c.tail);
        AtAfterEdit(Mas(axis), b, side);
        if Edit(axis, b, c).Some? { AtFromRoot(axis, Edit(axis, b, c).value); }
      } else {
        EditAtom(axis, b, c);
      }
    }
  }

  /** A noun and all that is inside it. */
  ghost function Subnouns(n: Noun): set<Noun> {
    match n
    case Atom(_) => {n}
    case Cell(h, t) => {n} + Subnouns(h) + Subnouns(t)
  }

  lemma {:induction false} SubnounsInside(p: Noun, n: Noun)
    requires p in Subnouns(n)
    ensures Subnouns(p) <= Subnouns(n)
  {
    if n.Cell? && p != n {
      if p in Subnouns(n.head) { SubnounsInside(p, n.head); } else { SubnounsInside(p, n.tail); }
    }
  }
}
